/** The two e-mail patterns the forms test against, stated as what the
    regular expressions match, with a plainer description of each proved
    equivalent. */
module EmailPatterns {
  import opened Text
  import Lists

  /** A piece that the class `[^\s@]` matches character by character. */
  predicate PlainPart(p: string) {
    forall k :: 0 <= k < |p| ==> !IsSpace(p[k]) && p[k] != '@'
  }

  /** The anchored pattern matches with its '@' at `i` and its `\.` at `j`. */
  predicate StrictAt(s: string, i: int, j: int) {
    0 < i && i + 1 < j && j + 1 < |s| && s[i] == '@' && s[j] == '.' &&
    PlainPart(s[..i]) && PlainPart(s[i + 1..j]) && PlainPart(s[j + 1..])
  }

  /** `/^[^\s@]+@[^\s@]+\.[^\s@]+$/.test(s)`: the whole string is a local
      part, '@', a domain label, '.', and a last part, every piece non-empty
      and free of white space and '@'. */
  predicate StrictMatch(s: string) {
    exists i, j | 0 <= i < |s| && 0 <= j < |s| :: StrictAt(s, i, j)
  }

  /** An '@' at `i` after a non-empty local part and a '.' at `j` strictly
      inside the domain that follows it. */
  predicate AtThenDot(s: string, i: int, j: int) {
    0 < i && i + 1 < j && j + 1 < |s| && s[i] == '@' && s[j] == '.'
  }

  /** No white space, exactly one '@' after a non-empty local part, and a '.'
      in the domain that is neither its first nor its last character. */
  predicate SingleAtAddress(s: string) {
    NoSpace(s) && Lists.Count(s, '@') == 1 &&
    exists i, j | 0 <= i < |s| && 0 <= j < |s| :: AtThenDot(s, i, j)
  }

  lemma CountAtLeastOne<T>(s: seq<T>, x: T, k: int)
    requires 0 <= k < |s| && s[k] == x
    ensures Lists.Count(s, x) >= 1
  {
    Lists.CountZero(s, x);
  }

  /** Two occurrences of `x` count at least twice. */
  lemma CountTwo<T>(s: seq<T>, x: T, k1: int, k2: int)
    requires 0 <= k1 < k2 < |s| && s[k1] == x && s[k2] == x
    ensures Lists.Count(s, x) >= 2
  {
    assert s == s[..k2] + s[k2..];
    Lists.CountConcat(s[..k2], s[k2..], x);
    CountAtLeastOne(s[..k2], x, k1);
    CountAtLeastOne(s[k2..], x, 0);
  }

  lemma StrictAtSingle(s: string, i: int, j: int)
    requires StrictAt(s, i, j)
    ensures NoSpace(s) && Lists.Count(s, '@') == 1
  {
    forall k | 0 <= k < |s|
      ensures !IsSpace(s[k])
    {
      if k < i {
        assert s[k] == s[..i][k];
      } else if i < k < j {
        assert s[k] == s[i + 1..j][k - i - 1];
      } else if j < k {
        assert s[k] == s[j + 1..][k - j - 1];
      }
    }
    var a, b, c := s[..i], s[i + 1..j], s[j + 1..];
    assert s == a + ([s[i]] + (b + ([s[j]] + c)));
    Lists.CountZero(a, '@');
    Lists.CountZero(b, '@');
    Lists.CountZero(c, '@');
    Lists.CountConcat([s[j]], c, '@');
    Lists.CountConcat(b, [s[j]] + c, '@');
    Lists.CountConcat([s[i]], b + ([s[j]] + c), '@');
    Lists.CountConcat(a, [s[i]] + (b + ([s[j]] + c)), '@');
  }

  lemma SingleAtStrict(s: string, i: int, j: int)
    requires NoSpace(s) && Lists.Count(s, '@') == 1 && AtThenDot(s, i, j)
    ensures StrictAt(s, i, j)
  {
    forall k | 0 <= k < |s| && k != i
      ensures s[k] != '@'
    {
      if s[k] == '@' {
        if k < i { CountTwo(s, '@', k, i); } else { CountTwo(s, '@', i, k); }
      }
    }
    assert PlainPart(s[..i]);
    assert PlainPart(s[i + 1..j]);
    assert PlainPart(s[j + 1..]);
  }

  lemma StrictMatchIff(s: string)
    ensures StrictMatch(s) <==> SingleAtAddress(s)
  {
    if StrictMatch(s) {
      var i, j :| 0 <= i < |s| && 0 <= j < |s| && StrictAt(s, i, j);
      StrictAtSingle(s, i, j);
      assert AtThenDot(s, i, j);
    }
    if SingleAtAddress(s) {
      var i, j :| 0 <= i < |s| && 0 <= j < |s| && AtThenDot(s, i, j);
      SingleAtStrict(s, i, j);
    }
  }

  /** The unanchored pattern matches the substring `s[a..e]` with its '@' at
      `i` and its `\.` at `j`. */
  predicate LooseAt(s: string, a: int, i: int, j: int, e: int) {
    0 <= a < i && i + 1 < j && j + 1 < e <= |s| && s[i] == '@' && s[j] == '.' &&
    NoSpace(s[a..i]) && NoSpace(s[i + 1..j]) && NoSpace(s[j + 1..e])
  }

  /** `/\S+@\S+\.\S+/.test(s)` with no anchors: some substring is a run of
      non-white-space, '@', a run of non-white-space, '.', and a run of
      non-white-space. `\S` matches '@' and '.' too. */
  predicate LooseMatch(s: string) {
    exists a, i, j, e | 0 <= a <= |s| && 0 <= i <= |s| && 0 <= j <= |s| && 0 <= e <= |s| :: LooseAt(s, a, i, j, e)
  }

  /** The '@' at `i` and the '.' at `j` have non-white-space next to them and
      only non-white-space between them. */
  predicate WindowAt(s: string, i: int, j: int) {
    1 <= i && i + 2 <= j && j + 1 < |s| && s[i] == '@' && s[j] == '.' &&
    !IsSpace(s[i - 1]) && NoSpace(s[i + 1..j]) && !IsSpace(s[j + 1])
  }

  /** Some '@' at i >= 1 and some '.' at j >= i + 2, where s[i-1],
      s[i+1..j-1] and s[j+1] are all non-white-space. */
  predicate AtDotWindow(s: string) {
    exists i, j | 0 <= i < |s| && 0 <= j < |s| :: WindowAt(s, i, j)
  }

  lemma LooseMatchIff(s: string)
    ensures LooseMatch(s) <==> AtDotWindow(s)
  {
    if LooseMatch(s) {
      var a, i, j, e :| 0 <= a <= |s| && 0 <= i <= |s| && 0 <= j <= |s| && 0 <= e <= |s| && LooseAt(s, a, i, j, e);
      LooseAtWindow(s, a, i, j, e);
    }
    if AtDotWindow(s) {
      var i, j :| 0 <= i < |s| && 0 <= j < |s| && WindowAt(s, i, j);
      WindowLooseAt(s, i, j);
    }
  }

  /** A substring match narrows to the window around its '@' and '.'. */
  lemma LooseAtWindow(s: string, a: int, i: int, j: int, e: int)
    requires LooseAt(s, a, i, j, e)
    ensures WindowAt(s, i, j)
  {
    assert s[i - 1] == s[a..i][i - 1 - a];
    assert s[j + 1] == s[j + 1..e][0];
  }

  /** A window is matched by the substring from just before its '@' to just
      after its '.'. */
  lemma WindowLooseAt(s: string, i: int, j: int)
    requires WindowAt(s, i, j)
    ensures LooseAt(s, i - 1, i, j, j + 2)
  {
    assert NoSpace(s[i - 1..i]);
    assert NoSpace(s[j + 1..j + 2]);
  }

  /** Every address the anchored pattern accepts, the unanchored one accepts. */
  lemma StrictImpliesLoose(s: string)
    requires StrictMatch(s)
    ensures LooseMatch(s)
  {
    var i, j :| 0 <= i < |s| && 0 <= j < |s| && StrictAt(s, i, j);
    assert s[..i] == s[0..i];
    assert s[j + 1..] == s[j + 1..|s|];
    assert LooseAt(s, 0, i, j, |s|);
  }

  /** The unanchored pattern accepts strings the anchored one refuses:
      surrounding text, white space and a second '@' are allowed. */
  lemma LooseAcceptsMore()
    ensures LooseMatch("x a@b.c y") && !StrictMatch("x a@b.c y")
  {
    var s := "x a@b.c y";
    assert LooseAt(s, 2, 3, 5, 7);
    assert IsSpace(s[1]);
    StrictMatchIff(s);
  }
}
