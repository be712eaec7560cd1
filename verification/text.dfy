/** String operations the components call: `trim`, `toLowerCase`,
    `includes` and `split`, over an ASCII alphabet. */
module Text {

  /** The white space that `trim` removes and the regex class `\s` matches,
      restricted to ASCII: space, tab, line feed, vertical tab, form feed and
      carriage return. */
  predicate IsSpace(c: char) {
    c == ' ' || c == '\t' || c == '\n' || c == '\U{B}' || c == '\U{C}' || c == '\r'
  }

  predicate NoSpace(s: string) {
    forall i :: 0 <= i < |s| ==> !IsSpace(s[i])
  }

  predicate AllSpace(s: string) {
    forall i :: 0 <= i < |s| ==> IsSpace(s[i])
  }

  /** The index of the first character at or after `n` that is not white
      space, or `|s|` when there is none. */
  function SkipSpace(s: string, n: nat): (k: nat)
    requires n <= |s|
    ensures n <= k <= |s|
    ensures forall i :: n <= i < k ==> IsSpace(s[i])
    ensures k < |s| ==> !IsSpace(s[k])
    decreases |s| - n
  {
    if n < |s| && IsSpace(s[n]) then SkipSpace(s, n + 1) else n
  }

  /** The length of `s[..n]` once its trailing white space is dropped. */
  function KeptPrefix(s: string, n: nat): (k: nat)
    requires n <= |s|
    ensures k <= n
    ensures forall i :: k <= i < n ==> IsSpace(s[i])
    ensures k > 0 ==> !IsSpace(s[k - 1])
    decreases n
  {
    if n > 0 && IsSpace(s[n - 1]) then KeptPrefix(s, n - 1) else n
  }

  /** `s.trim()`: the result neither starts nor ends with white space, and it
      is empty exactly when `s` is all white space. */
  function Trim(s: string): (r: string)
    ensures |r| <= |s|
    ensures r != [] ==> !IsSpace(r[0]) && !IsSpace(r[|r| - 1])
    ensures r == [] <==> AllSpace(s)
  {
    var i := SkipSpace(s, 0);
    var j := KeptPrefix(s, |s|);
    if i < j then s[i..j] else []
  }

  /** `!s.trim()`: the string is empty or white space only. Stated through
      `AllSpace`; `BlankIsEmptyTrim` ties it to `Trim`. */
  predicate Blank(s: string) {
    AllSpace(s)
  }

  lemma BlankIsEmptyTrim(s: string)
    ensures Blank(s) <==> Trim(s) == ""
  {
  }

  /** A trimmed slice of `s` sits between white space only. */
  lemma TrimIsSlice(s: string) returns (i: nat, j: nat)
    ensures i <= j <= |s| && Trim(s) == s[i..j]
    ensures AllSpace(s[..i]) && AllSpace(s[j..])
  {
    i := SkipSpace(s, 0);
    j := KeptPrefix(s, |s|);
    if j < i {
      j := i;
    }
  }

  /** A string with no white space trims to itself. */
  lemma TrimNoSpace(s: string)
    requires NoSpace(s)
    ensures Trim(s) == s
  {
    if |s| > 0 {
      assert !IsSpace(s[0]) && !IsSpace(s[|s| - 1]);
      assert SkipSpace(s, 0) == 0 && KeptPrefix(s, |s|) == |s|;
      assert s[0..|s|] == s;
    }
  }

  /** Skipping white space in `[c] + s` from `n + 1` lands one past where it
      lands in `s` from `n`. */
  lemma {:induction false} SkipSpaceShift(c: char, s: string, n: nat)
    requires n <= |s|
    ensures SkipSpace([c] + s, n + 1) == SkipSpace(s, n) + 1
    decreases |s| - n
  {
    assert n < |s| ==> ([c] + s)[n + 1] == s[n];
    if n < |s| && IsSpace(s[n]) {
      SkipSpaceShift(c, s, n + 1);
    }
  }

  /** Dropping the trailing white space of `[c] + s` keeps one more
      character than in `s`, once `s` keeps any. */
  lemma {:induction false} KeptPrefixShift(c: char, s: string, n: nat)
    requires n <= |s| && KeptPrefix(s, n) > 0
    ensures KeptPrefix([c] + s, n + 1) == KeptPrefix(s, n) + 1
    decreases n
  {
    assert ([c] + s)[n] == s[n - 1];
    if IsSpace(s[n - 1]) {
      KeptPrefixShift(c, s, n - 1);
    }
  }

  function LowerChar(c: char): char {
    if 'A' <= c <= 'Z' then (c as int + 32) as char else c
  }

  /** `s.toLowerCase()` on ASCII letters. */
  function Lower(s: string): (r: string)
    ensures |r| == |s|
    ensures forall i :: 0 <= i < |s| ==> r[i] == LowerChar(s[i])
  {
    seq(|s|, i requires 0 <= i < |s| => LowerChar(s[i]))
  }

  /** Lower-casing commutes with taking a slice. */
  lemma LowerSlice(s: string, i: int, j: int)
    requires 0 <= i <= j <= |s|
    ensures Lower(s[i..j]) == Lower(s)[i..j]
  {
  }

  /** `needle` occurs in `hay` starting at index `i`. */
  predicate OccursAt(hay: string, needle: string, i: int) {
    0 <= i <= |hay| - |needle| && hay[i..i + |needle|] == needle
  }

  /** `hay.includes(needle)`. */
  predicate Contains(hay: string, needle: string) {
    exists i | 0 <= i <= |hay| - |needle| :: OccursAt(hay, needle, i)
  }

  lemma ContainsEmpty(hay: string)
    ensures Contains(hay, "")
  {
    assert OccursAt(hay, "", 0);
  }

  lemma ContainsTransitive(a: string, b: string, c: string)
    requires Contains(a, b) && Contains(b, c)
    ensures Contains(a, c)
  {
    var i :| 0 <= i <= |a| - |b| && OccursAt(a, b, i);
    var j :| 0 <= j <= |b| - |c| && OccursAt(b, c, j);
    assert 0 <= i && i + |b| <= |a| && a[i..i + |b|] == b;
    assert 0 <= j && j + |c| <= |b| && b[j..j + |c|] == c;
    forall k | 0 <= k < |c|
      ensures a[i + j + k] == c[k]
    {
      assert c[k] == b[j + k];
      assert b[j + k] == a[i..i + |b|][j + k];
    }
    assert a[i + j..i + j + |c|] == c;
    assert OccursAt(a, c, i + j);
  }

  /** A substring stays a substring once both sides are lower-cased. */
  lemma ContainsLower(a: string, b: string)
    requires Contains(a, b)
    ensures Contains(Lower(a), Lower(b))
  {
    var i :| 0 <= i <= |a| - |b| && OccursAt(a, b, i);
    assert 0 <= i && i + |b| <= |a| && a[i..i + |b|] == b;
    LowerSlice(a, i, i + |b|);
    assert OccursAt(Lower(a), Lower(b), i);
  }

  /** `s.split(sep)` for a one-character separator: the pieces between
      separators, in order; an empty string gives one empty piece. */
  function Split(s: string, sep: char): (r: seq<string>)
    ensures |r| >= 1
    ensures forall k :: 0 <= k < |r| ==> sep !in r[k]
    decreases |s|
  {
    if |s| == 0 then [""]
    else
      var rest := Split(s[1..], sep);
      if s[0] == sep then [""] + rest
      else [[s[0]] + rest[0]] + rest[1..]
  }

  /** `parts.join(sep)`. */
  function Join(parts: seq<string>, sep: char): string
    decreases |parts|
  {
    if |parts| == 0 then ""
    else if |parts| == 1 then parts[0]
    else parts[0] + [sep] + Join(parts[1..], sep)
  }

  /** Joining the pieces back with the separator restores the text. */
  lemma {:induction false} JoinSplit(s: string, sep: char)
    ensures Join(Split(s, sep), sep) == s
    decreases |s|
  {
    if |s| > 0 {
      var rest := Split(s[1..], sep);
      JoinSplit(s[1..], sep);
      if s[0] == sep {
        assert Split(s, sep) == [""] + rest;
        assert Join([""] + rest, sep) == "" + [sep] + Join(rest, sep);
        assert s == [s[0]] + s[1..];
      } else {
        var parts := [[s[0]] + rest[0]] + rest[1..];
        assert Split(s, sep) == parts;
        if |rest| == 1 {
          assert Join(parts, sep) == [s[0]] + rest[0];
        } else {
          assert parts[1..] == rest[1..];
          assert Join(rest, sep) == rest[0] + [sep] + Join(rest[1..], sep);
          assert Join(parts, sep) == [s[0]] + rest[0] + [sep] + Join(rest[1..], sep);
        }
        assert s == [s[0]] + s[1..];
      }
    }
  }

  /** A piece with no separator, followed by a separator, splits off whole. */
  lemma {:induction false} SplitPrefix(x: string, sep: char, y: string)
    requires sep !in x
    ensures Split(x + [sep] + y, sep) == [x] + Split(y, sep)
    decreases |x|
  {
    var s := x + [sep] + y;
    if |x| == 0 {
      assert s[0] == sep && s[1..] == y;
    } else {
      SplitPrefix(x[1..], sep, y);
      assert s[0] == x[0] && s[1..] == x[1..] + [sep] + y;
      var rest := Split(s[1..], sep);
      assert rest == [x[1..]] + Split(y, sep);
      assert rest[0] == x[1..] && rest[1..] == Split(y, sep);
      assert [x[0]] + x[1..] == x;
    }
  }

  /** Text with no separator is a single piece. */
  lemma {:induction false} SplitNone(x: string, sep: char)
    requires sep !in x
    ensures Split(x, sep) == [x]
    decreases |x|
  {
    if |x| > 0 {
      SplitNone(x[1..], sep);
      assert x == [x[0]] + x[1..];
    }
  }

  /** Splitting a join of separator-free pieces gives the pieces back. */
  lemma {:induction false} SplitJoin(parts: seq<string>, sep: char)
    requires |parts| >= 1
    requires forall k :: 0 <= k < |parts| ==> sep !in parts[k]
    ensures Split(Join(parts, sep), sep) == parts
    decreases |parts|
  {
    if |parts| == 1 {
      SplitNone(parts[0], sep);
    } else {
      SplitJoin(parts[1..], sep);
      SplitPrefix(parts[0], sep, Join(parts[1..], sep));
      assert [parts[0]] + parts[1..] == parts;
    }
  }

  /** `text.split(',').map(s => s.trim())`: one trimmed entry per
      comma-separated piece. */
  function SplitTrim(text: string): (r: seq<string>)
    ensures |r| == |Split(text, ',')|
    ensures forall k :: 0 <= k < |r| ==> r[k] == Trim(Split(text, ',')[k])
    ensures forall k :: 0 <= k < |r| ==> ',' !in r[k]
  {
    var pieces := Split(text, ',');
    seq(|pieces|, k requires 0 <= k < |pieces| => Trim(pieces[k]))
  }

  /** A leading white space character is trimmed away. */
  lemma TrimSpaceFirst(s: string)
    ensures Trim(" " + s) == Trim(s)
  {
    assert " " + s == [' '] + s;
    if AllSpace(s) {
      AllSpaceCons(' ', s);
    } else {
      TrimCons(' ', s);
    }
  }

  lemma AllSpaceCons(c: char, s: string)
    requires IsSpace(c) && AllSpace(s)
    ensures AllSpace([c] + s)
  {
    forall k | 0 < k < |s| + 1
      ensures IsSpace(([c] + s)[k])
    {
      assert ([c] + s)[k] == s[k - 1];
    }
  }

  /** Putting white space in front of text that is not all white space does
      not change its trimmed form. */
  lemma TrimCons(c: char, s: string)
    requires IsSpace(c) && !AllSpace(s)
    ensures Trim([c] + s) == Trim(s)
  {
    var t := [c] + s;
    var i := SkipSpace(s, 0);
    var j := KeptPrefix(s, |s|);
    SkipSpaceShift(c, s, 0);
    KeptPrefixShift(c, s, |s|);
    assert i < j;
    assert SkipSpace(t, 0) == i + 1 && KeptPrefix(t, |t|) == j + 1;
    assert Trim(t) == t[i + 1..j + 1];
    assert Trim(s) == s[i..j];
    SliceShift(c, s, i, j);
  }

  lemma SliceShift(c: char, s: string, i: int, j: int)
    requires 0 <= i <= j <= |s|
    ensures ([c] + s)[i + 1..j + 1] == s[i..j]
  {
    assert forall k :: i <= k < j ==> ([c] + s)[k + 1] == s[k];
  }

  /** Splitting an empty field gives one empty entry, not none. */
  lemma SplitTrimEmpty()
    ensures SplitTrim("") == [""]
  {
  }

  /** `parts.join(', ')`. */
  function JoinCommaSpace(parts: seq<string>): string
    decreases |parts|
  {
    if |parts| == 0 then ""
    else if |parts| == 1 then parts[0]
    else parts[0] + ", " + JoinCommaSpace(parts[1..])
  }

  /** Every part with one space in front of it. */
  function Spaced(parts: seq<string>): (r: seq<string>)
    ensures |r| == |parts|
    ensures forall i :: 0 <= i < |parts| ==> r[i] == " " + parts[i]
  {
    seq(|parts|, i requires 0 <= i < |parts| => " " + parts[i])
  }

  lemma {:induction false} JoinSpaced(parts: seq<string>)
    requires |parts| >= 1
    ensures Join(Spaced(parts), ',') == " " + JoinCommaSpace(parts)
    decreases |parts|
  {
    if |parts| >= 2 {
      JoinSpaced(parts[1..]);
      assert Spaced(parts)[1..] == Spaced(parts[1..]);
    }
  }

  /** `parts.join(', ')` is the comma join of the parts, the later ones
      with a space in front. */
  lemma {:induction false} JoinCommaSpacePieces(parts: seq<string>)
    requires |parts| >= 1
    ensures JoinCommaSpace(parts) == Join([parts[0]] + Spaced(parts[1..]), ',')
  {
    var padded := [parts[0]] + Spaced(parts[1..]);
    if |parts| >= 2 {
      var tail := JoinCommaSpace(parts[1..]);
      JoinSpaced(parts[1..]);
      assert padded[0] == parts[0] && padded[1..] == Spaced(parts[1..]);
      assert Join(padded, ',') == parts[0] + [','] + Join(Spaced(parts[1..]), ',');
      assert Join(padded, ',') == parts[0] + [','] + (" " + tail);
      assert parts[0] + [','] + (" " + tail) == parts[0] + ", " + tail;
    }
  }

  /** An entry `join(', ')` can show and `split(',').map(trim)` give back:
      trimmed and free of commas. */
  predicate Tidy(p: string) {
    ',' !in p && Trim(p) == p
  }

  /** The pieces the comma split of a `join(', ')` text yields. */
  lemma {:induction false} SplitJoinCommaSpace(parts: seq<string>)
    requires |parts| >= 1
    requires forall i :: 0 <= i < |parts| ==> Tidy(parts[i])
    ensures Split(JoinCommaSpace(parts), ',') == [parts[0]] + Spaced(parts[1..])
  {
    var padded := [parts[0]] + Spaced(parts[1..]);
    JoinCommaSpacePieces(parts);
    forall k | 0 <= k < |padded|
      ensures ',' !in padded[k]
    {
      if k > 0 {
        assert padded[k] == [' '] + parts[k];
      }
    }
    SplitJoin(padded, ',');
  }

  /** Typing the displayed `join(', ')` text back into a field parsed with
      `split(',').map(trim)` restores the list, provided every entry is
      already trimmed and free of commas. */
  lemma {:induction false} SplitTrimJoin(parts: seq<string>)
    requires |parts| >= 1
    requires forall i :: 0 <= i < |parts| ==> Tidy(parts[i])
    ensures SplitTrim(JoinCommaSpace(parts)) == parts
  {
    var text := JoinCommaSpace(parts);
    SplitJoinCommaSpace(parts);
    var r := SplitTrim(text);
    forall k | 0 <= k < |parts|
      ensures r[k] == parts[k]
    {
      TrimPiece(parts, k);
    }
  }

  /** Each piece of the comma split trims back to its tidy entry. */
  lemma TrimPiece(parts: seq<string>, k: int)
    requires 0 <= k < |parts| && Tidy(parts[k])
    ensures Trim(([parts[0]] + Spaced(parts[1..]))[k]) == parts[k]
  {
    if k > 0 {
      var spaced := Spaced(parts[1..]);
      assert spaced[k - 1] == " " + parts[k];
      assert ([parts[0]] + spaced)[k] == spaced[k - 1];
      TrimSpaceFirst(parts[k]);
    }
  }

  predicate IsDigit(c: char) {
    '0' <= c <= '9'
  }

  /** The number a string of decimal digits denotes. */
  function DigitsValue(s: string): nat
    requires forall k :: 0 <= k < |s| ==> IsDigit(s[k])
    decreases |s|
  {
    if s == [] then 0
    else
      var last := s[|s| - 1];
      assert IsDigit(last) && '0' as int <= last as int;
      10 * DigitsValue(s[..|s| - 1]) + (last as int - '0' as int)
  }

  /** The decimal digits of `n`, as a template literal prints an integer:
      they denote `n`, and only zero itself starts with a zero. */
  function Decimal(n: nat): (r: string)
    ensures r != []
    ensures forall k :: 0 <= k < |r| ==> IsDigit(r[k])
    ensures DigitsValue(r) == n
    ensures n == 0 <==> r[0] == '0'
    decreases n
  {
    var digit := ['0' + (n % 10) as char];
    if n < 10 then digit
    else
      var high := Decimal(n / 10);
      assert (high + digit)[..|high|] == high;
      high + digit
  }
}
