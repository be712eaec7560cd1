/** The job card's description preview. */
module JobCard {

  /** The longest description shown whole. */
  const PreviewLength: nat := 150

  /** A description longer than the preview length shows its first 150
      characters and "..."; a shorter one shows whole. */
  function Truncate(description: string): (r: string)
    ensures |description| <= PreviewLength ==> r == description
    ensures |description| > PreviewLength ==> |r| == PreviewLength + 3 && r[PreviewLength..] == "..."
    ensures r[..if |r| < PreviewLength then |r| else PreviewLength] ==
      description[..if |description| < PreviewLength then |description| else PreviewLength]
  {
    if |description| > PreviewLength then description[..PreviewLength] + "..." else description
  }

  /** A preview is never longer than 153 characters, and it begins with
      the description's own first characters. */
  lemma TruncateBounds(description: string)
    ensures |Truncate(description)| <= PreviewLength + 3
    ensures |description| > PreviewLength ==> Truncate(description)[..PreviewLength] == description[..PreviewLength]
  {
  }

  /** Cutting a preview again gives the same preview: a cut preview is
      153 characters long and its own cut keeps the same 150 and "...". */
  lemma TruncateIdempotent(description: string)
    ensures Truncate(Truncate(description)) == Truncate(description)
  {
    if |description| > PreviewLength {
      var t := Truncate(description);
      assert t[..PreviewLength] == description[..PreviewLength];
    }
  }
}
