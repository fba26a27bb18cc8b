/** `truncateText`: shorten a label to a character limit, marking the cut. */
module Text {

  const Ellipsis := "..."

  /** JavaScript `substring(0, limit)` clamps a negative end to 0. */
  function ClampEnd(limit: int): (n: nat)
    ensures limit >= 0 ==> n == limit
    ensures limit < 0 ==> n == 0
  {
    if limit < 0 then 0 else limit
  }

  function Truncate(text: string, limit: int): (r: string)
    ensures |text| <= limit ==> r == text
    ensures |text| > limit ==> |r| == ClampEnd(limit) + 3
    ensures |text| > limit ==> r[..ClampEnd(limit)] == text[..ClampEnd(limit)] && r[ClampEnd(limit)..] == Ellipsis
    ensures limit < 0 ==> r == Ellipsis
  {
    if |text| > limit then text[..ClampEnd(limit)] + Ellipsis else text
  }

  /** The result never exceeds the limit by more than the three dots, and it
      starts with as much of the text as the limit allows. */
  lemma TruncateBounds(text: string, limit: int)
    requires limit >= 0
    ensures |Truncate(text, limit)| <= limit + 3
    ensures var n := if |text| < limit then |text| else limit;
            n <= |Truncate(text, limit)| && Truncate(text, limit)[..n] == text[..n]
  {
  }

  /** Truncating an already truncated text changes nothing, for every limit. */
  lemma TruncateIdempotent(text: string, limit: int)
    ensures Truncate(Truncate(text, limit), limit) == Truncate(text, limit)
  {
    var r := Truncate(text, limit);
    if |text| > limit {
      var n := ClampEnd(limit);
      assert r == r[..n] + r[n..];
    }
  }
}
