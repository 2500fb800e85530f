/** The front end's text helper `truncateText`. */
module Helpers {
  import opened Text

  /** JavaScript's `substring(0, n)` clamps a negative end to 0. */
  function Clamp(n: int, len: nat): (k: nat)
    ensures k <= len
  {
    if n < 0 then 0 else if n > len then len else n
  }

  const Ellipsis := "..."

  /** `truncateText(text, maxLength)`: a text that fits is returned as it
      is; a longer one is cut after `maxLength` characters (none when
      `maxLength` is negative) and "..." is appended. */
  function Truncate(text: string, maxLength: int): (r: string)
    ensures |text| <= maxLength ==> r == text
    ensures |text| > maxLength ==>
      |r| == (if maxLength < 0 then 0 else maxLength) + 3
      && StartsWith(text, r[..|r| - 3]) && r[|r| - 3..] == Ellipsis
  {
    if |text| <= maxLength then text
    else text[..Clamp(maxLength, |text|)] + Ellipsis
  }

  /** The result is at most three characters longer than the limit, and it
      is never longer than the text plus the ellipsis. */
  lemma TruncateBound(text: string, maxLength: int)
    ensures |Truncate(text, maxLength)| <= (if maxLength < 0 then 0 else maxLength) + 3
    ensures |Truncate(text, maxLength)| <= |text| + 3
  {
  }

  /** Truncating twice with the same limit is truncating once: the
      ellipsis of the first cut is cut off again and put back. */
  lemma TruncateIdempotent(text: string, maxLength: int)
    ensures Truncate(Truncate(text, maxLength), maxLength) == Truncate(text, maxLength)
  {
    var r := Truncate(text, maxLength);
    if |text| > maxLength {
      var k := Clamp(maxLength, |text|);
      assert r == text[..k] + Ellipsis;
      assert |r| > maxLength;
      assert r[..Clamp(maxLength, |r|)] == text[..k];
    }
  }
}
