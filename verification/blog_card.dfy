/** `BlogCard`'s description truncation: a description longer than the
    card's limit is cut to the limit and marked with an ellipsis. Lengths
    count characters. */
module BlogCard {
  import opened Text

  /** The default `maxDescriptionLength`. */
  const DefaultMaxLength: int := 120

  const Ellipsis := "..."

  /** JavaScript's `s.substring(0, n)`: the end is clamped into
      `[0, |s|]`. */
  function Prefix(s: string, n: int): (r: string)
    ensures |r| == if n < 0 then 0 else if n > |s| then |s| else n
    ensures StartsWith(s, r)
  {
    if n < 0 then [] else if n > |s| then s else s[..n]
  }

  /** `truncatedDescription`. */
  function Truncate(description: string, maxLength: int): (r: string)
    ensures |description| <= maxLength ==> r == description
    ensures |description| > maxLength ==> |r| == (if maxLength < 0 then 0 else maxLength) + |Ellipsis|
    ensures maxLength >= 0 ==> |r| <= maxLength + |Ellipsis|
  {
    if |description| > maxLength then Prefix(description, maxLength) + Ellipsis else description
  }

  /** Whatever the limit, the card shows the description's first
      `min(length, limit)` characters before anything else, and a cut
      description ends with the ellipsis. */
  lemma TruncateKeepsPrefix(description: string, maxLength: int)
    requires maxLength >= 0
    ensures var n := if |description| < maxLength then |description| else maxLength;
      StartsWith(Truncate(description, maxLength), description[..n])
    ensures |description| > maxLength ==>
      Truncate(description, maxLength)[maxLength..] == Ellipsis
  {
  }

  /** Truncating twice with the same limit changes nothing more: the cut
      text is longer than the limit again, but cutting it gives itself. */
  lemma {:induction false} TruncateIdempotent(description: string, maxLength: int)
    ensures Truncate(Truncate(description, maxLength), maxLength) == Truncate(description, maxLength)
  {
    var r := Truncate(description, maxLength);
    if |description| > maxLength {
      var n := if maxLength < 0 then 0 else maxLength;
      assert r == description[..n] + Ellipsis;
      assert Prefix(r, maxLength) == description[..n];
    }
  }

  /** A description is shown unchanged exactly when it fits, or when its
      part past the limit already is the ellipsis. */
  lemma {:induction false} TruncateUnchanged(description: string, maxLength: int)
    ensures Truncate(description, maxLength) == description
        <==> |description| <= maxLength
             || description[(if maxLength < 0 then 0 else maxLength)..] == Ellipsis
  {
    if |description| > maxLength {
      var n := if maxLength < 0 then 0 else maxLength;
      assert Truncate(description, maxLength) == description[..n] + Ellipsis;
      assert description == description[..n] + description[n..];
      if description[..n] + Ellipsis == description {
        assert description[n..] == (description[..n] + Ellipsis)[n..];
      }
    }
  }

  /** An example at the boundary: with the default limit, a 121-character
      description loses its last character to the ellipsis. */
  lemma DefaultLimitCuts(description: string)
    requires |description| == 121
    ensures Truncate(description, DefaultMaxLength) == description[..120] + Ellipsis
  {
  }
}
