/** Preparation of one base64url segment of a JWT (`JWT.b64d` before the
    decoding itself, and `JWT.add_padding`). The alphabet is the URL- and
    filename-safe one of section 5 of RFC 4648. */
module Jwt {
  import opened Wrappers

  datatype SegmentError = IllegalCharacters(segment: string) | IncorrectPadding(segment: string)

  /** A character of the base64url alphabet. */
  predicate UrlSafe(c: char)
  {
    ('A' <= c <= 'Z') || ('a' <= c <= 'z') || ('0' <= c <= '9') || c == '_' || c == '-'
  }

  /** `re.match(b"^[A-Za-z0-9_-]*$", s)`: Python's `$` also matches just before
      a final newline, so one trailing newline passes the check. */
  predicate MatchesAlphabet(s: string)
  {
    || (forall i | 0 <= i < |s| :: UrlSafe(s[i]))
    || (|s| > 0 && s[|s| - 1] == '\n' && forall i | 0 <= i < |s| - 1 :: UrlSafe(s[i]))
  }

  /** `b.rstrip(b"=")`. */
  function StripPadding(b: string): (r: string)
    ensures |r| <= |b| && r == b[..|r|]
    ensures forall i | |r| <= i < |b| :: b[i] == '='
    ensures r == [] || r[|r| - 1] != '='
    decreases |b|
  {
    if |b| > 0 && b[|b| - 1] == '=' then StripPadding(b[..|b| - 1]) else b
  }

  /** `add_padding`: complete a segment to a multiple of four characters with
      `=`; a length of 1 modulo 4 cannot be padded. */
  function AddPadding(b: string): (r: Result<string, SegmentError>)
    ensures r.Failure? <==> |b| % 4 == 1
    ensures r.Success? ==> && |r.value| % 4 == 0
                           && |b| <= |r.value| <= |b| + 2
                           && r.value[..|b|] == b
                           && forall i | |b| <= i < |r.value| :: r.value[i] == '='
  {
    var m := |b| % 4;
    if m == 1 then Failure(IncorrectPadding(b))
    else if m == 2 then Success(b + "==")
    else if m == 3 then Success(b + "=")
    else Success(b)
  }

  /** Stripping the padding `AddPadding` added gives the segment back, for every
      segment that does not itself end in `=`. */
  lemma {:induction false} PaddingRoundTrip(b: string)
    requires |b| % 4 != 1
    requires b == [] || b[|b| - 1] != '='
    ensures AddPadding(b).Success? && StripPadding(AddPadding(b).value) == b
  {
    var p := AddPadding(b).value;
    if |p| == |b| + 2 {
      assert p[..|p| - 1] == b + "=";
      assert (b + "=")[..|b|] == b;
    } else if |p| == |b| + 1 {
      assert p[..|p| - 1] == b;
    }
  }

  /** `b64d` up to the decoding: strip the padding, reject characters outside
      the alphabet, and pad the segment only when it carried no padding. */
  function PrepareSegment(b: string): (r: Result<string, SegmentError>)
    ensures r.Success? ==> MatchesAlphabet(StripPadding(b))
    ensures !MatchesAlphabet(StripPadding(b)) ==> r == Failure(IllegalCharacters(StripPadding(b)))
    ensures MatchesAlphabet(StripPadding(b)) && StripPadding(b) != b ==> r == Success(b)
    ensures MatchesAlphabet(StripPadding(b)) && StripPadding(b) == b ==> r == AddPadding(b)
    ensures r.Failure? && r.error.IncorrectPadding? ==> StripPadding(b) == b && |b| % 4 == 1
  {
    var cb := StripPadding(b);
    if !MatchesAlphabet(cb) then Failure(IllegalCharacters(cb))
    else if cb == b then AddPadding(b)
    else Success(b)
  }

  /** An unpadded base64url segment whose length is not 1 modulo 4 is accepted
      and padded to a whole number of quanta, and removing the padding restores
      it. */
  lemma UnpaddedSegmentIsPadded(b: string)
    requires forall i | 0 <= i < |b| :: UrlSafe(b[i])
    requires |b| % 4 != 1
    ensures PrepareSegment(b).Success?
    ensures |PrepareSegment(b).value| % 4 == 0
    ensures StripPadding(PrepareSegment(b).value) == b
  {
    assert b == [] || !UrlSafe('=');
    assert StripPadding(b) == b;
    PaddingRoundTrip(b);
  }
}
