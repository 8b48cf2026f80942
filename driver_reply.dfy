/**
 * Extraction of the payload from a device reply (`Driver::GetResult`): the text after
 * the first "RESULT:" marker, else the text after the last colon, else the whole reply.
 * `std::string::find` and `find_last_of` are modelled as searches that return None
 * where the library returns `npos`.
 */
module DriverReply {
  import opened Wrappers

  const ResultFlag := "RESULT:"

  /** `pat` occurs in `s` starting at index `i`. */
  predicate OccursAt(s: string, pat: string, i: int) {
    0 <= i && i + |pat| <= |s| && s[i..i + |pat|] == pat
  }

  /** `r` is a suffix of `s`. */
  predicate IsSuffix(r: string, s: string) {
    |r| <= |s| && s[|s| - |r|..] == r
  }

  /** `s.find(pat, from)`: the first occurrence of `pat` at or after `from`. */
  function Find(s: string, pat: string, from: nat): (r: Option<nat>)
    requires from <= |s|
    ensures r.Some? ==> from <= r.value && OccursAt(s, pat, r.value)
    ensures r.Some? ==> forall j :: from <= j < r.value ==> !OccursAt(s, pat, j)
    ensures r.None? ==> forall j :: from <= j ==> !OccursAt(s, pat, j)
    decreases |s| - from
  {
    if from + |pat| > |s| then None
    else if s[from..from + |pat|] == pat then Some(from)
    else Find(s, pat, from + 1)
  }

  /** `s.find_last_of(c)` restricted to `s[..end]`: the last index below `end` holding `c`. */
  function FindLastOf(s: string, c: char, end: nat): (r: Option<nat>)
    requires end <= |s|
    ensures r.Some? ==> r.value < end && s[r.value] == c
    ensures r.Some? ==> forall j :: r.value < j < end ==> s[j] != c
    ensures r.None? ==> forall j :: 0 <= j < end ==> s[j] != c
  {
    if end == 0 then None
    else if s[end - 1] == c then Some(end - 1)
    else FindLastOf(s, c, end - 1)
  }

  /** The payload of a reply; it is always a suffix of the reply. */
  function GetResult(output: string): (r: string)
    ensures IsSuffix(r, output)
  {
    match Find(output, ResultFlag, 0)
    case Some(pos) => output[pos + |ResultFlag|..]
    case None =>
      match FindLastOf(output, ':', |output|)
      case None => output
      case Some(pos) => output[pos + 1..]
  }

  /** With a "RESULT:" marker, the payload is everything after its first occurrence. */
  lemma GetResultAfterFirstFlag(output: string, i: nat)
    requires OccursAt(output, ResultFlag, i)
    requires forall j :: 0 <= j < i ==> !OccursAt(output, ResultFlag, j)
    ensures GetResult(output) == output[i + |ResultFlag|..]
  {
  }

  /** Without the marker, the payload is everything after the last colon. */
  lemma GetResultAfterLastColon(output: string, i: nat)
    requires forall j :: !OccursAt(output, ResultFlag, j)
    requires i < |output| && output[i] == ':'
    requires forall j :: i < j < |output| ==> output[j] != ':'
    ensures GetResult(output) == output[i + 1..]
    ensures forall k :: 0 <= k < |GetResult(output)| ==> GetResult(output)[k] != ':'
  {
  }

  /** A reply with no colon at all holds no marker either, and is returned unchanged. */
  lemma GetResultWithoutColon(output: string)
    requires forall j :: 0 <= j < |output| ==> output[j] != ':'
    ensures GetResult(output) == output
  {
    forall j | 0 <= j && j + |ResultFlag| <= |output|
      ensures !OccursAt(output, ResultFlag, j)
    {
      assert output[j..j + |ResultFlag|][6] != ResultFlag[6];
    }
  }
}
