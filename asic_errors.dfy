/** The ASIC's status byte: one bit per error flag, and the message for each value. */
module AsicErrors {

  /** The underlying type of the `ASICError` enum is `uint8_t`. */
  type Code = bv8

  const OK: Code := 0
  const UNKNOWN_CMD: Code := 1 << 0
  const VALID_ERROR: Code := 1 << 1
  const CHKSUM_ERROR: Code := 1 << 2
  const BUSY: Code := 1 << 3
  const LOCKED: Code := 1 << 6
  const EXTERNAL: Code := 1 << 7

  /** The seven named values of `ASICError`. */
  const Named: seq<Code> := [OK, UNKNOWN_CMD, VALID_ERROR, CHKSUM_ERROR, BUSY, LOCKED, EXTERNAL]

  const NoErrorMessage := "No Error Occurred"
  const UnknownMessage := "Unknown Error Detected"

  /** `c` is one of the seven named values. */
  predicate IsNamed(c: Code) {
    c == OK || c == UNKNOWN_CMD || c == VALID_ERROR || c == CHKSUM_ERROR || c == BUSY
    || c == LOCKED || c == EXTERNAL
  }

  predicate IsSingleBit(c: Code) {
    c != 0 && c & (c - 1) == 0
  }

  /** Every named value is 0 or one bit, the values are distinct, and bits 4 and 5 are unused. */
  lemma NamedCodesAreFlags()
    ensures forall i :: 0 <= i < |Named| ==> Named[i] == OK || IsSingleBit(Named[i])
    ensures forall i, j :: 0 <= i < j < |Named| ==> Named[i] != Named[j]
    ensures forall c :: c in Named <==> IsNamed(c)
    ensures forall c :: IsNamed(c) ==> c & 0x30 == 0
  {
  }

  /** `GetASICErrorMessage`: total over the byte; values not named are unknown. */
  function GetASICErrorMessage(code: Code): (m: string)
    ensures m == NoErrorMessage <==> code == OK
    ensures m == UnknownMessage <==> !IsNamed(code)
  {
    if code == OK then NoErrorMessage
    else if code == UNKNOWN_CMD then "Unknown Command Sent"
    else if code == VALID_ERROR then "Invalid Data Sent"
    else if code == CHKSUM_ERROR then "Checksum Error"
    else if code == BUSY then "ASIC is Busy Try Again Later"
    else if code == LOCKED then "ASIC is in a Locked State"
    else if code == EXTERNAL then "External Error Detected"
    else UnknownMessage
  }

  /** Distinct named values have distinct messages. */
  lemma AsicMessagesDistinct(a: Code, b: Code)
    requires IsNamed(a) && IsNamed(b) && a != b
    ensures GetASICErrorMessage(a) != GetASICErrorMessage(b)
  {
  }

  /** Two or more flags at once, or flag 4 or 5, read as unknown. */
  lemma CombinedFlagsAreUnknown(code: Code)
    requires code != OK && (!IsSingleBit(code) || code & 0x30 != 0)
    ensures GetASICErrorMessage(code) == UnknownMessage
  {
  }
}
