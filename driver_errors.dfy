/**
 * The driver's error codes: a 32-bit mask returned by the vendor DLL, one bit per
 * kind of failure, the message table for single codes, and the decision of which
 * exception is thrown for a mask.
 */
module DriverErrors {
  import opened Wrappers

  /** The underlying type of the `Error` enum is `uint32_t`. */
  type Code = bv32

  const FAILED: Code := 1
  const PARAM: Code := 1 << 1
  const PARAMSET: Code := 1 << 2
  const STATUS: Code := 1 << 3
  const USB_INIT: Code := 1 << 4
  const USB_RECEIVE: Code := 1 << 5
  const USB_SEND: Code := 1 << 6
  const NOT_IMPLEMENTED: Code := 1 << 7
  const CRC: Code := 1 << 8
  const FPGAERROR: Code := 1 << 9
  const SWINTERNAL: Code := 1 << 10
  const ASICERROR: Code := 1 << 16

  /** The twelve named codes, in the order the bits are tested. */
  const Codes: seq<Code> := [FAILED, PARAM, PARAMSET, STATUS, USB_INIT, USB_RECEIVE,
                             USB_SEND, NOT_IMPLEMENTED, CRC, FPGAERROR, SWINTERNAL, ASICERROR]

  /** Every bit that carries a named code. */
  const KnownMask: Code := 0x1_07FF

  const UnknownMessage := "Unknown Error Occured \n"

  /** `c` is one of the twelve named codes. */
  predicate IsNamed(c: Code) {
    c == FAILED || c == PARAM || c == PARAMSET || c == STATUS || c == USB_INIT || c == USB_RECEIVE
    || c == USB_SEND || c == NOT_IMPLEMENTED || c == CRC || c == FPGAERROR || c == SWINTERNAL
    || c == ASICERROR
  }

  predicate IsSingleBit(c: Code) {
    c != 0 && c & (c - 1) == 0
  }

  /** Each code is one bit inside KnownMask; bit 16 is ASICERROR and bits 11-15 name nothing. */
  lemma CodesAreNamedBits()
    ensures |Codes| == 12
    ensures forall i :: 0 <= i < |Codes| ==> IsSingleBit(Codes[i]) && Codes[i] & KnownMask == Codes[i]
    ensures forall c :: c in Codes <==> IsNamed(c)
    ensures forall c :: IsNamed(c) ==> c & 0xF800 == 0
    ensures ASICERROR == 1 << 16
  {
  }

  /** Neighbouring codes ascend. */
  lemma CodesAscend()
    ensures forall i :: 0 <= i < |Codes| - 1 ==> Codes[i] < Codes[i + 1]
  {
  }

  /** The twelve codes are pairwise distinct. */
  lemma CodesDistinct()
    ensures forall i, j :: 0 <= i < j < |Codes| ==> Codes[i] != Codes[j]
  {
  }

  /** The message for one code; every other value, combinations included, is unknown. */
  function GetErrorMessage(error: Code): (m: string)
    ensures |m| > 0 && m[|m| - 1] == '\n'
    ensures m == UnknownMessage <==> !IsNamed(error)
  {
    if error == FAILED then "Operation Failed \n"
    else if error == PARAM then "Bad Parameter \n"
    else if error == PARAMSET then "Bad Paramater Set \n"
    else if error == STATUS then "Incorrect Status \n"
    else if error == USB_INIT then "USB Not Initialized \n"
    else if error == USB_RECEIVE then "USB Data Not Recieved \n"
    else if error == USB_SEND then "USB Did Not Send the Data \n"
    else if error == NOT_IMPLEMENTED then "Function or Feature Not Implemented \n"
    else if error == CRC then "Internal CRC Error \n"
    else if error == FPGAERROR then "FPGA Error, Ask for Details From the Interface\n"
    else if error == SWINTERNAL then "Internal Error from the SWI Unit \n"
    else if error == ASICERROR then "Error Returned From the ASIC \n"
    else UnknownMessage
  }

  /** Distinct named codes have distinct messages. */
  lemma ErrorMessagesDistinct(a: Code, b: Code)
    requires IsNamed(a) && IsNamed(b) && a != b
    ensures GetErrorMessage(a) != GetErrorMessage(b)
  {
  }

  /**
   * The code of the exception thrown for the mask `error`, or None when the call
   * returns normally. The bits are tested in ascending order, so the lowest named
   * bit that is set wins.
   */
  function ThrowErrors(error: Code): (thrown: Option<Code>)
    ensures thrown.None? <==> error & KnownMask == 0
    ensures thrown.Some? ==> IsNamed(thrown.value) && error & thrown.value != 0
    ensures thrown.Some? ==> forall c :: IsNamed(c) && c < thrown.value ==> error & c == 0
  {
    if error & FAILED != 0 then Some(FAILED)
    else if error & PARAM != 0 then Some(PARAM)
    else if error & PARAMSET != 0 then Some(PARAMSET)
    else if error & STATUS != 0 then Some(STATUS)
    else if error & USB_INIT != 0 then Some(USB_INIT)
    else if error & USB_RECEIVE != 0 then Some(USB_RECEIVE)
    else if error & USB_SEND != 0 then Some(USB_SEND)
    else if error & NOT_IMPLEMENTED != 0 then Some(NOT_IMPLEMENTED)
    else if error & CRC != 0 then Some(CRC)
    else if error & FPGAERROR != 0 then Some(FPGAERROR)
    else if error & SWINTERNAL != 0 then Some(SWINTERNAL)
    else if error & ASICERROR != 0 then Some(ASICERROR)
    else None
  }

  /** Bits outside the named ones never change what is thrown. */
  lemma ThrowErrorsIgnoresUnnamedBits(error: Code)
    ensures ThrowErrors(error) == ThrowErrors(error & KnownMask)
  {
    var masked := error & KnownMask;
    assert masked & FAILED == error & FAILED;
    assert masked & PARAM == error & PARAM;
    assert masked & PARAMSET == error & PARAMSET;
    assert masked & STATUS == error & STATUS;
    assert masked & USB_INIT == error & USB_INIT;
    assert masked & USB_RECEIVE == error & USB_RECEIVE;
    assert masked & USB_SEND == error & USB_SEND;
    assert masked & NOT_IMPLEMENTED == error & NOT_IMPLEMENTED;
    assert masked & CRC == error & CRC;
    assert masked & FPGAERROR == error & FPGAERROR;
    assert masked & SWINTERNAL == error & SWINTERNAL;
    assert masked & ASICERROR == error & ASICERROR;
  }

  /** What is thrown is a single named bit, so its message is never the unknown one. */
  lemma ThrownCodeHasKnownMessage(error: Code)
    requires ThrowErrors(error).Some?
    ensures IsSingleBit(ThrowErrors(error).value)
    ensures GetErrorMessage(ThrowErrors(error).value) != UnknownMessage
  {
  }
}
