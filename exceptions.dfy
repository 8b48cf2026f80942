/**
 * The exception classes: each stores one field, set by its constructor after a
 * non-zero check, and `what()` reads the matching message table.
 */
module Exceptions {
  import DriverErrors
  import AsicErrors
  import FpgaErrors
  import opened Wrappers

  /** A driver code that is an error: zero is not. */
  type DriverFault = c: DriverErrors.Code | c != 0 witness 1

  /** An ASIC status byte that is an error: zero (`OK`) is not. */
  type AsicFault = c: AsicErrors.Code | c != 0 witness 1

  /** An FPGA code that is an error: the named codes, and any other non-zero value. */
  type FpgaFault = e: FpgaErrors.FpgaError | !(e.Unnamed? && e.value == 0) witness FpgaErrors.QSPI

  class ControllerException {
    const message: string

    constructor (message: string)
      ensures What() == message
    {
      this.message := message;
    }

    function What(): string {
      message
    }
  }

  class ASICException {
    const error: AsicFault

    constructor (error: AsicFault)
      ensures this.error == error && What() == AsicErrors.GetASICErrorMessage(error)
    {
      this.error := error;
    }

    /** The table's entry for the stored code, which is never the "no error" message. */
    function What(): (m: string)
      ensures m != AsicErrors.NoErrorMessage
      ensures m == AsicErrors.UnknownMessage <==> !AsicErrors.IsNamed(error)
    {
      AsicErrors.GetASICErrorMessage(error)
    }
  }

  class DriverException {
    const error: DriverFault

    constructor (error: DriverFault)
      ensures this.error == error && What() == DriverErrors.GetErrorMessage(error)
    {
      this.error := error;
    }

    /** The table's entry for the stored code: a line, unknown exactly for unnamed codes. */
    function What(): (m: string)
      ensures |m| > 0 && m[|m| - 1] == '\n'
      ensures m == DriverErrors.UnknownMessage <==> !DriverErrors.IsNamed(error)
    {
      DriverErrors.GetErrorMessage(error)
    }
  }

  class FPGAException {
    const error: FpgaFault

    constructor (error: FpgaFault)
      ensures this.error == error && What() == FpgaErrors.GetErrorMessage(error)
    {
      this.error := error;
    }

    /** The table's entry for the stored code: a line, unknown exactly for unnamed codes. */
    function What(): (m: string)
      ensures |m| > 0 && m[|m| - 1] == '\n'
      ensures m == FpgaErrors.UnknownMessage <==> error.Unnamed?
    {
      FpgaErrors.UnknownOnlyForUnnamed(error);
      FpgaErrors.GetErrorMessage(error)
    }
  }

  /**
   * `DriverError::ThrowErrors` with its exception: null when it returns normally, else
   * a new exception for the lowest named bit set, whose message is never unknown.
   */
  method RaiseDriverErrors(error: DriverErrors.Code) returns (thrown: DriverException?)
    ensures (thrown == null) <==> error & DriverErrors.KnownMask == 0
    ensures thrown != null ==> DriverErrors.ThrowErrors(error) == Some(thrown.error)
    ensures thrown != null ==> thrown.What() != DriverErrors.UnknownMessage
  {
    match DriverErrors.ThrowErrors(error)
    case None =>
      thrown := null;
    case Some(code) =>
      thrown := new DriverException(code);
  }
}
