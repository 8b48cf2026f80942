# SoundCath device-response and error-code layer, in Dafny

This project models the layer of SoundCath that sits between the vendor's ASIC
command DLL and the rest of the program. It covers six things:

- **Reply extraction.** `Driver::GetResult` takes the payload of a device reply.
  That is the text after the first `RESULT:`, else the text after the last colon,
  else the whole reply.
- **Output buffer.** The driver keeps a fixed 65535-character buffer that the DLL
  overwrites. `GetOutString` and `Recv()` read the NUL-terminated string in it.
- **Driver error codes.** The vendor DLL returns a 32-bit mask with one bit per kind
  of failure. `ThrowErrors` turns the mask into at most one `DriverException`,
  carrying the lowest named bit that is set. `GetErrorMessage` is the message table.
- **ASIC status byte.** The `ASICError` flags and `GetASICErrorMessage`.
- **FPGA status.** The FPGA's message table, and the decoding of the eight
  hexadecimal digits that end its status reply. The decoding goes through
  `std::stoi(…, 0, 16)`.
- **Exception classes.** `ControllerException`, `ASICException`,
  `DriverException` and `FPGAException`. Each stores one field and takes its
  `what()` text from the tables above.

Modules, one per file:

- `Wrappers` (wrappers.dfy): `Option` and `Result`.
- `DriverErrors` (driver_errors.dfy): the driver's error codes.
- `DriverReply` (driver_reply.dfy): `find`, `find_last_of` and `GetResult` on strings.
- `DriverBuffer` (driver_buffer.dfy): class `Driver`. Its `outbuffer` is an `array<char>`.
- `AsicErrors` (asic_errors.dfy): the ASIC status byte.
- `FpgaErrors` (fpga_errors.dfy): the FPGA message table and the status parse.
- `Exceptions` (exceptions.dfy): the four exception classes.

The driver's codes are `bv32` and the ASIC's are `bv8`, so bit tests are written
as in the source. A thrown exception is modelled as a value: `ThrowErrors`
returns the code of the exception it would throw, and the status parse returns
`Err` with the C++ exception it would raise.

include/Controller.hpp:50-102 declares TX and RX Taylor-compression controllers
(`CompressTaylor`, `CompressTaylorDyn`), and test/Controller/Test.hpp:28-58 names tests
for them, but no bodies exist, so this model does not cover them.

The code has some inconsistencies:

- `ThrowErrors` and `GetErrorMessage` are declared as `Driver` members but defined
  under `DriverError`.
- Bit 9 is called `FPGAERROR` in include/Driver.hpp and `FPGA` in
  include/Interface.hpp.
- `ASICException::what()` (src/Exception.cpp:45) calls `ASICError::GetErrorMessage`,
  which no source file defines. include/ASIC.hpp defines the free function
  `GetASICErrorMessage` for the same codes, and the model uses that.
- include/FPGA.hpp:28-32 declares `enum FPGAError : uint8_t` with no enumerators,
  while src/FPGA.cpp names eleven of them.

The model follows the bodies in src/Driver.cpp, with the bit values of
include/Driver.hpp:105-120. The `FPGAError` enumerators have no values in the source
(include/FPGA.hpp:28-32), so they are eleven abstract constructors plus
`Unnamed(value)` over the enumeration's 8-bit range, which stands for every other
value. Nothing in the type stops `Unnamed(v)` from being the value one of the named
codes has; treating the two as different is a convention of the model. Each named FPGA message is
written as "FPGA" followed by its `Detail` text; joined, they are the source's strings.

## Model

| member | source | states |
|---|---|---|
| `DriverErrors.CodesAreNamedBits` | include/Driver.hpp:105-120 | There are twelve codes, each a single bit inside the named mask. A value is one of them exactly when it is named. Bits 11-15 name no code, and `ASICERROR` is bit 16. |
| `DriverErrors.CodesAscend` | include/Driver.hpp:105-120 | In declaration order, each code is smaller than the next. |
| `DriverErrors.CodesDistinct` | include/Driver.hpp:105-120 | The twelve codes are pairwise different. |
| `DriverErrors.GetErrorMessage` | src/Driver.cpp:81-113 | Every message ends in a newline. A value gets "Unknown Error Occured \n" exactly when it is not one of the twelve single-bit codes, so combinations of bits get it too. |
| `DriverErrors.ErrorMessagesDistinct` | src/Driver.cpp:83-111 | Two different named codes have different messages. |
| `DriverErrors.ThrowErrors` | src/Driver.cpp:115-130 | Nothing is thrown exactly when no named bit is set. Otherwise the thrown code is a named code whose bit is set, and no smaller named code's bit is set. So the checks run in ascending bit order. |
| `DriverErrors.ThrowErrorsIgnoresUnnamedBits` | src/Driver.cpp:117-128 | Clearing every bit outside the twelve named ones does not change what is thrown. |
| `DriverErrors.ThrownCodeHasKnownMessage` | src/Driver.cpp:117-128 | A thrown code is a single bit, and its message is never the unknown one. |
| `DriverReply.Find` | src/Driver.cpp:150 | `find`: when a position is returned, the pattern occurs there and at no earlier position at or after the start. When none is returned, it occurs nowhere at or after the start. |
| `DriverReply.FindLastOf` | src/Driver.cpp:153 | `find_last_of`: when a position is returned, it holds the character and no later position does. When none is returned, the character is absent. |
| `DriverReply.GetResult` | src/Driver.cpp:146-161 | The payload is always a suffix of the reply, so it is never longer than the reply. |
| `DriverReply.GetResultAfterFirstFlag` | src/Driver.cpp:149-159 | If `RESULT:` occurs at `i` and not before, the payload is exactly the text after that occurrence. |
| `DriverReply.GetResultAfterLastColon` | src/Driver.cpp:152-156 | If `RESULT:` never occurs, the payload is the text after the last colon, and it contains no colon. |
| `DriverReply.GetResultWithoutColon` | src/Driver.cpp:153-155 | A reply with no colon is returned unchanged. |
| `DriverBuffer.CString` | include/Driver.hpp:100 | Reading a buffer that holds a NUL gives the characters before the first NUL. The result has no NUL, is shorter than the buffer, and the buffer has a NUL right after it. |
| `DriverBuffer.CStringUpTo` | include/Driver.hpp:100 | If the first NUL is at index `n`, the string read is the first `n` characters. |
| `DriverBuffer.StoredReplyReadsBack` | src/Driver.cpp:46 | A NUL-free reply followed by a NUL reads back as itself, whatever follows it in the buffer. |
| `DriverBuffer.Driver.constructor` | include/Driver.hpp:137 | A new driver has a fresh 65535-character buffer that holds the empty reply. |
| `DriverBuffer.Driver.Store` | src/Driver.cpp:46 | Stands for the DLL's write into `outbuffer`. After it, the buffer reads back the reply, and the characters after the terminating NUL are unchanged. |
| `DriverBuffer.Driver.GetOutString` | include/Driver.hpp:100 | Returns the buffer's characters up to, but not including, the first NUL. The result has no NUL and is shorter than 65535. The method does not modify the buffer. |
| `DriverBuffer.Driver.Recv` | include/Driver.hpp:86 | Returns exactly what `GetOutString` returns, and does not modify the buffer. |
| `DriverBuffer.Driver.GetResult` | src/Driver.cpp:146-161 | Returns the payload of the string the buffer holds. It is a suffix of that string, and the buffer is not modified. |
| `AsicErrors.NamedCodesAreFlags` | include/ASIC.hpp:30-40 | Every named value is 0 or a single bit of the byte. The values are distinct, and bits 4 and 5 name nothing. |
| `AsicErrors.GetASICErrorMessage` | include/ASIC.hpp:48-70 | Total over the byte. The result is "No Error Occurred" exactly for `OK`, and "Unknown Error Detected" exactly for values that are not named. |
| `AsicErrors.AsicMessagesDistinct` | include/ASIC.hpp:50-65 | Two different named values have different messages. |
| `AsicErrors.CombinedFlagsAreUnknown` | include/ASIC.hpp:66-67 | Two or more flags together, or flag 4 or 5, give "Unknown Error Detected". |
| `FpgaErrors.GetErrorMessage` | src/FPGA.cpp:20-51 | Total. Every message ends in a newline, and every named code's message starts with "FPGA". |
| `FpgaErrors.UnknownOnlyForUnnamed` | src/FPGA.cpp:47-48 | "Unknown FPGA Error\n" is returned exactly for the values that are not named. |
| `FpgaErrors.FpgaMessagesDistinct` | src/FPGA.cpp:24-45 | The eleven named codes have pairwise different messages. |
| `FpgaErrors.HexValueOfDigits` | src/FPGA.cpp:58-62 | Writing a value with `n` hexadecimal digits and reading them back in base 16 gives the value, whenever it fits in `n` digits. |
| `FpgaErrors.StoiHex` | src/FPGA.cpp:62 | `std::stoi(s, 0, 16)`: a value it returns is within the range of `int`. |
| `FpgaErrors.ScanHexOfNumeral` | src/FPGA.cpp:62 | White space, an optional sign, a run of hexadecimal digits and any text that does not continue the run scan as that sign and the digits' base-16 value. |
| `FpgaErrors.ScanHexOfPrefixedNumeral` | src/FPGA.cpp:62 | The same with "0x" or "0X" before the digits: the prefix is skipped and the digits give the value. |
| `FpgaErrors.StoiHexOfNumeral` | src/FPGA.cpp:62 | `std::stoi` of such a numeral returns its signed value when that lies within `int`, and throws `std::out_of_range` otherwise. |
| `FpgaErrors.StoiHexWithoutDigits` | src/FPGA.cpp:62 | When no hexadecimal digit follows the white space and the optional sign, `std::stoi` throws `std::invalid_argument`. |
| `FpgaErrors.StatusField` | src/FPGA.cpp:60 | `substr(size() - 8)` fails exactly when the reply is shorter than 8 characters. Otherwise it gives the reply's last 8 characters. |
| `FpgaErrors.GetError` | src/FPGA.cpp:53-66 | A reply shorter than 8 characters is an out-of-range error, not a decoded code. |
| `FpgaErrors.GetErrorReadsOnlyLastEight` | src/FPGA.cpp:60 | Two replies that end in the same 8 characters decode alike, so everything before those characters is ignored. |
| `FpgaErrors.EightDigitsFit` | src/FPGA.cpp:60-62 | Any eight hexadecimal digits have a value below 2^32, so the field can carry every 32-bit code and nothing wider. |
| `FpgaErrors.ScanAllHex` | src/FPGA.cpp:62 | Eight hexadecimal digits scan as an unsigned (non-negative) number with their base-16 value. |
| `FpgaErrors.GetErrorOfHexSuffix` | src/FPGA.cpp:58-62 | When the last 8 characters are hexadecimal digits, the result is their base-16 value if that is at most 0x7FFFFFFF, and an out-of-range error otherwise. |
| `FpgaErrors.StatusRoundTrip` | src/FPGA.cpp:58-64 | A code sent as the eight-digit status field, after any prefix, decodes back to itself when it is below 2^31. Above that it is rejected. |
| `FpgaErrors.GetErrorRejectsBit31` | src/FPGA.cpp:62 | The reply "FPGA Error Status: 80000000" is rejected with out-of-range instead of decoding to 0x80000000. |
| `FpgaErrors.GetErrorCorrected` | src/FPGA.cpp:53-66 | The intended parse, with an unsigned 32-bit result. A reply shorter than 8 characters is still an error. |
| `FpgaErrors.GetErrorCorrectedOfHexSuffix` | src/FPGA.cpp:58-62 | Under the intended parse, a reply ending in eight hexadecimal digits decodes to their base-16 value, with no range failure. |
| `FpgaErrors.CorrectedStatusRoundTrip` | src/FPGA.cpp:58-64 | Under the intended parse, every 32-bit code sent as the eight-digit field decodes back to itself. |
| `Exceptions.ControllerException.constructor` | src/Exception.cpp:18-30 | `what()` returns exactly the message the exception was built with. |
| `Exceptions.ASICException.constructor` | src/Exception.cpp:35-41 | Accepts only a non-zero code and stores it. `what()` is then the table's entry for that code. |
| `Exceptions.ASICException.What` | src/Exception.cpp:43-47 | `what()` is never "No Error Occurred". It is "Unknown Error Detected" exactly when the stored code is not named. |
| `Exceptions.DriverException.constructor` | src/Exception.cpp:51-57 | Accepts only a non-zero code and stores it. `what()` is then `GetErrorMessage` of that code. |
| `Exceptions.DriverException.What` | src/Exception.cpp:59-63 | `what()` ends in a newline. It is the unknown message exactly when the stored code is not a named bit. |
| `Exceptions.FPGAException.constructor` | src/Exception.cpp:67-73 | Accepts only a non-zero code and stores it. `what()` is then the FPGA table's entry for that code. |
| `Exceptions.FPGAException.What` | src/Exception.cpp:75-79 | `what()` ends in a newline. It is "Unknown FPGA Error\n" exactly when the stored code is not named. |
| `Exceptions.RaiseDriverErrors` | src/Driver.cpp:115-130 | Throws nothing exactly when no named bit is set. Otherwise it returns a `DriverException` for the code `ThrowErrors` picks, and that exception's `what()` is never "Unknown Error Occured \n". |

## Findings

| source | as written | input that shows it | evidently intended | confidence | as-written member | corrected member |
|---|---|---|---|---|---|---|
| src/FPGA.cpp:62 | The eight-digit status field is converted with `std::stoi`, whose result is a signed `int`. Any field of 0x80000000 or more makes it throw `std::out_of_range`. | the reply "FPGA Error Status: 80000000" | Decode all eight digits as the `uint32_t` that `code` is declared as, as `std::stoul` would. | medium, not executed | `FpgaErrors.GetErrorRejectsBit31` | `FpgaErrors.CorrectedStatusRoundTrip` |

## Left out

- The beamforming engine is left out because only its declarations exist (include/Controller.hpp:50-102). That covers delay fields, TX/RX Taylor compression, dynamic receive and the scan cache.
- The DLL plumbing is left out: `Driver::Driver`, `~Driver`, `Send`, `Query` and `Recv(std::string&)`. These load the library, call the foreign `asic_call_parse`, log, and `exit(1)` on failure. The DLL's write into the buffer is the method `Store`, and a reply is a parameter.
- The `Interface` class (include/Interface.hpp, src/Interface.cpp) is left out. It duplicates the DLL plumbing and does not compile.
- The FPGA constructor, src/UltraSound.cpp, the ASIC class methods, the configuration records, the point classes, the GUI, the renderer and `main` are left out. They are device I/O, declarations without bodies, or data with no behaviour.
- Exceptions are values here. Unwinding and the `catch` sites are not modelled.
- C++ `char` is Dafny `char`, with no encoding. White space for `std::stoi` is that of the C locale.
- `DriverBuffer.Driver.constructor` does not model the DLL loading. In the source, the initial content of `outbuffer` is indeterminate; the model starts it with all NUL characters.
- `DriverBuffer.Driver.Store` requires a NUL-free reply shorter than the buffer. What the DLL writes for a longer reply, or after the NUL, is unknown.
- `DriverBuffer.Driver.GetOutString` requires a NUL somewhere in the buffer. Without one, the source reads past the end of the array.
- `FpgaErrors.GetError` returns the decoded `uint32_t`. It does not model the cast to `FPGAError::Code` (src/FPGA.cpp:64), which keeps the low 8 bits, because the enumerators have no values. For the same reason no code maps to a named `FpgaError`.
- `Exceptions.ControllerException.constructor` does not model the check that the `const char*` is non-null. A Dafny string cannot be null, and the lifetime of the pointed-to text is not modelled either.
- `Exceptions.FPGAException.constructor` takes the eleven named codes to be non-zero, because their values are not given. Only an `Unnamed` zero is excluded.
