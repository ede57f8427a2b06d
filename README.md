# Waveshare fingerprint sensor driver: protocol model

This project models the protocol layer of a driver for a Waveshare UART
fingerprint sensor. The driver exists twice: in Rust (`src/main.rs`) and as a
Python port (`python-implementation/main.py`). The model covers both.

- **Protocol** (`protocol.dfy`) holds the frame codec both versions share:
  - the constants
  - `checksum` and `build_command`, which build the 8-byte command frame
    `[0xF5, cmd, p1, p2, p3, 0, chk, 0xF5]`
  - `parse_ack`, which checks a response's framing and reads byte 4 against
    the acknowledgment table
  - the big-endian split and join of a 16-bit user id.

  Bytes are `bv8`; the Rust `u16` is `bv16`.
- **SerialLink** (`serial_link.dfy`) is the serial port, as a class `Port`
  with two fields:
  - `script`: the sensor's replies, fixed in advance, one per exchange. A
    reply is either the bytes that arrive before the read timeout (possibly
    none) or a port failure. Once the script is used up, the sensor is silent.
  - `written`: a log of every frame written.
- **Reports** (`reports.dfy`) holds what an operation prints, as a datatype
  rather than text.
- **RustDriver** (`rust_driver.dfy`) holds the Rust session operations.
  - `send_command` writes the frame and then reads exactly 8 bytes. A port
    failure or a short read is an `Err`.
  - Every operation catches that error and reports it.
  - `enroll` always runs its three steps.
- **PyDriver** (`py_driver.dfy`) holds the Python port.
  - Arguments are unbounded Python integers.
  - `bytearray` raises `ValueError` for an element outside 0..255.
  - `ser.read(8)` may return fewer bytes.
  - Nothing is caught, so an exception ends the operation. Most importantly,
    a `SerialException` ends `enroll` in the middle of its steps.
  - The model proves that the Python version builds the Rust frames for the
    user id reduced modulo 65536. It also proves that the Python version
    decodes 8-byte responses exactly as the Rust version does.

The checksum is the XOR of bytes 1 to 5 of the frame, taken while byte 5 is
still zero, and it is stored at index 6; byte 5 stays zero. Both
implementations lay the frame out this way, and so does the model.

Neither version's `verify_1n` checks the framing sentinels before reading bytes
2 to 4. A frame that `parse_ack` rejects is still reported as a match
(`RustDriver.Verify1NAcceptsMalformedFrame`). The model reproduces this.

## Model

| member | source | states |
|---|---|---|
| Protocol.Checksum | src/main.rs:19-21 | the XOR of bytes 1 to 5; on a packet whose byte 5 is zero, the XOR of bytes 1 to 4 |
| Protocol.BuildCommand | src/main.rs:19-27 | the frame has 8 bytes, 0xF5 at 0 and 7, cmd, p1, p2, p3 at 1..4, zero at 5, and cmd ^ p1 ^ p2 ^ p3 at 6 |
| Protocol.ChecksumOfBuiltFrame | src/main.rs:19-25 | recomputing the checksum over bytes 1..5 of a finished frame gives back byte 6, because writing byte 6 does not touch bytes 1..5 |
| Protocol.Classify | src/main.rs:41-50 | byte 4 of a well-framed response is never Malformed; the code of the acknowledgment is the byte itself; Unknown exactly for bytes outside the seven-entry table |
| Protocol.ClassifyAckCode | src/main.rs:41-50 | classification inverts the encoding: every acknowledgment other than Malformed is read back from its code |
| Protocol.ParseAck | src/main.rs:37-51 | Malformed exactly when the length is not 8 or byte 0 or byte 7 is not 0xF5; otherwise the acknowledgment whose code is byte 4, Unknown exactly when byte 4 is not in the table |
| Protocol.BuiltFrameIsWellFramed | src/main.rs:23-40 | every frame the encoder builds passes the decoder's framing check, and its byte 4 is classified |
| Protocol.ParseAckReadsOnlyFraming | src/main.rs:37-51 | two buffers of equal length that agree on bytes 0, 4 and 7 decode alike, whatever their bytes 1..3, 5 and 6 (checksum included) hold |
| Protocol.ShortBufferScenario | src/main.rs:38-40 | a 6-byte buffer decodes as Malformed |
| Protocol.SplitId | src/main.rs:62 | joining the high and low byte of a user id gives back the id |
| Protocol.JoinId | src/main.rs:84 | the value of the high byte shifted left by 8 and or-ed with the low byte is h * 256 + l |
| Protocol.ShiftOrIsSum | src/main.rs:84 | shifting the high byte up by 8 and or-ing in the low byte is a carry-free sum |
| Protocol.SumAsInt | src/main.rs:120 | that sum does not overflow 16 bits |
| Protocol.JoinSplit | src/main.rs:84 | splitting a joined id gives back both bytes, so split and join are inverse bijections |
| Protocol.UserIdScenario | src/main.rs:62 | 0x0ABC splits into 0x0A, 0xBC and is rebuilt from them; 0x0000 and 0xFFFF split into equal bytes |
| SerialLink.Port.Write | src/main.rs:31 | writing appends the frame to the log and consumes no reply |
| SerialLink.Port.Receive | src/main.rs:33 | reading takes the next scripted reply, or silence once the script is used up |
| RustDriver.ReadExact | src/main.rs:32-34 | `read_exact` of n bytes succeeds exactly when the reply holds at least n bytes, and returns the first n |
| RustDriver.SendCommand | src/main.rs:29-35 | one exchange: the built frame is logged, one reply is consumed, and the result is `read_exact` of 8 bytes of that reply |
| RustDriver.StepReport | src/main.rs:67-70 | an I/O error exactly on a port failure or fewer than 8 bytes; otherwise `parse_ack` of the first 8 bytes; the same two arms are repeated in `verify_1_1`, `delete_user` and `delete_all_users` (src/main.rs lines 96-97, 104-105 and 111-112) |
| RustDriver.UserCommand | src/main.rs:93-95 | a well-framed frame with the command at 1, the id's big-endian bytes at 2..3 (they rejoin to the id), p3 at 4, zero at 5 and the XOR of bytes 1..4 at 6 |
| RustDriver.EnrollFrames | src/main.rs:61-67 | three well-framed frames carrying commands 0x01, 0x02 and 0x03 in order, each with the user id and the permission, zero at 5 and the XOR of bytes 1..4 at 6 |
| RustDriver.Enroll | src/main.rs:61-73 | all three frames are written in order and three replies consumed; report k is the report of reply k, so an error or a Fail does not stop the loop |
| RustDriver.EnrollStepTwoFails | src/main.rs:65-72 | with replies Success, Fail, Success, all three frames go out and the reports are Success, Fail, Success |
| RustDriver.Verify1NReport | src/main.rs:78-87 | no match exactly when byte 4 is 0x05, timeout exactly when it is 0x08, and otherwise a match with uid = byte 2 * 256 + byte 3 and permission = byte 4 |
| RustDriver.Verify1N | src/main.rs:75-90 | sends 0x0C with zero parameters and reports the 1:N reading of the response, or the I/O error |
| RustDriver.Verify1NReadsOnlyPayload | src/main.rs:78-86 | responses that agree on bytes 2..4 yield the same 1:N report, whatever their sentinels and checksum |
| RustDriver.Verify1NAcceptsMalformedFrame | src/main.rs:77-86 | a frame with a bad start byte, which `parse_ack` rejects, is still reported as a match |
| RustDriver.Verify1NMatchScenario | src/main.rs:79-85 | a well-framed response carrying user 0x002A and byte 4 = 0x00 is a match for user 42, whatever its checksum at byte 6 |
| RustDriver.Verify1NNoUserScenario | src/main.rs:79-80 | byte 4 = 0x05 is no match, not an error, whatever the checksum at byte 6 |
| RustDriver.Verify11 | src/main.rs:92-99 | sends 0x0B with the id's bytes and 0, and reports the acknowledgment or the I/O error |
| RustDriver.DeleteUser | src/main.rs:101-107 | sends 0x04 with the id's bytes and 0, and reports the acknowledgment or the I/O error |
| RustDriver.DeleteAllUsers | src/main.rs:109-114 | sends 0x05 with zero parameters, and reports the acknowledgment or the I/O error |
| RustDriver.UserCountReport | src/main.rs:118-125 | a count exactly when byte 4 is Success, equal to byte 2 * 256 + byte 3; otherwise the decoded acknowledgment, which is then not Success |
| RustDriver.UserCountScenario | src/main.rs:119-121 | bytes 2..3 = 0x00, 0x0A under Success report 10 users, whatever the checksum at byte 6 |
| RustDriver.QueryUserCount | src/main.rs:116-128 | sends 0x09 with zero parameters and reports the count reading of the response, or the I/O error |
| RustDriver.PermissionReport | src/main.rs:133-139 | the permission exactly when byte 4 is not 0x05, equal to byte 4 and for the queried id; otherwise No User, or Malformed when the sentinels are wrong |
| RustDriver.QueryPermission | src/main.rs:130-142 | sends 0x0A with the id's bytes and 0 and reports the permission reading, or the I/O error |
| RustDriver.ShortReplyIsIoError | src/main.rs:33 | a 6-byte reply fails `read_exact` and is reported as an I/O error |
| PyDriver.ToByte | python-implementation/main.py:25 | the byte stored for an integer in 0..255 has that integer as its value |
| PyDriver.CastKeepsValue | python-implementation/main.py:25 | converting an integer in 0..255 to a byte keeps its value |
| PyDriver.BuildCommand | python-implementation/main.py:19-25 | returns exactly when all four arguments are in 0..255, and then returns the Rust frame of those bytes; otherwise raises ValueError; omitted parameters are 0 |
| PyDriver.Read | python-implementation/main.py:30 | `ser.read(n)` raises SerialException exactly on a port failure, and otherwise returns a prefix of the reply of length min(n, available) |
| PyDriver.SendCommand | python-implementation/main.py:27-30 | a frame that raises is never written and consumes no reply; otherwise the frame is logged, one reply consumed and the read returned |
| PyDriver.AckTableIsClassify | python-implementation/main.py:37-45 | the dictionary's keys are exactly the seven known codes, and each maps to the acknowledgment the Rust `match` gives |
| PyDriver.ParseAck | python-implementation/main.py:32-45 | the dictionary-based decoder, with `resp[-1]` as the end byte, agrees with the Rust decoder on every buffer |
| PyDriver.SplitId | python-implementation/main.py:48-49 | both bytes of the split are in 0..255 for every integer, negatives included |
| PyDriver.SplitIdJoin | python-implementation/main.py:48-49 | the high byte times 256 plus the low byte equals the user id modulo 65536 |
| PyDriver.WireId | python-implementation/main.py:48-49 | the 16-bit id the Python frames carry has value user id modulo 65536 |
| PyDriver.SplitIdScenario | python-implementation/main.py:48-49 | 0x0ABC and 0x1_0ABC both split into 0x0A, 0xBC; -1 splits into 0xFF, 0xFF; 1 into 0x00, 0x01 |
| PyDriver.UserFrameAgrees | python-implementation/main.py:72-76 | a command with the split id and an in-range p3 builds the Rust user frame for the wire id |
| PyDriver.StepsBeforeFailure | python-implementation/main.py:51-54 | the number of exchanges made in order before the first port failure: at most the step count, none of the first n fails, and exchange n fails when n is short |
| PyDriver.StepsBeforeFailureIs | python-implementation/main.py:51-54 | that number is the unique i such that none of the first i exchanges fails and exchange i fails (or i is the step count) |
| PyDriver.PrintedLog | python-implementation/main.py:51-54 | the lines printed by the first n steps, one per step |
| PyDriver.PrintedLogAt | python-implementation/main.py:53-54 | line k of the log is `parse_ack` of what step k's read returned (`PrintedAck` of reply k) |
| PyDriver.Enroll | python-implementation/main.py:47-55 | an out-of-range permission raises ValueError before anything is written; otherwise the Rust frames for the wire id go out in order, up to and including the first step whose port fails, the returned steps are printed, and SerialException is raised exactly when a step failed; Fail does not stop the loop |
| PyDriver.EnrollPortFailsAtStepTwo | python-implementation/main.py:51-54 | with the port failing at step 2, one line is printed, two frames go out and SerialException ends the call |
| PyDriver.EnrollPermissionOutOfRange | python-implementation/main.py:25 | permission 256 raises ValueError, and nothing is written or printed |
| PyDriver.AckOutcome | python-implementation/main.py:76-77 | raises exactly the exception the read raised; otherwise prints `parse_ack` of the read, which is the Rust decoding |
| PyDriver.JoinBytes | python-implementation/main.py:68 | the shift-or of two bytes read as Python integers has the value of the Rust 16-bit join of the same bytes |
| PyDriver.Verify1NReport | python-implementation/main.py:60-70 | Invalid exactly for a read whose length is not 8; otherwise the Rust 1:N reading |
| PyDriver.Verify1N | python-implementation/main.py:57-70 | sends 0x0C with default parameters and reports the 1:N reading of the read, or raises the port's exception |
| PyDriver.Verify11 | python-implementation/main.py:72-77 | sends the Rust 1:1 frame for the wire id and prints `parse_ack` of the read |
| PyDriver.DeleteUser | python-implementation/main.py:79-83 | sends the Rust delete frame for the wire id and prints `parse_ack` of the read |
| PyDriver.DeleteAllUsers | python-implementation/main.py:85-87 | sends 0x05 with default parameters and prints `parse_ack` of the read |
| PyDriver.UserCountReport | python-implementation/main.py:91-95 | on an 8-byte read, the Rust count reading; on any other length, Malformed |
| PyDriver.UserCountScenario | python-implementation/main.py:91-93 | bytes 2..3 = 0x00, 0x0A under Success report 10 users, whatever the checksum at byte 6 |
| PyDriver.QueryUserCount | python-implementation/main.py:89-95 | sends 0x09 with default parameters and reports the count reading of the read |
| PyDriver.PermissionReport | python-implementation/main.py:101-104 | the permission (byte 4, for the caller's own integer id) exactly when the read has 8 bytes and byte 4 is not 0x05; otherwise the Rust reading for an 8-byte read and Malformed for any other length |
| PyDriver.QueryPermission | python-implementation/main.py:97-104 | sends the Rust query frame for the wire id and reports the permission reading of the read |
| PyDriver.ShortReadScenario | python-implementation/main.py:30-34 | a 6-byte read prints Malformed from `parse_ack` and from the count query, and is Invalid for 1:N verification |

## Left out

- `main`, its menu, `read_input` and `input()`, and the parsing of typed numbers with their fallbacks: these are interactive I/O outside the protocol layer. The model's operations take the parsed values as parameters.
- The per-step prompt inside both `enroll` loops is left out for the same reason: it waits for the operator and changes no state the model tracks.
- Opening the serial port, the device path, the baud rate and the timeout setting: the transport belongs to the `serialport` and `pyserial` libraries. The timeout shows up only in the model's replies, as a reply with fewer than 8 bytes.
- `std::thread::sleep` and `time.sleep`: these are timing only.
- The printed text and its emoji. Outcomes are the `Ack` and `Report` datatypes. The text of an I/O error is dropped: every Rust `io::Error` is the single `IoError`, and the timeout kind is not told apart from the rest.
- Write failures get no case of their own. `Port.Write` always succeeds, and a failed write shows up as a port failure in that exchange's reply. The model also consumes one reply when the write fails, where the real driver would not attempt the read.
- Bytes of a reply beyond the 8 that are read are discarded. On a real port bytes left in the receive buffer carry over to the next exchange.
- Python exceptions other than `ValueError` from `bytearray` and `SerialException` from the port are left out, for example a `TypeError` for a non-integer argument, or an interrupt.
- Protocol.Checksum: the index panic that Rust raises on a packet shorter than 6 bytes is a precondition in the model. The function is only ever applied to 8-byte drafts.
