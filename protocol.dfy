/**
 * The packet codec of the Waveshare fingerprint sensor protocol, as the Rust
 * driver (src/main.rs) implements it: commands and responses are fixed 8-byte
 * frames `[START, cmd, p1, p2, p3, 0, checksum, END]`.
 */
module Protocol {

  /** One wire byte (Rust `u8`). */
  type Byte = bv8

  /** A user id as the driver handles it (Rust `u16`). */
  type UserId = bv16

  const FRAME_LEN: nat := 8

  // Frame sentinels: two names for one value, as in src/main.rs.
  const CMD_START: Byte := 0xF5
  const CMD_END: Byte := 0xF5

  // Acknowledgment codes carried in byte 4 of a response.
  const ACK_SUCCESS: Byte := 0x00
  const ACK_FAIL: Byte := 0x01
  const ACK_FULL: Byte := 0x04
  const ACK_NOUSER: Byte := 0x05
  const ACK_USER_OCCUPIED: Byte := 0x06
  const ACK_FINGER_OCCUPIED: Byte := 0x07
  const ACK_TIMEOUT: Byte := 0x08

  // Command codes (literals at their call sites in src/main.rs).
  const CMD_ENROLL_1: Byte := 0x01
  const CMD_ENROLL_2: Byte := 0x02
  const CMD_ENROLL_3: Byte := 0x03
  const CMD_DELETE_USER: Byte := 0x04
  const CMD_DELETE_ALL: Byte := 0x05
  const CMD_USER_COUNT: Byte := 0x09
  const CMD_QUERY_PERMISSION: Byte := 0x0A
  const CMD_VERIFY_1_1: Byte := 0x0B
  const CMD_VERIFY_1_N: Byte := 0x0C

  /** The decoded acknowledgment; `Malformed` is a frame that failed the framing check. */
  datatype Ack =
    | Malformed
    | Success
    | Fail
    | Full
    | NoUser
    | UserOccupied
    | FingerOccupied
    | Timeout
    | Unknown(code: Byte)

  /** The seven codes of the acknowledgment table. */
  predicate IsKnownAck(b: Byte) {
    b == ACK_SUCCESS || b == ACK_FAIL || b == ACK_FULL || b == ACK_NOUSER
    || b == ACK_USER_OCCUPIED || b == ACK_FINGER_OCCUPIED || b == ACK_TIMEOUT
  }

  /** The byte the sensor puts in position 4 to report `a`: the encoding side of the table. */
  function AckCode(a: Ack): Byte
    requires !a.Malformed?
  {
    match a
    case Success => ACK_SUCCESS
    case Fail => ACK_FAIL
    case Full => ACK_FULL
    case NoUser => ACK_NOUSER
    case UserOccupied => ACK_USER_OCCUPIED
    case FingerOccupied => ACK_FINGER_OCCUPIED
    case Timeout => ACK_TIMEOUT
    case Unknown(b) => b
  }

  /** XOR of bytes 1 through 5 of a packet (indexing out of range panics in src/main.rs). */
  function Checksum(packet: seq<Byte>): (c: Byte)
    requires |packet| >= 6
    ensures c == packet[1] ^ packet[2] ^ packet[3] ^ packet[4] ^ packet[5]
    ensures packet[5] == 0 ==> c == packet[1] ^ packet[2] ^ packet[3] ^ packet[4]
  {
    packet[1] ^ packet[2] ^ packet[3] ^ packet[4] ^ packet[5]
  }

  /**
   * The command frame: a draft with bytes 5 and 6 zero, whose byte 6 is then
   * overwritten with the checksum of the draft. Byte 5 is still zero when the
   * checksum is taken, so it is the XOR of the command and its parameters.
   */
  function BuildCommand(cmd: Byte, p1: Byte, p2: Byte, p3: Byte): (packet: seq<Byte>)
    ensures |packet| == FRAME_LEN
    ensures packet[0] == CMD_START && packet[7] == CMD_END
    ensures packet[1] == cmd && packet[2] == p1 && packet[3] == p2 && packet[4] == p3
    ensures packet[5] == 0
    ensures packet[6] == cmd ^ p1 ^ p2 ^ p3
  {
    var draft := [CMD_START, cmd, p1, p2, p3, 0, 0, CMD_END];
    draft[6 := Checksum(draft)]
  }

  /** Writing byte 6 does not disturb bytes 1..5: recomputing the checksum on a finished frame gives back byte 6. */
  lemma ChecksumOfBuiltFrame(cmd: Byte, p1: Byte, p2: Byte, p3: Byte)
    ensures Checksum(BuildCommand(cmd, p1, p2, p3)) == BuildCommand(cmd, p1, p2, p3)[6]
  {
  }

  /** The acknowledgment table applied to byte 4 of a well-framed response. */
  function Classify(q3: Byte): (a: Ack)
    ensures !a.Malformed?
    ensures AckCode(a) == q3
    ensures a.Unknown? <==> !IsKnownAck(q3)
  {
    if q3 == ACK_SUCCESS then Success
    else if q3 == ACK_FAIL then Fail
    else if q3 == ACK_FULL then Full
    else if q3 == ACK_NOUSER then NoUser
    else if q3 == ACK_USER_OCCUPIED then UserOccupied
    else if q3 == ACK_FINGER_OCCUPIED then FingerOccupied
    else if q3 == ACK_TIMEOUT then Timeout
    else Unknown(q3)
  }

  /** Length 8 and both sentinels in place; the checksum plays no part. */
  predicate WellFramed(resp: seq<Byte>) {
    |resp| == FRAME_LEN && resp[0] == CMD_START && resp[FRAME_LEN - 1] == CMD_END
  }

  /**
   * Decodes a response. The length test comes first, so a short buffer is
   * never indexed; the checksum byte is never examined.
   */
  function ParseAck(resp: seq<Byte>): (a: Ack)
    ensures a.Malformed? <==> !WellFramed(resp)
    ensures WellFramed(resp) ==> AckCode(a) == resp[4]
    ensures WellFramed(resp) ==> (a.Unknown? <==> !IsKnownAck(resp[4]))
  {
    if |resp| != 8 || resp[0] != CMD_START || resp[7] != CMD_END then Malformed
    else Classify(resp[4])
  }

  /** Classification inverts the encoding: every acknowledgment but `Malformed` is read back from its code. */
  lemma ClassifyAckCode(a: Ack)
    requires !a.Malformed?
    requires a.Unknown? ==> !IsKnownAck(a.code)
    ensures Classify(AckCode(a)) == a
  {
  }

  /** A frame built by the encoder passes the decoder's framing check, and its byte 4 is classified. */
  lemma BuiltFrameIsWellFramed(cmd: Byte, p1: Byte, p2: Byte, p3: Byte)
    ensures WellFramed(BuildCommand(cmd, p1, p2, p3))
    ensures ParseAck(BuildCommand(cmd, p1, p2, p3)) == Classify(p3)
  {
  }

  /**
   * The decoder reads only the length, bytes 0 and 7 and byte 4: responses that
   * agree on those (and may differ in bytes 1-3, 5 and 6, the checksums
   * included) decode alike.
   */
  lemma ParseAckReadsOnlyFraming(r1: seq<Byte>, r2: seq<Byte>)
    requires |r1| == |r2|
    requires |r1| == FRAME_LEN ==> r1[0] == r2[0] && r1[4] == r2[4] && r1[7] == r2[7]
    ensures ParseAck(r1) == ParseAck(r2)
  {
  }

  /** Splits a user id into its high and low byte (`(u >> 8) as u8`, and the truncating cast `u as u8`). */
  function SplitId(u: UserId): (r: (Byte, Byte))
    ensures JoinId(r.0, r.1) == u
  {
    ((u >> 8) as Byte, (u & 0xFF) as Byte)
  }

  /** Rebuilds a 16-bit value from a big-endian byte pair (`(h as u16) << 8 | l as u16`). */
  function JoinId(h: Byte, l: Byte): (u: UserId)
    ensures u as int == h as int * 256 + l as int
  {
    ShiftOrIsSum(h, l);
    SumAsInt(h, l);
    ((h as bv16) << 8) | (l as bv16)
  }

  /** Shifting the high byte into place and or-ing in the low byte is a carry-free sum. */
  lemma ShiftOrIsSum(h: Byte, l: Byte)
    ensures ((h as bv16) << 8) | (l as bv16) == (h as bv16) * 256 + (l as bv16)
  {
  }

  /** That sum does not overflow 16 bits, so its integer value is the integer sum. */
  lemma SumAsInt(h: Byte, l: Byte)
    ensures ((h as bv16) * 256 + (l as bv16)) as int == h as int * 256 + l as int
  {
  }

  /** The other half of the user-id round trip: joining and then splitting gives back the bytes. */
  lemma JoinSplit(h: Byte, l: Byte)
    ensures SplitId(JoinId(h, l)) == (h, l)
  {
  }

  /** The user id 0x0ABC goes out as p1 = 0x0A, p2 = 0xBC and is read back from those bytes. */
  lemma UserIdScenario()
    ensures SplitId(0x0ABC) == (0x0A, 0xBC)
    ensures JoinId(0x0A, 0xBC) == 0x0ABC
    ensures SplitId(0x0000) == (0x00, 0x00) && SplitId(0xFFFF) == (0xFF, 0xFF)
  {
  }

  /** A six-byte buffer is malformed whatever its contents. */
  lemma ShortBufferScenario(b: seq<Byte>)
    requires |b| == 6
    ensures ParseAck(b) == Malformed
  {
  }
}
