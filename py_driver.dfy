/**
 * The Python port of the driver (python-implementation/main.py). It builds the
 * same frames as the Rust driver, but its arguments are Python integers, it
 * reads with `ser.read(8)`, which returns whatever arrived before the timeout,
 * and it catches no exception: one raised during an operation ends it.
 */
module PyDriver {
  import opened Protocol
  import opened SerialLink
  import opened Reports
  import RustDriver

  /** The exceptions that can escape an operation. */
  datatype Exc =
    | ValueError       // `bytearray` given a value outside 0..255
    | SerialException  // the port failed

  /** How a Python call ends: it returns a value or raises. */
  datatype PyResult<T> = Returned(value: T) | Raised(exc: Exc)

  predicate IsByte(x: int) {
    0 <= x < 256
  }

  /** The byte `bytearray` stores for an integer in range. */
  function ToByte(x: int): (b: Byte)
    requires IsByte(x)
    ensures b as int == x
  {
    CastKeepsValue(x);
    x as Byte
  }

  /** Converting an integer in 0..255 to a byte keeps its value. */
  lemma CastKeepsValue(x: int)
    requires IsByte(x)
    ensures (x as Byte) as int == x
  {
    var c := ByteOfValue(x);
    ByteRoundTrip(c);
  }

  /**
   * Every integer in 0..255 is the value of some byte, found by counting up
   * from zero. The value of the conversion then follows from the converse
   * fact about that byte, which the solver finds more reliably than the
   * conversion on its own.
   */
  lemma {:induction false} ByteOfValue(x: int) returns (c: Byte)
    requires IsByte(x)
    ensures c as int == x
  {
    if x == 0 {
      c := 0;
    } else {
      var d := ByteOfValue(x - 1);
      IncAsInt(d);
      c := d + 1;
    }
  }

  /** Adding one to a byte below 255 does not wrap. */
  lemma IncAsInt(c: Byte)
    requires c as int < 255
    ensures (c + 1) as int == c as int + 1
  {
  }

  /** A byte read as an integer and converted back is unchanged. */
  lemma ByteRoundTrip(b: Byte)
    ensures (b as int) as Byte == b
  {
  }

  /** A byte is determined by its value. */
  lemma ByteValueInjective(a: Byte, b: Byte)
    requires a as int == b as int
    ensures a == b
  {
  }

  /**
   * `build_command`: the frame list holds Python integers, and `bytearray`
   * raises ValueError unless every one of them is in 0..255. The checksum of
   * in-range values is itself in range, so only the arguments can fail.
   */
  function BuildCommand(cmd: int, p1: int := 0, p2: int := 0, p3: int := 0): (r: PyResult<seq<Byte>>)
    ensures r.Returned? <==> IsByte(cmd) && IsByte(p1) && IsByte(p2) && IsByte(p3)
    ensures r.Raised? ==> r.exc == ValueError
    ensures r.Returned? ==> r.value == Protocol.BuildCommand(ToByte(cmd), ToByte(p1), ToByte(p2), ToByte(p3))
  {
    if IsByte(cmd) && IsByte(p1) && IsByte(p2) && IsByte(p3) then
      var pkt := [CMD_START, ToByte(cmd), ToByte(p1), ToByte(p2), ToByte(p3), 0, 0, CMD_END];
      Returned(pkt[6 := Checksum(pkt)])
    else
      Raised(ValueError)
  }

  /** `ser.read(n)`: at most `n` bytes, fewer (possibly none) when the timeout expires first; a port failure raises. */
  function Read(reply: Reply, n: nat): (r: PyResult<seq<Byte>>)
    ensures r.Raised? <==> reply.PortError?
    ensures r.Raised? ==> r.exc == SerialException
    ensures r.Returned? ==> r.value <= reply.data
    ensures r.Returned? ==> |r.value| == if |reply.data| < n then |reply.data| else n
  {
    match reply
    case PortError => Raised(SerialException)
    case Bytes(data) => Returned(if |data| < n then data else data[..n])
  }

  /**
   * `send_command`: builds the frame (raising before anything is written when
   * an argument is out of range), writes it and reads up to 8 bytes.
   */
  method SendCommand(port: Port, cmd: int, p1: int := 0, p2: int := 0, p3: int := 0) returns (r: PyResult<seq<Byte>>)
    modifies port
    ensures BuildCommand(cmd, p1, p2, p3).Raised? ==>
              r == Raised(ValueError) && port.written == old(port.written) && port.script == old(port.script)
    ensures BuildCommand(cmd, p1, p2, p3).Returned? ==>
              port.written == old(port.written) + [BuildCommand(cmd, p1, p2, p3).value]
              && port.script == After(old(port.script), 1)
              && r == Read(ReplyAt(old(port.script), 0), FRAME_LEN)
  {
    var pkt := BuildCommand(cmd, p1, p2, p3);
    if pkt.Raised? {
      return Raised(pkt.exc);
    }
    port.Write(pkt.value);
    var reply := port.Receive();
    r := Read(reply, FRAME_LEN);
  }

  /** The dictionary `parse_ack` looks byte 4 up in; its keys are Python integers. */
  const ACK_TABLE: map<int, Ack> :=
    map[ACK_SUCCESS as int := Success, ACK_FAIL as int := Fail, ACK_FULL as int := Full,
        ACK_NOUSER as int := NoUser, ACK_USER_OCCUPIED as int := UserOccupied,
        ACK_FINGER_OCCUPIED as int := FingerOccupied, ACK_TIMEOUT as int := Timeout]

  /** The dictionary and the Rust `match` agree on every byte: same keys, same acknowledgments. */
  lemma AckTableIsClassify(q3: Byte)
    ensures q3 as int in ACK_TABLE <==> IsKnownAck(q3)
    ensures q3 as int in ACK_TABLE ==> ACK_TABLE[q3 as int] == Classify(q3)
  {
  }

  /**
   * `parse_ack`: the framing test (the last byte is `resp[-1]`, reached only
   * once the length is known to be 8), then a dictionary lookup with the
   * unknown-code text as the default. It decodes exactly as the Rust driver.
   */
  function ParseAck(resp: seq<Byte>): (a: Ack)
    ensures a == Protocol.ParseAck(resp)
  {
    if |resp| != 8 || resp[0] != CMD_START || resp[|resp| - 1] != CMD_END then Malformed
    else
      var q3 := resp[4];
      AckTableIsClassify(q3);
      if q3 as int in ACK_TABLE then ACK_TABLE[q3 as int] else Unknown(q3)
  }

  /**
   * `(u >> 8) & 0xFF` and `u & 0xFF` on a Python integer of either sign.
   * Python's shift and mask floor, and so do Dafny's `/` and `%` by a
   * positive divisor.
   */
  function SplitId(u: int): (r: (int, int))
    ensures IsByte(r.0) && IsByte(r.1)
  {
    ((u / 256) % 256, u % 256)
  }

  /** The two bytes of the split are the big-endian bytes of `u` reduced modulo 65536. */
  lemma SplitIdJoin(u: int)
    ensures SplitId(u).0 * 256 + SplitId(u).1 == u % 65536
  {
    var q, l := u / 256, u % 256;
    var k, h := q / 256, q % 256;
    assert u == 65536 * k + (256 * h + l);
    assert 0 <= 256 * h + l < 65536;
  }

  /** The 16-bit id that goes on the wire for a Python user id. */
  function WireId(u: int): (w: UserId)
    ensures w as int == u % 65536
  {
    var (h, l) := SplitId(u);
    SplitIdJoin(u);
    JoinId(ToByte(h), ToByte(l))
  }

  /** `(hi << 8) | lo` on two bytes read as Python integers; the low byte fills the bits the shift cleared. */
  function JoinBytes(hi: Byte, lo: Byte): (r: int)
    ensures r == JoinId(hi, lo) as int
  {
    hi as int * 256 + lo as int
  }

  /** The line printed for a response passed to `parse_ack`, or the exception that ended the call. */
  function AckOutcome(r: PyResult<seq<Byte>>): (out: PyResult<Report>)
    ensures out.Raised? <==> r.Raised?
    ensures r.Raised? ==> out.exc == r.exc
    ensures r.Returned? ==> out.value == Status(ParseAck(r.value)) && out.value == Status(Protocol.ParseAck(r.value))
  {
    match r
    case Returned(res) => Returned(Status(ParseAck(res)))
    case Raised(e) => Raised(e)
  }

  /** None of the first `n` exchanges hit a port failure. */
  predicate NoFailureBefore(script: seq<Reply>, n: nat) {
    forall k :: 0 <= k < n ==> !ReplyAt(script, k).PortError?
  }

  lemma NoFailureStep(script: seq<Reply>, n: nat)
    requires NoFailureBefore(script, n) && !ReplyAt(script, n).PortError?
    ensures NoFailureBefore(script, n + 1)
  {
  }

  /**
   * How many of `steps` exchanges, made in order, complete before the first
   * port failure (all of them when there is none).
   */
  function StepsBeforeFailure(script: seq<Reply>, steps: nat): (n: nat)
    ensures n <= steps
    ensures NoFailureBefore(script, n)
    ensures n < steps ==> ReplyAt(script, n).PortError?
    decreases steps
  {
    if steps == 0 || ReplyAt(script, 0).PortError? then 0
    else
      var rest := After(script, 1);
      var m := StepsBeforeFailure(rest, steps - 1);
      forall k | 1 <= k <= m ensures ReplyAt(script, k) == ReplyAt(rest, k - 1) {
        ReplyAtAfter(script, 1, k - 1);
      }
      1 + m
  }

  /** The count is determined by where the first failure is. */
  lemma StepsBeforeFailureIs(script: seq<Reply>, steps: nat, i: nat)
    requires i <= steps
    requires NoFailureBefore(script, i)
    requires i < steps ==> ReplyAt(script, i).PortError?
    ensures StepsBeforeFailure(script, steps) == i
  {
  }

  /** The line `enroll` prints for a reply that did not raise: `parse_ack` of what `ser.read(8)` returned. */
  function PrintedAck(reply: Reply): Report
    requires !reply.PortError?
  {
    Status(ParseAck(Read(reply, FRAME_LEN).value))
  }

  /** A frame addressed to a user is the frame the Rust driver builds for the wire id. */
  lemma UserFrameAgrees(cmd: Byte, userId: int, p3: int)
    requires IsByte(p3)
    ensures BuildCommand(cmd as int, SplitId(userId).0, SplitId(userId).1, p3)
            == Returned(RustDriver.UserCommand(cmd, WireId(userId), ToByte(p3)))
  {
    var (h, l) := SplitId(userId);
    JoinSplit(ToByte(h), ToByte(l));
    ByteValueInjective(ToByte(cmd as int), cmd);
  }

  /** The lines `enroll` prints for its first `n` steps, none of which raised. */
  function PrintedLog(script: seq<Reply>, n: nat): (log: seq<Report>)
    requires NoFailureBefore(script, n)
    ensures |log| == n
  {
    if n == 0 then [] else PrintedLog(script, n - 1) + [PrintedAck(ReplyAt(script, n - 1))]
  }

  /** Line `k` of the log is the acknowledgment of step `k`'s reply. */
  lemma {:induction false} PrintedLogAt(script: seq<Reply>, n: nat, k: nat)
    requires NoFailureBefore(script, n)
    requires k < n
    ensures PrintedLog(script, n)[k] == PrintedAck(ReplyAt(script, k))
  {
    if k < n - 1 {
      PrintedLogAt(script, n - 1, k);
    }
  }

  /** Frames written when `completed` of the three steps returned: a failing step's frame went out too. */
  function FramesSent(completed: nat): nat {
    if completed < 3 then completed + 1 else 3
  }

  /**
   * `enroll`: the same three frames as the Rust driver, for the user id
   * reduced modulo 65536. A permission outside 0..255 raises ValueError before
   * the first frame is written; a port failure raises SerialException and ends
   * the loop after that step's frame. A Fail acknowledgment does not stop it.
   */
  method Enroll(port: Port, userId: int, permission: int) returns (printed: seq<Report>, out: PyResult<()>)
    modifies port
    ensures !IsByte(permission) ==>
              printed == [] && out == Raised(ValueError)
              && port.written == old(port.written) && port.script == old(port.script)
    ensures IsByte(permission) ==>
              printed == PrintedLog(old(port.script), StepsBeforeFailure(old(port.script), |RustDriver.ENROLL_CMDS|))
    ensures IsByte(permission) ==>
              port.written == old(port.written) + RustDriver.EnrollFrames(WireId(userId), ToByte(permission))[..FramesSent(|printed|)]
    ensures IsByte(permission) ==> port.script == After(old(port.script), FramesSent(|printed|))
    ensures IsByte(permission) ==> out == if |printed| < 3 then Raised(SerialException) else Returned(())
  {
    var (uidH, uidL) := SplitId(userId);
    var cmds := RustDriver.ENROLL_CMDS;
    ghost var script := port.script;
    ghost var frames := if IsByte(permission) then RustDriver.EnrollFrames(WireId(userId), ToByte(permission)) else [];
    printed := [];
    assert After(script, 0) == script;
    for i := 0 to |cmds|
      invariant !IsByte(permission) ==> i == 0
      invariant NoFailureBefore(script, i)
      invariant port.written == old(port.written) + frames[..i]
      invariant port.script == After(script, i)
      invariant printed == PrintedLog(script, i)
    {
      if IsByte(permission) {
        UserFrameAgrees(cmds[i], userId, permission);
        ReplyAtAfter(script, i, 0);
        AfterAfter(script, i, 1);
        AppendNext(old(port.written), frames, i);
        assert frames[i] == RustDriver.UserCommand(cmds[i], WireId(userId), ToByte(permission));
      }
      var res := SendCommand(port, cmds[i] as int, uidH, uidL, permission);
      if res.Raised? {
        if IsByte(permission) {
          StepsBeforeFailureIs(script, |cmds|, i);
        }
        out := Raised(res.exc);
        return;
      }
      ghost var reply := ReplyAt(script, i);
      assert res == Read(reply, FRAME_LEN) && !reply.PortError?;
      NoFailureStep(script, i);
      printed := printed + [Status(ParseAck(res.value))];
    }
    assert frames[..3] == frames;
    StepsBeforeFailureIs(script, |cmds|, 3);
    out := Returned(());
  }

  /** `verify_1n`: a short read is reported as invalid; an 8-byte one is read exactly as the Rust driver reads it. */
  function Verify1NReport(res: seq<Byte>): (rep: Report)
    ensures rep.InvalidResponse? <==> |res| != FRAME_LEN
    ensures |res| == FRAME_LEN ==> rep == RustDriver.Verify1NReport(res)
  {
    if |res| != 8 then InvalidResponse
    else if res[4] == ACK_NOUSER then NoMatch
    else if res[4] == ACK_TIMEOUT then FingerTimeout
    else Match(JoinBytes(res[2], res[3]), res[4] as int)
  }

  method Verify1N(port: Port) returns (out: PyResult<Report>)
    modifies port
    ensures port.written == old(port.written) + [Protocol.BuildCommand(CMD_VERIFY_1_N, 0, 0, 0)]
    ensures port.script == After(old(port.script), 1)
    ensures out == match Read(ReplyAt(old(port.script), 0), FRAME_LEN)
                   case Returned(res) => Returned(Verify1NReport(res))
                   case Raised(e) => Raised(e)
  {
    var res := SendCommand(port, CMD_VERIFY_1_N as int);
    match res
    case Returned(r) => out := Returned(Verify1NReport(r));
    case Raised(e) => out := Raised(e);
  }

  method Verify11(port: Port, userId: int) returns (out: PyResult<Report>)
    modifies port
    ensures port.written == old(port.written) + [RustDriver.UserCommand(CMD_VERIFY_1_1, WireId(userId), 0)]
    ensures port.script == After(old(port.script), 1)
    ensures out == AckOutcome(Read(ReplyAt(old(port.script), 0), FRAME_LEN))
  {
    var (uidH, uidL) := SplitId(userId);
    UserFrameAgrees(CMD_VERIFY_1_1, userId, 0);
    var res := SendCommand(port, CMD_VERIFY_1_1 as int, uidH, uidL);
    out := AckOutcome(res);
  }

  method DeleteUser(port: Port, userId: int) returns (out: PyResult<Report>)
    modifies port
    ensures port.written == old(port.written) + [RustDriver.UserCommand(CMD_DELETE_USER, WireId(userId), 0)]
    ensures port.script == After(old(port.script), 1)
    ensures out == AckOutcome(Read(ReplyAt(old(port.script), 0), FRAME_LEN))
  {
    var (uidH, uidL) := SplitId(userId);
    UserFrameAgrees(CMD_DELETE_USER, userId, 0);
    var res := SendCommand(port, CMD_DELETE_USER as int, uidH, uidL);
    out := AckOutcome(res);
  }

  method DeleteAllUsers(port: Port) returns (out: PyResult<Report>)
    modifies port
    ensures port.written == old(port.written) + [Protocol.BuildCommand(CMD_DELETE_ALL, 0, 0, 0)]
    ensures port.script == After(old(port.script), 1)
    ensures out == AckOutcome(Read(ReplyAt(old(port.script), 0), FRAME_LEN))
  {
    var res := SendCommand(port, CMD_DELETE_ALL as int);
    out := AckOutcome(res);
  }

  /** `query_user_count`: the count only for an 8-byte read with byte 4 = Success; otherwise `parse_ack`. */
  function UserCountReport(res: seq<Byte>): (rep: Report)
    ensures |res| == FRAME_LEN ==> rep == RustDriver.UserCountReport(res)
    ensures |res| != FRAME_LEN ==> rep == Status(Malformed)
  {
    if |res| == 8 && res[4] == ACK_SUCCESS then TotalUsers(JoinBytes(res[2], res[3]))
    else Status(ParseAck(res))
  }

  method QueryUserCount(port: Port) returns (out: PyResult<Report>)
    modifies port
    ensures port.written == old(port.written) + [Protocol.BuildCommand(CMD_USER_COUNT, 0, 0, 0)]
    ensures port.script == After(old(port.script), 1)
    ensures out == match Read(ReplyAt(old(port.script), 0), FRAME_LEN)
                   case Returned(res) => Returned(UserCountReport(res))
                   case Raised(e) => Raised(e)
  {
    var res := SendCommand(port, CMD_USER_COUNT as int);
    match res
    case Returned(r) => out := Returned(UserCountReport(r));
    case Raised(e) => out := Raised(e);
  }

  /**
   * `query_permission`: byte 4 is the permission for an 8-byte read whose
   * byte 4 is not "no user"; otherwise `parse_ack`. The user id printed is the
   * caller's integer, not its 16-bit wire form.
   */
  function PermissionReport(userId: int, res: seq<Byte>): (rep: Report)
    ensures rep.UserPermission? <==> |res| == FRAME_LEN && res[4] != ACK_NOUSER
    ensures rep.UserPermission? ==> rep.uid == userId && rep.permission == res[4] as int
    ensures |res| == FRAME_LEN && !rep.UserPermission? ==> rep == RustDriver.PermissionReport(WireId(userId), res)
    ensures |res| != FRAME_LEN ==> rep == Status(Malformed)
  {
    if |res| == 8 && res[4] != ACK_NOUSER then UserPermission(userId, res[4] as int)
    else Status(ParseAck(res))
  }

  method QueryPermission(port: Port, userId: int) returns (out: PyResult<Report>)
    modifies port
    ensures port.written == old(port.written) + [RustDriver.UserCommand(CMD_QUERY_PERMISSION, WireId(userId), 0)]
    ensures port.script == After(old(port.script), 1)
    ensures out == match Read(ReplyAt(old(port.script), 0), FRAME_LEN)
                   case Returned(res) => Returned(PermissionReport(userId, res))
                   case Raised(e) => Raised(e)
  {
    var (uidH, uidL) := SplitId(userId);
    UserFrameAgrees(CMD_QUERY_PERMISSION, userId, 0);
    var res := SendCommand(port, CMD_QUERY_PERMISSION as int, uidH, uidL);
    match res
    case Returned(r) => out := Returned(PermissionReport(userId, r));
    case Raised(e) => out := Raised(e);
  }

  /** Python's shift and mask wrap ids outside 0..65535: -1 goes out as 0xFF, 0xFF and 0x1_0ABC as 0x0A, 0xBC. */
  lemma SplitIdScenario()
    ensures SplitId(0x0ABC) == (0x0A, 0xBC)
    ensures SplitId(-1) == (0xFF, 0xFF)
    ensures SplitId(0x1_0ABC) == (0x0A, 0xBC)
    ensures SplitId(1) == (0x00, 0x01)
  {
  }

  /** A six-byte read is printed as malformed by `parse_ack` and as invalid by `verify_1n`. */
  lemma ShortReadScenario(data: seq<Byte>)
    requires |data| == 6
    ensures AckOutcome(Read(Bytes(data), FRAME_LEN)) == Returned(Status(Malformed))
    ensures Verify1NReport(Read(Bytes(data), FRAME_LEN).value) == InvalidResponse
    ensures UserCountReport(Read(Bytes(data), FRAME_LEN).value) == Status(Malformed)
  {
  }

  /** A well-framed count response with bytes 2..3 = 0x00, 0x0A prints ten users. */
  lemma UserCountScenario(chk: Byte)
    ensures UserCountReport([CMD_START, CMD_USER_COUNT, 0x00, 0x0A, ACK_SUCCESS, 0x00, chk, CMD_END]) == TotalUsers(10)
  {
  }

  /**
   * Enrollment of user 1 against a sensor whose port fails on the second
   * exchange: the first result is printed, the second frame is written, and
   * SerialException ends the call before the third.
   */
  method EnrollPortFailsAtStepTwo() returns (printed: seq<Report>, out: PyResult<()>, sent: seq<seq<Byte>>)
    ensures printed == [Status(Success)]
    ensures out == Raised(SerialException)
    ensures sent == RustDriver.EnrollFrames(0x0001, 0x01)[..2]
  {
    var ok: seq<Byte> := [CMD_START, CMD_ENROLL_1, 0x00, 0x01, ACK_SUCCESS, 0x00, 0x00, CMD_END];
    var script := [Bytes(ok), PortError, Bytes(ok)];
    var port := new Port(script);
    StepsBeforeFailureIs(script, 3, 1);
    printed, out := Enroll(port, 1, 1);
    sent := port.written;
    SplitIdScenario();
    assert ToByte(0) == 0x00 && ToByte(1) == 0x01;
    assert WireId(1) == JoinId(0x00, 0x01) == 0x0001;
  }

  /** A permission of 256 does not fit a byte: ValueError, and nothing is written. */
  method EnrollPermissionOutOfRange() returns (printed: seq<Report>, out: PyResult<()>, sent: seq<seq<Byte>>)
    ensures printed == [] && out == Raised(ValueError) && sent == []
  {
    var port := new Port([]);
    printed, out := Enroll(port, 1, 256);
    sent := port.written;
  }
}
