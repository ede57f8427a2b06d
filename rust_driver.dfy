/**
 * The Rust driver's session operations (src/main.rs): one exchange over the
 * port per operation, except enrollment, which runs three. Every error of an
 * exchange is caught and reported; nothing is retried.
 */
module RustDriver {
  import opened Protocol
  import opened SerialLink
  import opened Reports

  /** `io::Result<[u8; 8]>`, with the error's contents dropped. */
  datatype IoResult = Ok(resp: seq<Byte>) | Err

  /** `read_exact` of `n` bytes: a port error or fewer than `n` bytes before the timeout is an error. */
  function ReadExact(reply: Reply, n: nat): (r: IoResult)
    ensures r.Ok? <==> reply.Bytes? && |reply.data| >= n
    ensures r.Ok? ==> |r.resp| == n && r.resp <= reply.data
  {
    if reply.Bytes? && |reply.data| >= n then Ok(reply.data[..n]) else Err
  }

  /** What the Rust driver prints for a reply whose response it passes to `parse_ack`. */
  function StepReport(reply: Reply): (rep: Report)
    ensures rep.IoError? <==> reply.PortError? || |reply.data| < FRAME_LEN
    ensures !rep.IoError? ==> rep == Status(ParseAck(reply.data[..FRAME_LEN]))
  {
    match ReadExact(reply, FRAME_LEN)
    case Ok(resp) => Status(ParseAck(resp))
    case Err => IoError
  }

  /**
   * Sends one command frame and reads the 8-byte response.
   */
  method SendCommand(port: Port, cmd: Byte, p1: Byte, p2: Byte, p3: Byte) returns (r: IoResult)
    modifies port
    ensures port.written == old(port.written) + [BuildCommand(cmd, p1, p2, p3)]
    ensures port.script == After(old(port.script), 1)
    ensures r == ReadExact(ReplyAt(old(port.script), 0), FRAME_LEN)
    ensures r.Ok? ==> |r.resp| == FRAME_LEN
  {
    var cmdBytes := BuildCommand(cmd, p1, p2, p3);
    port.Write(cmdBytes);
    var reply := port.Receive();
    r := ReadExact(reply, FRAME_LEN);
  }

  /**
   * A well-framed frame carrying the command at 1, the user id's big-endian
   * bytes at 2 and 3, p3 at 4, zero at 5 and the checksum of bytes 1..4 at 6.
   */
  predicate IsUserFrame(frame: seq<Byte>, cmd: Byte, userId: UserId, p3: Byte)
  {
    WellFramed(frame) && frame[1] == cmd && JoinId(frame[2], frame[3]) == userId && frame[4] == p3
    && frame[5] == 0 && frame[6] == frame[1] ^ frame[2] ^ frame[3] ^ frame[4]
  }

  /** A command frame addressed to a user: the id split big-endian into p1 and p2. */
  function UserCommand(cmd: Byte, userId: UserId, p3: Byte): (frame: seq<Byte>)
    ensures IsUserFrame(frame, cmd, userId, p3)
  {
    var (uidH, uidL) := SplitId(userId);
    BuildCommand(cmd, uidH, uidL, p3)
  }

  /** The commands of the three enrollment steps, in order. */
  const ENROLL_CMDS: seq<Byte> := [CMD_ENROLL_1, CMD_ENROLL_2, CMD_ENROLL_3]

  /** The three frames of an enrollment: commands 1, 2 and 3, each carrying the user id and permission. */
  function EnrollFrames(userId: UserId, permission: Byte): (frames: seq<seq<Byte>>)
    ensures |frames| == 3
    ensures forall k :: 0 <= k < 3 ==> IsUserFrame(frames[k], ENROLL_CMDS[k], userId, permission)
  {
    var f1 := UserCommand(CMD_ENROLL_1, userId, permission);
    var f2 := UserCommand(CMD_ENROLL_2, userId, permission);
    var f3 := UserCommand(CMD_ENROLL_3, userId, permission);
    assert [f1, f2, f3][0] == f1 && [f1, f2, f3][1] == f2 && [f1, f2, f3][2] == f3;
    [f1, f2, f3]
  }

  /**
   * Enrollment: the three capture steps, each reported, none skipped: a failed
   * exchange or a Fail acknowledgment does not end the loop.
   */
  method Enroll(port: Port, userId: UserId, permission: Byte) returns (reports: seq<Report>)
    modifies port
    ensures port.written == old(port.written) + EnrollFrames(userId, permission)
    ensures port.script == After(old(port.script), 3)
    ensures |reports| == 3
    ensures forall k :: 0 <= k < 3 ==> reports[k] == StepReport(ReplyAt(old(port.script), k))
  {
    var (uidH, uidL) := SplitId(userId);
    var cmds := ENROLL_CMDS;
    ghost var script := port.script;
    ghost var frames := EnrollFrames(userId, permission);
    reports := [];
    for i := 0 to |cmds|
      invariant port.written == old(port.written) + frames[..i]
      invariant port.script == After(script, i)
      invariant |reports| == i
      invariant forall k :: 0 <= k < i ==> reports[k] == StepReport(ReplyAt(script, k))
    {
      ReplyAtAfter(script, i, 0);
      AfterAfter(script, i, 1);
      AppendNext(old(port.written), frames, i);
      var resp := SendCommand(port, cmds[i], uidH, uidL, permission);
      var report := match resp
        case Ok(data) => Status(ParseAck(data))
        case Err => IoError;
      reports := reports + [report];
    }
    assert frames[..3] == frames;
  }

  /**
   * What 1:N verification reports for the 8-byte response: byte 4 is read as
   * an acknowledgment for "no user" and "timeout", and otherwise as the
   * matched user's permission. The frame sentinels are not checked.
   */
  function Verify1NReport(resp: seq<Byte>): (rep: Report)
    requires |resp| == FRAME_LEN
    ensures rep.NoMatch? <==> resp[4] == ACK_NOUSER
    ensures rep.FingerTimeout? <==> resp[4] == ACK_TIMEOUT
    ensures rep.Match? <==> resp[4] != ACK_NOUSER && resp[4] != ACK_TIMEOUT
    ensures rep.Match? ==> rep.uid == resp[2] as int * 256 + resp[3] as int && rep.permission == resp[4] as int
  {
    if resp[4] == ACK_NOUSER then NoMatch
    else if resp[4] == ACK_TIMEOUT then FingerTimeout
    else Match(JoinId(resp[2], resp[3]) as int, resp[4] as int)
  }

  method Verify1N(port: Port) returns (report: Report)
    modifies port
    ensures port.written == old(port.written) + [BuildCommand(CMD_VERIFY_1_N, 0, 0, 0)]
    ensures port.script == After(old(port.script), 1)
    ensures report == match ReadExact(ReplyAt(old(port.script), 0), FRAME_LEN)
                      case Ok(resp) => Verify1NReport(resp)
                      case Err => IoError
  {
    var r := SendCommand(port, CMD_VERIFY_1_N, 0, 0, 0);
    match r
    case Ok(resp) => report := Verify1NReport(resp);
    case Err => report := IoError;
  }

  method Verify11(port: Port, userId: UserId) returns (report: Report)
    modifies port
    ensures port.written == old(port.written) + [UserCommand(CMD_VERIFY_1_1, userId, 0)]
    ensures port.script == After(old(port.script), 1)
    ensures report == StepReport(ReplyAt(old(port.script), 0))
  {
    var (uidH, uidL) := SplitId(userId);
    var r := SendCommand(port, CMD_VERIFY_1_1, uidH, uidL, 0);
    report := match r
      case Ok(resp) => Status(ParseAck(resp))
      case Err => IoError;
  }

  method DeleteUser(port: Port, userId: UserId) returns (report: Report)
    modifies port
    ensures port.written == old(port.written) + [UserCommand(CMD_DELETE_USER, userId, 0)]
    ensures port.script == After(old(port.script), 1)
    ensures report == StepReport(ReplyAt(old(port.script), 0))
  {
    var (uidH, uidL) := SplitId(userId);
    var r := SendCommand(port, CMD_DELETE_USER, uidH, uidL, 0);
    report := match r
      case Ok(resp) => Status(ParseAck(resp))
      case Err => IoError;
  }

  method DeleteAllUsers(port: Port) returns (report: Report)
    modifies port
    ensures port.written == old(port.written) + [BuildCommand(CMD_DELETE_ALL, 0, 0, 0)]
    ensures port.script == After(old(port.script), 1)
    ensures report == StepReport(ReplyAt(old(port.script), 0))
  {
    var r := SendCommand(port, CMD_DELETE_ALL, 0, 0, 0);
    report := match r
      case Ok(resp) => Status(ParseAck(resp))
      case Err => IoError;
  }

  /** The user count is bytes 2..3 when byte 4 is Success; otherwise the acknowledgment is reported. */
  function UserCountReport(resp: seq<Byte>): (rep: Report)
    requires |resp| == FRAME_LEN
    ensures rep.TotalUsers? <==> resp[4] == ACK_SUCCESS
    ensures rep.TotalUsers? ==> rep.count == resp[2] as int * 256 + resp[3] as int
    ensures !rep.TotalUsers? ==> rep.Status? && rep.ack == ParseAck(resp) && rep.ack != Success
  {
    if resp[4] == ACK_SUCCESS then TotalUsers(JoinId(resp[2], resp[3]) as int)
    else Status(ParseAck(resp))
  }

  method QueryUserCount(port: Port) returns (report: Report)
    modifies port
    ensures port.written == old(port.written) + [BuildCommand(CMD_USER_COUNT, 0, 0, 0)]
    ensures port.script == After(old(port.script), 1)
    ensures report == match ReadExact(ReplyAt(old(port.script), 0), FRAME_LEN)
                      case Ok(resp) => UserCountReport(resp)
                      case Err => IoError
  {
    var r := SendCommand(port, CMD_USER_COUNT, 0, 0, 0);
    match r
    case Ok(resp) => report := UserCountReport(resp);
    case Err => report := IoError;
  }

  /**
   * Any byte 4 other than "no user" is the queried user's permission; for "no
   * user" the acknowledgment is printed, which is then No User, or Malformed
   * when the sentinels are wrong.
   */
  function PermissionReport(userId: UserId, resp: seq<Byte>): (rep: Report)
    requires |resp| == FRAME_LEN
    ensures rep.UserPermission? <==> resp[4] != ACK_NOUSER
    ensures rep.UserPermission? ==> rep.uid == userId as int && rep.permission == resp[4] as int
    ensures !rep.UserPermission? ==> rep == Status(if WellFramed(resp) then NoUser else Malformed)
  {
    if resp[4] != ACK_NOUSER then UserPermission(userId as int, resp[4] as int)
    else Status(ParseAck(resp))
  }

  method QueryPermission(port: Port, userId: UserId) returns (report: Report)
    modifies port
    ensures port.written == old(port.written) + [UserCommand(CMD_QUERY_PERMISSION, userId, 0)]
    ensures port.script == After(old(port.script), 1)
    ensures report == match ReadExact(ReplyAt(old(port.script), 0), FRAME_LEN)
                      case Ok(resp) => PermissionReport(userId, resp)
                      case Err => IoError
  {
    var (uidH, uidL) := SplitId(userId);
    var r := SendCommand(port, CMD_QUERY_PERMISSION, uidH, uidL, 0);
    match r
    case Ok(resp) => report := PermissionReport(userId, resp);
    case Err => report := IoError;
  }

  /** 1:N verification reads bytes 2..4 only: responses that agree there are reported alike, sentinels and checksum regardless. */
  lemma Verify1NReadsOnlyPayload(r1: seq<Byte>, r2: seq<Byte>)
    requires |r1| == FRAME_LEN && |r2| == FRAME_LEN
    requires r1[2] == r2[2] && r1[3] == r2[3] && r1[4] == r2[4]
    ensures Verify1NReport(r1) == Verify1NReport(r2)
  {
  }

  /** A response the decoder rejects as malformed is still reported as a match by 1:N verification. */
  lemma Verify1NAcceptsMalformedFrame()
    ensures var resp: seq<Byte> := [0, CMD_VERIFY_1_N, 0x00, 0x2A, ACK_SUCCESS, 0, 0, CMD_END];
            ParseAck(resp) == Malformed && Verify1NReport(resp) == Match(0x2A, 0)
  {
  }

  /** A well-framed 1:N response carrying user 0x002A with byte 4 = 0x00 is a match, whatever its checksum byte. */
  lemma Verify1NMatchScenario(chk: Byte)
    ensures Verify1NReport([CMD_START, CMD_VERIFY_1_N, 0x00, 0x2A, ACK_SUCCESS, 0x00, chk, CMD_END]) == Match(0x2A, 0)
  {
  }

  /** A 1:N response with "no user" in byte 4 is a non-match, not an error. */
  lemma Verify1NNoUserScenario(chk: Byte)
    ensures Verify1NReport([CMD_START, CMD_VERIFY_1_N, 0x00, 0x00, ACK_NOUSER, 0x00, chk, CMD_END]) == NoMatch
  {
  }

  /** A user-count response with byte 4 = Success and bytes 2..3 = 0x00, 0x0A reports ten users. */
  lemma UserCountScenario(chk: Byte)
    ensures UserCountReport([CMD_START, CMD_USER_COUNT, 0x00, 0x0A, ACK_SUCCESS, 0x00, chk, CMD_END]) == TotalUsers(10)
  {
  }

  /** A reply of six bytes fails `read_exact`: the Rust driver reports an I/O error. */
  lemma ShortReplyIsIoError(data: seq<Byte>)
    requires |data| == 6
    ensures StepReport(Bytes(data)) == IoError
  {
  }

  /**
   * Enrollment of user 1 with permission 1 against a sensor that answers
   * Success, Fail, Success: all three frames go out and all three results are
   * reported.
   */
  method EnrollStepTwoFails() returns (reports: seq<Report>, sent: seq<seq<Byte>>)
    ensures sent == EnrollFrames(0x0001, 0x01)
    ensures reports == [Status(Success), Status(Fail), Status(Success)]
  {
    var ok: seq<Byte> := [CMD_START, CMD_ENROLL_1, 0x00, 0x01, ACK_SUCCESS, 0x00, 0x00, CMD_END];
    var fail: seq<Byte> := [CMD_START, CMD_ENROLL_2, 0x00, 0x01, ACK_FAIL, 0x00, 0x00, CMD_END];
    var port := new Port([Bytes(ok), Bytes(fail), Bytes(ok)]);
    reports := Enroll(port, 0x0001, 0x01);
    sent := port.written;
    assert ok[..FRAME_LEN] == ok && fail[..FRAME_LEN] == fail;
  }
}
