/** The line protocol between a client and a ClientHandler session: the mode
    strings, the reply texts, and the commands with the fields that follow
    each command line. */
module Protocol {

  /** The three mode strings OPEN accepts. Modes are kept as strings, as the
      server stores and compares them. */
  const READ_ONLY: string := "READ_ONLY"
  const WRITE_ONLY: string := "WRITE_ONLY"
  const READ_WRITE: string := "READ_WRITE"

  /** The chat log shares the lock table with ordinary files. */
  const CHAT_FILE: string := "chat.txt"

  predicate ValidMode(m: string) {
    m == READ_ONLY || m == WRITE_ONLY || m == READ_WRITE
  }

  /** The test OPEN and CLOSE use to decide whether a mode takes the lock. */
  predicate TakesLock(m: string) {
    m != READ_ONLY
  }

  /** The test READ applies to the recorded mode. */
  predicate ReadCapable(m: string) {
    m == READ_ONLY || m == READ_WRITE
  }

  /** The test WRITE applies to the recorded mode. */
  predicate WriteCapable(m: string) {
    m == WRITE_ONLY || m == READ_WRITE
  }

  /** On the modes OPEN records, the lock test is the write test and every
      mode allows reading or writing. */
  lemma ModeClasses(m: string)
    requires ValidMode(m)
    ensures TakesLock(m) <==> WriteCapable(m)
    ensures ReadCapable(m) != WriteCapable(m) || m == READ_WRITE
  {
  }

  datatype ErrorCode =
    | InvalidCommand
    | InvalidMode
    | FileAlreadyLocked
    | FileNotOpen
    | FileNotOpenForRead
    | FileNotOpenForWrite
    | ModeMismatch
    | InvalidMessage
    | ChatFileLocked
    | FailedToWriteChat
    | FailedToReadChat

  function CodeName(c: ErrorCode): string {
    match c
    case InvalidCommand => "INVALID_COMMAND"
    case InvalidMode => "INVALID_MODE"
    case FileAlreadyLocked => "FILE_ALREADY_LOCKED"
    case FileNotOpen => "FILE_NOT_OPEN"
    case FileNotOpenForRead => "FILE_NOT_OPEN_FOR_READ"
    case FileNotOpenForWrite => "FILE_NOT_OPEN_FOR_WRITE"
    case ModeMismatch => "MODE_MISMATCH"
    case InvalidMessage => "INVALID_MESSAGE"
    case ChatFileLocked => "CHAT_FILE_LOCKED"
    case FailedToWriteChat => "FAILED_TO_WRITE_CHAT"
    case FailedToReadChat => "FAILED_TO_READ_CHAT"
  }

  /** What a handler writes back: a bare OK, OK followed by a content line,
      the chat acknowledgement, or an error line. */
  datatype Reply =
    | Ok
    | OkContent(content: string)
    | MessageSent
    | Error(code: ErrorCode)

  /** The exact text written to the socket for a reply. */
  function Wire(r: Reply): (w: string)
    ensures |w| > 0 && w[|w| - 1] == '\n'
    ensures r.Error? <==> |w| >= 6 && w[..6] == "ERROR:"
    ensures !r.Error? ==> |w| >= 3 && w[..2] == "OK"
  {
    var w := match r
      case Ok => "OK\n"
      case OkContent(c) => "OK\n" + c + "\n"
      case MessageSent => "OK:MESSAGE_SENT\n"
      case Error(code) => "ERROR:" + CodeName(code) + "\n";
    assert w[0] == if r.Error? then 'E' else 'O';
    assert |w| >= 6 ==> w[..6][0] == w[0];
    w
  }

  /** Different error codes are sent as different texts. */
  lemma CodeNamesDistinct(a: ErrorCode, b: ErrorCode)
    ensures CodeName(a) == CodeName(b) ==> a == b
  {
  }

  /** A reply's complete text determines the reply: different replies are
      written as different texts. */
  lemma {:induction false} WireInjective(r: Reply, r': Reply)
    ensures Wire(r) == Wire(r') ==> r == r'
  {
    if Wire(r) == Wire(r') {
      var w := Wire(r);
      match r
      case Error(c) =>
        CodeNamesDistinct(c, r'.code);
        assert w[6..|w| - 1] == CodeName(c) == CodeName(r'.code);
      case OkContent(c) =>
        assert w[2] == '\n';
        assert w[3..|w| - 1] == c;
      case Ok =>
      case MessageSent =>
        assert w[2] == ':';
    }
  }

  /** One command as the session reads it: the command line and the field
      lines that follow it. An unrecognised command line carries no fields. */
  datatype Request =
    | Open(path: string, mode: string)
    | Read(path: string)
    | Write(path: string, content: string)
    | Close(path: string, mode: string, content: string)
    | SendMessage(message: string)
    | ReadChat
    | Unknown(command: string)

  predicate IsCommandName(command: string) {
    command in {"OPEN", "READ", "WRITE", "CLOSE", "SEND_MESSAGE", "READ_CHAT"}
  }

  /** How many field lines the session reads after a command line. */
  function Arity(command: string): (n: nat)
    ensures n <= 3
    ensures n > 0 ==> IsCommandName(command)
  {
    if command == "OPEN" then 2
    else if command == "READ" then 1
    else if command == "WRITE" then 2
    else if command == "CLOSE" then 3
    else if command == "SEND_MESSAGE" then 1
    else 0
  }

  /** The lines that carry a request. */
  function Frame(r: Request): (lines: seq<string>)
    ensures |lines| > 0
    ensures !r.Unknown? ==> IsCommandName(lines[0])
  {
    match r
    case Open(p, m) => ["OPEN", p, m]
    case Read(p) => ["READ", p]
    case Write(p, c) => ["WRITE", p, c]
    case Close(p, m, c) => ["CLOSE", p, m, c]
    case SendMessage(msg) => ["SEND_MESSAGE", msg]
    case ReadChat => ["READ_CHAT"]
    case Unknown(cmd) => [cmd]
  }

  /** The switch in the command loop: a command line and the fields read
      after it. Decoding loses nothing: the request's lines are the input. */
  function Decode(command: string, fields: seq<string>): (r: Request)
    requires |fields| == Arity(command)
    ensures Frame(r) == [command] + fields
    ensures r.Unknown? <==> !IsCommandName(command)
  {
    match command
    case "OPEN" => Open(fields[0], fields[1])
    case "READ" => Read(fields[0])
    case "WRITE" => Write(fields[0], fields[1])
    case "CLOSE" => Close(fields[0], fields[1], fields[2])
    case "SEND_MESSAGE" => SendMessage(fields[0])
    case "READ_CHAT" => ReadChat
    case _ => Unknown(command)
  }

  /** Decoding the lines of a request gives that request back, unless the
      request is an "unknown" command whose text is a command name. */
  lemma DecodeFrame(r: Request)
    requires r.Unknown? ==> !IsCommandName(r.command)
    ensures |Frame(r)| == 1 + Arity(Frame(r)[0])
    ensures Decode(Frame(r)[0], Frame(r)[1..]) == r
  {
  }

  /** An input in which every command line is followed by all of its field
      lines: the end of the stream never falls inside a command. */
  predicate WellFramed(lines: seq<string>)
    decreases |lines|
  {
    |lines| == 0 || (Arity(lines[0]) < |lines| && WellFramed(lines[1 + Arity(lines[0])..]))
  }

  /** The lines of any sequence of requests form a well-framed input. */
  lemma {:induction false} FramesAreWellFramed(rs: seq<Request>)
    requires forall i :: 0 <= i < |rs| && rs[i].Unknown? ==> !IsCommandName(rs[i].command)
    ensures WellFramed(Lines(rs))
    decreases |rs|
  {
    if |rs| > 0 {
      DecodeFrame(rs[0]);
      FramesAreWellFramed(rs[1..]);
      var f := Frame(rs[0]);
      assert Lines(rs) == f + Lines(rs[1..]);
      assert (f + Lines(rs[1..]))[1 + Arity(f[0])..] == Lines(rs[1..]);
    }
  }

  function Lines(rs: seq<Request>): seq<string>
    decreases |rs|
  {
    if |rs| == 0 then [] else Frame(rs[0]) + Lines(rs[1..])
  }
}
