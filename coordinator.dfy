/** The file-access coordinator of the server, as values: what each command
    handler of a ClientHandler session does to the shared lock table, to the
    storage directory and to the session's own table of open files, taken as
    one atomic step. The classes in module ServerImpl are proved to perform
    exactly these steps. */
module Coordinator {
  import opened Protocol

  /** What the handlers call but this model does not look inside: the text
      readFile makes of a stored file (line reading and trimming), and the
      banned-word filter of SEND_MESSAGE. */
  datatype Host = Host(readFile: string -> string, isValidMessage: string -> bool)

  /** What one command sees of the outside world: the clock reading used to
      stamp a chat line, and whether the storage call it makes fails. */
  datatype Env = Env(timestamp: string, ioFails: bool)

  /** The process-wide state: the lock table (path to owning client id) and
      the storage directory (path to stored text; a path is present exactly
      when its file exists). */
  datatype Shared = Shared(lockedFiles: map<string, string>, storage: map<string, string>)

  /** A handler either writes a reply, or lets an I/O exception escape, which
      ends the session's command loop. */
  datatype Response = Replied(reply: Reply) | Aborted

  datatype Outcome = Outcome(response: Response, shared: Shared, openFiles: map<string, string>)

  predicate Succeeded(r: Response) {
    r.Replied? && !r.reply.Error?
  }

  // ---------------------------------------------------------------------
  // Storage and lock-table primitives

  /** The stored text of a path; a missing file reads as empty. */
  function Stored(storage: map<string, string>, path: string): string {
    if path in storage then storage[path] else ""
  }

  /** No file is deleted and no stored text is rewritten: each stored text is
      a prefix of the later one. */
  predicate AppendOnly(storage: map<string, string>, storage': map<string, string>) {
    forall p :: p in storage ==> p in storage' && storage[p] <= storage'[p]
  }

  lemma AppendOnlyTrans(a: map<string, string>, b: map<string, string>, c: map<string, string>)
    requires AppendOnly(a, b) && AppendOnly(b, c)
    ensures AppendOnly(a, c)
  {
    forall p | p in a
      ensures p in c && a[p] <= c[p]
    {
      assert a[p] == b[p][..|a[p]|] && b[p] == c[p][..|b[p]|];
      assert c[p][..|b[p]|][..|a[p]|] == c[p][..|a[p]|];
    }
  }

  /** writeFile: opens the file in append mode, creating it if needed. */
  function Append(storage: map<string, string>, path: string, text: string): (s: map<string, string>)
    ensures s.Keys == storage.Keys + {path}
    ensures AppendOnly(storage, s)
    ensures s[path] == Stored(storage, path) + text
    ensures forall q :: q in storage && q != path ==> s[q] == storage[q]
  {
    storage[path := Stored(storage, path) + text]
  }

  /** The content OPEN, READ and READ_CHAT send: "" when the file does not
      exist, otherwise what readFile makes of it. */
  function Load(host: Host, storage: map<string, string>, path: string): string {
    if path in storage then host.readFile(storage[path]) else ""
  }

  /** putIfAbsent failed and the current owner is a different client id. */
  predicate LockedByOther(locks: map<string, string>, path: string, id: string) {
    path in locks && locks[path] != id
  }

  /** ConcurrentHashMap.remove(key, value): drops the entry only while it
      maps to that value. */
  function RemoveOwned(locks: map<string, string>, path: string, id: string): (r: map<string, string>)
    ensures !(path in r && r[path] == id)
    ensures forall q :: q in r ==> q in locks && r[q] == locks[q]
    ensures forall q :: q in locks && (q != path || locks[q] != id) ==> q in r
  {
    if path in locks && locks[path] == id then locks - {path} else locks
  }

  /** The chat line SEND_MESSAGE appends. */
  function ChatLine(timestamp: string, id: string, message: string): (line: string)
    ensures timestamp <= line && |line| > |message| && line[|line| - 1] == '\n'
    ensures line[|line| - 1 - |message|..|line| - 1] == message
  {
    timestamp + " [" + id + "]: " + message + "\n"
  }

  // ---------------------------------------------------------------------
  // The command handlers

  /** handleOpenCommand. A write-capable mode claims the lock with
      putIfAbsent (re-entrant for the owner); READ_ONLY neither checks nor
      takes a lock. There is no check on the path. Success records the mode,
      replacing any mode recorded before for that path. */
  function OpenStep(sh: Shared, open: map<string, string>, id: string, path: string, mode: string,
                env: Env, host: Host): (r: Outcome)
    ensures r.shared.storage == sh.storage
    ensures !ValidMode(mode) ==> r == Outcome(Replied(Error(InvalidMode)), sh, open)
    ensures ValidMode(mode) && TakesLock(mode) && LockedByOther(sh.lockedFiles, path, id) ==>
              r == Outcome(Replied(Error(FileAlreadyLocked)), sh, open)
    ensures Succeeded(r.response) <==>
              ValidMode(mode) && !(TakesLock(mode) && LockedByOther(sh.lockedFiles, path, id)) &&
              !(path in sh.storage && env.ioFails)
    ensures Succeeded(r.response) ==>
              r.openFiles == open[path := mode] &&
              r.response.reply == OkContent(Load(host, sh.storage, path))
    ensures !Succeeded(r.response) ==> r.openFiles == open
    ensures r.response.Aborted? <==>
              ValidMode(mode) && !(TakesLock(mode) && LockedByOther(sh.lockedFiles, path, id)) &&
              path in sh.storage && env.ioFails
    ensures mode == READ_ONLY ==> r.shared.lockedFiles == sh.lockedFiles
    ensures ValidMode(mode) && TakesLock(mode) && !LockedByOther(sh.lockedFiles, path, id) ==>
              r.shared.lockedFiles == sh.lockedFiles[path := id]
  {
    if !ValidMode(mode) then
      Outcome(Replied(Error(InvalidMode)), sh, open)
    else if TakesLock(mode) && LockedByOther(sh.lockedFiles, path, id) then
      Outcome(Replied(Error(FileAlreadyLocked)), sh, open)
    else
      // putIfAbsent either inserts the entry or finds it already owned by id
      var locks := if TakesLock(mode) then sh.lockedFiles[path := id] else sh.lockedFiles;
      var sh' := sh.(lockedFiles := locks);
      if path in sh.storage && env.ioFails then
        Outcome(Aborted, sh', open)
      else
        Outcome(Replied(OkContent(Load(host, sh.storage, path))), sh', open[path := mode])
  }

  /** handleReadCommand: gated by the recorded mode; changes no state. */
  function ReadStep(sh: Shared, open: map<string, string>, path: string, env: Env, host: Host): (r: Response)
    ensures path !in open ==> r == Replied(Error(FileNotOpen))
    ensures path in open && !ReadCapable(open[path]) ==> r == Replied(Error(FileNotOpenForRead))
    ensures Succeeded(r) <==> path in open && ReadCapable(open[path]) && !(path in sh.storage && env.ioFails)
    ensures Succeeded(r) ==> r.reply == OkContent(Load(host, sh.storage, path))
    ensures r.Aborted? <==> path in open && ReadCapable(open[path]) && path in sh.storage && env.ioFails
  {
    if path !in open then Replied(Error(FileNotOpen))
    else if !ReadCapable(open[path]) then Replied(Error(FileNotOpenForRead))
    else if path in sh.storage && env.ioFails then Aborted
    else Replied(OkContent(Load(host, sh.storage, path)))
  }

  /** handleWriteCommand: gated by the recorded mode; appends to storage and
      touches neither the lock table nor the open files. */
  function WriteStep(sh: Shared, open: map<string, string>, path: string, content: string, env: Env): (r: Outcome)
    ensures r.openFiles == open && r.shared.lockedFiles == sh.lockedFiles
    ensures path !in open ==> r.response == Replied(Error(FileNotOpen)) && r.shared == sh
    ensures path in open && !WriteCapable(open[path]) ==>
              r.response == Replied(Error(FileNotOpenForWrite)) && r.shared == sh
    ensures Succeeded(r.response) <==> path in open && WriteCapable(open[path]) && !env.ioFails
    ensures Succeeded(r.response) ==>
              r.response.reply == Ok && r.shared.storage == Append(sh.storage, path, content)
    ensures !Succeeded(r.response) ==> r.shared == sh
    ensures r.response.Aborted? <==> path in open && WriteCapable(open[path]) && env.ioFails
  {
    if path !in open then Outcome(Replied(Error(FileNotOpen)), sh, open)
    else if !WriteCapable(open[path]) then Outcome(Replied(Error(FileNotOpenForWrite)), sh, open)
    else if env.ioFails then Outcome(Aborted, sh, open)
    else Outcome(Replied(Ok), sh.(storage := Append(sh.storage, path, content)), open)
  }

  /** handleCloseCommand: the mode must equal the recorded one; a
      write-capable close appends the content and gives up the lock only if
      this id owns it; the path is then forgotten. */
  function CloseStep(sh: Shared, open: map<string, string>, id: string, path: string, mode: string,
                 content: string, env: Env): (r: Outcome)
    ensures path !in open ==> r == Outcome(Replied(Error(FileNotOpen)), sh, open)
    ensures path in open && open[path] != mode ==> r == Outcome(Replied(Error(ModeMismatch)), sh, open)
    ensures Succeeded(r.response) <==> path in open && open[path] == mode && !(TakesLock(mode) && env.ioFails)
    ensures Succeeded(r.response) ==> r.response.reply == Ok && r.openFiles == open - {path}
    ensures !Succeeded(r.response) ==> r.openFiles == open && r.shared == sh
    ensures Succeeded(r.response) && TakesLock(mode) ==>
              r.shared.storage == Append(sh.storage, path, content) &&
              r.shared.lockedFiles == RemoveOwned(sh.lockedFiles, path, id)
    ensures mode == READ_ONLY ==> r.shared == sh
    ensures r.response.Aborted? <==> path in open && open[path] == mode && TakesLock(mode) && env.ioFails
  {
    if path !in open then Outcome(Replied(Error(FileNotOpen)), sh, open)
    else if open[path] != mode then Outcome(Replied(Error(ModeMismatch)), sh, open)
    else if TakesLock(mode) then
      if env.ioFails then Outcome(Aborted, sh, open)
      else
        var sh' := Shared(RemoveOwned(sh.lockedFiles, path, id), Append(sh.storage, path, content));
        Outcome(Replied(Ok), sh', open - {path})
    else
      Outcome(Replied(Ok), sh, open - {path})
  }

  /** The lock part of handleSendMessage and handleReadChat: the chat lock is
      claimed with putIfAbsent and, past that point, always removed in the
      finally block. */
  function ChatLocksAfter(locks: map<string, string>, id: string): (r: map<string, string>)
    requires !LockedByOther(locks, CHAT_FILE, id)
    ensures r == locks - {CHAT_FILE}
  {
    var claimed := locks[CHAT_FILE := id];
    RemoveOwned(claimed, CHAT_FILE, id)
  }

  /** handleSendMessage. An invalid message is refused before any lock is
      touched, so it leaves any chat lock this id holds in place. */
  function SendMessageStep(sh: Shared, open: map<string, string>, id: string, message: string,
                       env: Env, host: Host): (r: Outcome)
    ensures r.openFiles == open
    ensures !host.isValidMessage(message) ==> r.response == Replied(Error(InvalidMessage)) && r.shared == sh
    ensures host.isValidMessage(message) && LockedByOther(sh.lockedFiles, CHAT_FILE, id) ==>
              r.response == Replied(Error(ChatFileLocked)) && r.shared == sh
    ensures host.isValidMessage(message) ==>
              r.shared.lockedFiles == RemoveOwned(sh.lockedFiles, CHAT_FILE, id)
    ensures Succeeded(r.response) <==>
              host.isValidMessage(message) && !LockedByOther(sh.lockedFiles, CHAT_FILE, id) && !env.ioFails
    ensures Succeeded(r.response) ==>
              r.response.reply == MessageSent &&
              r.shared.storage == Append(sh.storage, CHAT_FILE, ChatLine(env.timestamp, id, message))
    ensures host.isValidMessage(message) && !LockedByOther(sh.lockedFiles, CHAT_FILE, id) && env.ioFails ==>
              r.response == Replied(Error(FailedToWriteChat))
    ensures !Succeeded(r.response) ==> r.shared.storage == sh.storage
    ensures r.response.Replied?
  {
    if !host.isValidMessage(message) then
      Outcome(Replied(Error(InvalidMessage)), sh, open)
    else if LockedByOther(sh.lockedFiles, CHAT_FILE, id) then
      Outcome(Replied(Error(ChatFileLocked)), sh, open)
    else
      var locks := ChatLocksAfter(sh.lockedFiles, id);
      if env.ioFails then
        Outcome(Replied(Error(FailedToWriteChat)), sh.(lockedFiles := locks), open)
      else
        var storage := Append(sh.storage, CHAT_FILE, ChatLine(env.timestamp, id, message));
        Outcome(Replied(MessageSent), Shared(locks, storage), open)
  }

  /** handleReadChat: the same lock discipline as SEND_MESSAGE; the chat
      file's content is sent and storage is not changed. */
  function ReadChatStep(sh: Shared, open: map<string, string>, id: string, env: Env, host: Host): (r: Outcome)
    ensures r.openFiles == open && r.shared.storage == sh.storage
    ensures r.shared.lockedFiles == RemoveOwned(sh.lockedFiles, CHAT_FILE, id)
    ensures LockedByOther(sh.lockedFiles, CHAT_FILE, id) ==> r.response == Replied(Error(ChatFileLocked))
    ensures !LockedByOther(sh.lockedFiles, CHAT_FILE, id) && CHAT_FILE in sh.storage && env.ioFails ==>
              r.response == Replied(Error(FailedToReadChat))
    ensures Succeeded(r.response) <==>
              !LockedByOther(sh.lockedFiles, CHAT_FILE, id) && !(CHAT_FILE in sh.storage && env.ioFails)
    ensures Succeeded(r.response) ==> r.response.reply == OkContent(Load(host, sh.storage, CHAT_FILE))
    ensures r.response.Replied?
  {
    if LockedByOther(sh.lockedFiles, CHAT_FILE, id) then
      Outcome(Replied(Error(ChatFileLocked)), sh, open)
    else
      var sh' := sh.(lockedFiles := ChatLocksAfter(sh.lockedFiles, id));
      if CHAT_FILE in sh.storage && env.ioFails then
        Outcome(Replied(Error(FailedToReadChat)), sh', open)
      else
        Outcome(Replied(OkContent(Load(host, sh.storage, CHAT_FILE))), sh', open)
  }

  /** The switch of the command loop: one request, one atomic step. */
  function Step(sh: Shared, open: map<string, string>, id: string, req: Request, env: Env, host: Host): (r: Outcome)
    ensures req.Unknown? ==> r == Outcome(Replied(Error(InvalidCommand)), sh, open)
    ensures !(req.Open? || req.Close?) ==> r.openFiles == open
    ensures !(req.Write? || req.Close? || req.SendMessage?) ==> r.shared.storage == sh.storage
    ensures req.Read? || req.Write? || req.Unknown? ==> r.shared.lockedFiles == sh.lockedFiles
    ensures AppendOnly(sh.storage, r.shared.storage)
  {
    match req
    case Open(p, m) => OpenStep(sh, open, id, p, m, env, host)
    case Read(p) => Outcome(ReadStep(sh, open, p, env, host), sh, open)
    case Write(p, c) => WriteStep(sh, open, p, c, env)
    case Close(p, m, c) => CloseStep(sh, open, id, p, m, c, env)
    case SendMessage(msg) => SendMessageStep(sh, open, id, msg, env, host)
    case ReadChat => ReadChatStep(sh, open, id, env, host)
    case Unknown(_) => Outcome(Replied(Error(InvalidCommand)), sh, open)
  }

  /** The finally block of run(): for every path the session still has open,
      remove(path, clientId). Locks of other ids stay; so does any lock of
      this id on a path the session no longer has open. */
  function Release(locks: map<string, string>, paths: set<string>, id: string): (r: map<string, string>)
    ensures forall p :: p in r ==> p in locks && r[p] == locks[p]
    ensures forall p :: p in paths ==> !(p in r && r[p] == id)
    ensures forall p :: p in locks && (p !in paths || locks[p] != id) ==> p in r
  {
    map p | p in locks && !(p in paths && locks[p] == id) :: locks[p]
  }

  /** Releasing one more path is one more remove(path, clientId). */
  lemma ReleaseOneMore(locks: map<string, string>, done: set<string>, p: string, id: string)
    ensures Release(locks, done + {p}, id) == RemoveOwned(Release(locks, done, id), p, id)
  {
    var a := Release(locks, done + {p}, id);
    var b := RemoveOwned(Release(locks, done, id), p, id);
    assert forall q :: q in a <==> q in b;
  }

  // ---------------------------------------------------------------------
  // One session: the command loop of run() followed by its finally block

  /** The state when the command loop stops, with the replies written. */
  datatype Trace = Trace(shared: Shared, openFiles: map<string, string>, replies: seq<Reply>)

  /** The command loop over an input of lines: it stops at the end of the
      input or when a handler lets an I/O exception escape. The k-th command
      sees env(k). */
  function Serve(sh: Shared, open: map<string, string>, id: string, input: seq<string>, k: nat,
                 env: nat -> Env, host: Host): (t: Trace)
    requires WellFramed(input)
    decreases |input|
  {
    if |input| == 0 then Trace(sh, open, [])
    else
      var n := Arity(input[0]);
      var o := Step(sh, open, id, Decode(input[0], input[1..1 + n]), env(k), host);
      match o.response
      case Aborted => Trace(o.shared, o.openFiles, [])
      case Replied(reply) =>
        var t := Serve(o.shared, o.openFiles, id, input[1 + n..], k + 1, env, host);
        Trace(t.shared, t.openFiles, [reply] + t.replies)
  }

  /** One turn of the command loop, read at position i of the input. */
  lemma ServeAt(sh: Shared, open: map<string, string>, id: string, input: seq<string>, i: nat, k: nat,
                env: nat -> Env, host: Host)
    requires i < |input| && WellFramed(input[i..])
    ensures var n := Arity(input[i]);
      && i + 1 + n <= |input| && WellFramed(input[i + 1 + n..])
      && var o := Step(sh, open, id, Decode(input[i], input[i + 1..i + 1 + n]), env(k), host);
         Serve(sh, open, id, input[i..], k, env, host) ==
           match o.response
           case Aborted => Trace(o.shared, o.openFiles, [])
           case Replied(reply) =>
             var t := Serve(o.shared, o.openFiles, id, input[i + 1 + n..], k + 1, env, host);
             Trace(t.shared, t.openFiles, [reply] + t.replies)
  {
    var n := Arity(input[i]);
    assert input[i..][0] == input[i];
    assert input[i..][1..1 + n] == input[i + 1..i + 1 + n];
    assert input[i..][1 + n..] == input[i + 1 + n..];
  }

  /** The command loop never deletes a file or rewrites stored text: it only
      appends. */
  lemma {:induction false} ServeAppendOnly(sh: Shared, open: map<string, string>, id: string,
                                           input: seq<string>, k: nat, env: nat -> Env, host: Host)
    requires WellFramed(input)
    ensures AppendOnly(sh.storage, Serve(sh, open, id, input, k, env, host).shared.storage)
    decreases |input|
  {
    if |input| > 0 {
      var n := Arity(input[0]);
      var o := Step(sh, open, id, Decode(input[0], input[1..1 + n]), env(k), host);
      if o.response.Replied? {
        ServeAppendOnly(o.shared, o.openFiles, id, input[1 + n..], k + 1, env, host);
        AppendOnlyTrans(sh.storage, o.shared.storage,
                        Serve(o.shared, o.openFiles, id, input[1 + n..], k + 1, env, host).shared.storage);
      }
    }
  }

  /** A whole session: serve the input, then release the locks of the paths
      left open. */
  function Session(sh: Shared, id: string, input: seq<string>, env: nat -> Env, host: Host): (t: Trace)
    requires WellFramed(input)
    ensures forall p :: p in t.openFiles ==> !(p in t.shared.lockedFiles && t.shared.lockedFiles[p] == id)
  {
    var t := Serve(sh, map[], id, input, 0, env, host);
    t.(shared := t.shared.(lockedFiles := Release(t.shared.lockedFiles, t.openFiles.Keys, id)))
  }

  // ---------------------------------------------------------------------
  // Lock ownership

  /** The claims of one session are backed by the lock table: every mode it
      records is one OPEN accepts, and every write-capable claim on a path
      other than the chat file is a lock entry owned by its id. */
  ghost predicate ClaimsLocked(locks: map<string, string>, id: string, open: map<string, string>) {
    forall p :: p in open ==>
      ValidMode(open[p]) && (p != CHAT_FILE && TakesLock(open[p]) ==> p in locks && locks[p] == id)
  }

  /** A change to the lock table made on behalf of id: every entry owned by
      another id is kept, and no entry for another id appears. */
  ghost predicate OnlyOwnChanged(locks: map<string, string>, locks': map<string, string>, id: string) {
    && (forall p :: p in locks && locks[p] != id ==> p in locks' && locks'[p] == locks[p])
    && (forall p :: p in locks' && locks'[p] != id ==> p in locks && locks[p] == locks'[p])
  }

  lemma OnlyOwnChangedTrans(a: map<string, string>, b: map<string, string>, c: map<string, string>, id: string)
    requires OnlyOwnChanged(a, b, id) && OnlyOwnChanged(b, c, id)
    ensures OnlyOwnChanged(a, c, id)
  {
  }

  /** Each handler keeps its own session's claims backed by locks and changes
      only lock entries of its own id. */
  lemma StepRespectsOwnership(sh: Shared, open: map<string, string>, id: string, req: Request, env: Env, host: Host)
    requires ClaimsLocked(sh.lockedFiles, id, open)
    ensures var r := Step(sh, open, id, req, env, host);
      ClaimsLocked(r.shared.lockedFiles, id, r.openFiles) &&
      OnlyOwnChanged(sh.lockedFiles, r.shared.lockedFiles, id)
  {
    var r := Step(sh, open, id, req, env, host);
    match req
    case Open(p, m) =>
      assert ClaimsLocked(r.shared.lockedFiles, id, r.openFiles);
    case Close(p, m, c) =>
      assert ClaimsLocked(r.shared.lockedFiles, id, r.openFiles);
    case SendMessage(msg) =>
    case ReadChat =>
    case _ =>
  }

  /** The claims of a session stay backed while another session steps. */
  lemma OtherClaimsSurvive(locks: map<string, string>, locks': map<string, string>, id: string,
                           other: string, open: map<string, string>)
    requires OnlyOwnChanged(locks, locks', id) && other != id
    requires ClaimsLocked(locks, other, open)
    ensures ClaimsLocked(locks', other, open)
  {
  }

  /** The whole command loop keeps the session's claims backed and changes
      only its own lock entries. */
  lemma {:induction false} ServeRespectsOwnership(sh: Shared, open: map<string, string>, id: string,
                                                  input: seq<string>, k: nat, env: nat -> Env, host: Host)
    requires WellFramed(input)
    requires ClaimsLocked(sh.lockedFiles, id, open)
    ensures var t := Serve(sh, open, id, input, k, env, host);
      ClaimsLocked(t.shared.lockedFiles, id, t.openFiles) &&
      OnlyOwnChanged(sh.lockedFiles, t.shared.lockedFiles, id)
    decreases |input|
  {
    if |input| > 0 {
      var n := Arity(input[0]);
      var req := Decode(input[0], input[1..1 + n]);
      var o := Step(sh, open, id, req, env(k), host);
      StepRespectsOwnership(sh, open, id, req, env(k), host);
      if o.response.Replied? {
        ServeRespectsOwnership(o.shared, o.openFiles, id, input[1 + n..], k + 1, env, host);
        var t := Serve(o.shared, o.openFiles, id, input[1 + n..], k + 1, env, host);
        OnlyOwnChangedTrans(sh.lockedFiles, o.shared.lockedFiles, t.shared.lockedFiles, id);
      }
    }
  }

  /** A session, from connection to disconnect, changes only lock entries of
      its own id: another session's locks are never stolen or dropped. */
  lemma SessionRespectsOthers(sh: Shared, id: string, input: seq<string>, env: nat -> Env, host: Host)
    requires WellFramed(input)
    ensures OnlyOwnChanged(sh.lockedFiles, Session(sh, id, input, env, host).shared.lockedFiles, id)
  {
    ServeRespectsOwnership(sh, map[], id, input, 0, env, host);
    var t := Serve(sh, map[], id, input, 0, env, host);
    OnlyOwnChangedTrans(sh.lockedFiles, t.shared.lockedFiles,
                        Release(t.shared.lockedFiles, t.openFiles.Keys, id), id);
  }

  // ---------------------------------------------------------------------
  // Several sessions sharing one lock table

  /** The shared state and the open-file table of every live session, keyed
      by client id (host:port of the connection, unique while it lives). */
  datatype System = System(shared: Shared, sessions: map<string, map<string, string>>)

  ghost predicate Coordinated(sys: System) {
    forall id :: id in sys.sessions ==> ClaimsLocked(sys.shared.lockedFiles, id, sys.sessions[id])
  }

  /** A connection arrives, a session performs one command, or a connection
      ends. */
  datatype Event = Connect(id: string) | Command(id: string, req: Request, env: Env) | Disconnect(id: string)

  function Start(storage: map<string, string>): System {
    System(Shared(map[], storage), map[])
  }

  /** The end of a session: the finally block's lock cleanup. */
  function Drop(sys: System, id: string): (s: System)
    requires id in sys.sessions
    ensures id !in s.sessions && s.shared.storage == sys.shared.storage
  {
    var locks := Release(sys.shared.lockedFiles, sys.sessions[id].Keys, id);
    System(sys.shared.(lockedFiles := locks), sys.sessions - {id})
  }

  /** One event of the whole server. A connection starts a session with no
      open files (a live id keeps its session); a command of a live session
      performs its step, and ends the session when the step aborts; a
      disconnect ends the session. */
  function Next(sys: System, e: Event, host: Host): (s: System)
    ensures AppendOnly(sys.shared.storage, s.shared.storage)
    ensures e.Connect? ==> s.sessions.Keys == sys.sessions.Keys + {e.id}
    ensures e.Connect? && e.id !in sys.sessions ==> s.sessions[e.id] == map[]
    ensures e.Disconnect? ==> s.sessions.Keys == sys.sessions.Keys - {e.id}
    ensures e.Command? ==> s.sessions.Keys <= sys.sessions.Keys
    ensures !e.Command? || e.id !in sys.sessions ==> s.shared.storage == sys.shared.storage
  {
    match e
    case Connect(id) =>
      if id in sys.sessions then sys else sys.(sessions := sys.sessions[id := map[]])
    case Command(id, req, env) =>
      if id !in sys.sessions then sys
      else
        var o := Step(sys.shared, sys.sessions[id], id, req, env, host);
        var s := System(o.shared, sys.sessions[id := o.openFiles]);
        if o.response.Aborted? then Drop(s, id) else s
    case Disconnect(id) =>
      if id !in sys.sessions then sys else Drop(sys, id)
  }

  function Replay(sys: System, events: seq<Event>, host: Host): (s: System)
    ensures AppendOnly(sys.shared.storage, s.shared.storage)
    decreases |events|
  {
    if |events| == 0 then sys
    else
      var n := Next(sys, events[0], host);
      AppendOnlyTrans(sys.shared.storage, n.shared.storage, Replay(n, events[1..], host).shared.storage);
      Replay(n, events[1..], host)
  }

  lemma DropPreserves(sys: System, id: string)
    requires id in sys.sessions && Coordinated(sys)
    ensures Coordinated(Drop(sys, id))
  {
    var s := Drop(sys, id);
    forall o | o in s.sessions
      ensures ClaimsLocked(s.shared.lockedFiles, o, s.sessions[o])
    {
      OtherClaimsSurvive(sys.shared.lockedFiles, s.shared.lockedFiles, id, o, sys.sessions[o]);
    }
  }

  lemma NextPreserves(sys: System, e: Event, host: Host)
    requires Coordinated(sys)
    ensures Coordinated(Next(sys, e, host))
  {
    match e
    case Connect(id) =>
    case Disconnect(id) =>
      if id in sys.sessions {
        DropPreserves(sys, id);
      }
    case Command(id, req, env) =>
      if id in sys.sessions {
        var o := Step(sys.shared, sys.sessions[id], id, req, env, host);
        var s := System(o.shared, sys.sessions[id := o.openFiles]);
        StepRespectsOwnership(sys.shared, sys.sessions[id], id, req, env, host);
        forall x | x in s.sessions
          ensures ClaimsLocked(s.shared.lockedFiles, x, s.sessions[x])
        {
          if x != id {
            OtherClaimsSurvive(sys.shared.lockedFiles, s.shared.lockedFiles, id, x, sys.sessions[x]);
          }
        }
        if o.response.Aborted? {
          DropPreserves(s, id);
        }
      }
  }

  lemma {:induction false} ReplayPreserves(sys: System, events: seq<Event>, host: Host)
    requires Coordinated(sys)
    ensures Coordinated(Replay(sys, events, host))
    decreases |events|
  {
    if |events| > 0 {
      NextPreserves(sys, events[0], host);
      ReplayPreserves(Next(sys, events[0], host), events[1..], host);
    }
  }

  /** In every state reachable from a fresh server, a write-capable claim on a
      path other than the chat file is backed by a lock of its own session,
      so no two sessions hold write-capable claims on the same such path. */
  lemma MutualExclusion(storage: map<string, string>, events: seq<Event>, host: Host, a: string, b: string, p: string)
    ensures var sys := Replay(Start(storage), events, host);
      a in sys.sessions && b in sys.sessions && p != CHAT_FILE &&
      p in sys.sessions[a] && WriteCapable(sys.sessions[a][p]) &&
      p in sys.sessions[b] && WriteCapable(sys.sessions[b][p]) ==>
        a == b && p in sys.shared.lockedFiles && sys.shared.lockedFiles[p] == a
  {
    ReplayPreserves(Start(storage), events, host);
    var sys := Replay(Start(storage), events, host);
    if a in sys.sessions && p in sys.sessions[a] {
      ModeClasses(sys.sessions[a][p]);
    }
  }
}
