/** The server's objects as they change in place: the static lock table and
    storage directory of Server, and one ClientHandler per connection with
    its own table of open files. Each handler method is proved to perform
    the Coordinator step of the same name, and the command loop keeps every
    session's write-capable claims backed by its own locks. */
module ServerImpl {
  import opened Wrappers
  import opened Protocol
  import opened Coordinator

  /** The state Server keeps in static fields: lockedFiles and the storage
      directory, with the host functions the handlers call. */
  class Server {
    var lockedFiles: map<string, string>
    var storage: map<string, string>
    const host: Host

    constructor (host: Host, storage: map<string, string>)
      ensures this.host == host && this.storage == storage && lockedFiles == map[]
    {
      this.host := host;
      this.storage := storage;
      lockedFiles := map[];
    }

    function State(): Shared
      reads this
    {
      Shared(lockedFiles, storage)
    }

    /** ConcurrentHashMap.putIfAbsent: the previous owner, if any; the entry
        is inserted only when there was none. */
    method PutIfAbsent(key: string, value: string) returns (previous: Option<string>)
      modifies this
      ensures previous == if key in old(lockedFiles) then Some(old(lockedFiles)[key]) else None
      ensures lockedFiles == if key in old(lockedFiles) then old(lockedFiles) else old(lockedFiles)[key := value]
      ensures storage == old(storage)
    {
      if key in lockedFiles {
        previous := Some(lockedFiles[key]);
      } else {
        previous := None;
        lockedFiles := lockedFiles[key := value];
      }
    }

    /** ConcurrentHashMap.remove(key, value). */
    method RemoveIfOwned(key: string, value: string)
      modifies this
      ensures lockedFiles == RemoveOwned(old(lockedFiles), key, value)
      ensures storage == old(storage)
    {
      if key in lockedFiles && lockedFiles[key] == value {
        lockedFiles := lockedFiles - {key};
      }
    }

    /** writeFile: append mode, creating the file when it is missing. */
    method WriteFile(path: string, content: string)
      modifies this
      ensures storage == Append(old(storage), path, content)
      ensures lockedFiles == old(lockedFiles)
    {
      var previous := if path in storage then storage[path] else "";
      storage := storage[path := previous + content];
    }

    /** file.exists() */
    function Exists(path: string): bool
      reads this
    {
      path in storage
    }

    /** readFile on an existing file. */
    method ReadFile(path: string) returns (content: string)
      requires path in storage
      ensures content == Load(host, storage, path)
    {
      content := host.readFile(storage[path]);
    }
  }

  /** Several sessions on one server: each session's claims are backed by its
      own locks, and client ids are distinct. */
  ghost predicate HandlersCoordinated(server: Server, hs: set<ClientHandler>)
    reads server, hs
  {
    && (forall h :: h in hs ==> h.server == server && ClaimsLocked(server.lockedFiles, h.clientId, h.openFiles))
    && (forall h, h' :: h in hs && h' in hs && h != h' ==> h.clientId != h'.clientId)
  }

  /** One connection's session. */
  class ClientHandler {
    const server: Server
    const clientId: string
    var openFiles: map<string, string>

    constructor (server: Server, clientId: string)
      ensures this.server == server && this.clientId == clientId && openFiles == map[]
    {
      this.server := server;
      this.clientId := clientId;
      openFiles := map[];
    }

    method HandleOpenCommand(filePath: string, mode: string, env: Env) returns (response: Response)
      modifies this, server
      ensures Outcome(response, server.State(), openFiles) ==
              OpenStep(old(server.State()), old(openFiles), clientId, filePath, mode, env, server.host)
    {
      if mode != READ_ONLY && mode != WRITE_ONLY && mode != READ_WRITE {
        return Replied(Error(InvalidMode));
      }
      if mode != READ_ONLY {
        var previous := server.PutIfAbsent(filePath, clientId);
        if previous.Some? {
          var currentLockOwner := server.lockedFiles[filePath];
          if currentLockOwner != clientId {
            return Replied(Error(FileAlreadyLocked));
          }
        }
      }
      var content := "";
      if server.Exists(filePath) {
        if env.ioFails {
          return Aborted;
        }
        content := server.ReadFile(filePath);
      }
      openFiles := openFiles[filePath := mode];
      return Replied(OkContent(content));
    }

    method HandleReadCommand(filePath: string, env: Env) returns (response: Response)
      ensures response == ReadStep(server.State(), openFiles, filePath, env, server.host)
    {
      if filePath !in openFiles {
        return Replied(Error(FileNotOpen));
      }
      var mode := openFiles[filePath];
      if mode != READ_ONLY && mode != READ_WRITE {
        return Replied(Error(FileNotOpenForRead));
      }
      var content := "";
      if server.Exists(filePath) {
        if env.ioFails {
          return Aborted;
        }
        content := server.ReadFile(filePath);
      }
      return Replied(OkContent(content));
    }

    method HandleWriteCommand(filePath: string, newContent: string, env: Env) returns (response: Response)
      modifies server
      ensures Outcome(response, server.State(), openFiles) ==
              WriteStep(old(server.State()), openFiles, filePath, newContent, env)
    {
      if filePath !in openFiles {
        return Replied(Error(FileNotOpen));
      }
      var mode := openFiles[filePath];
      if mode != WRITE_ONLY && mode != READ_WRITE {
        return Replied(Error(FileNotOpenForWrite));
      }
      if env.ioFails {
        return Aborted;
      }
      server.WriteFile(filePath, newContent);
      return Replied(Ok);
    }

    method HandleCloseCommand(filePath: string, mode: string, content: string, env: Env) returns (response: Response)
      modifies this, server
      ensures Outcome(response, server.State(), openFiles) ==
              CloseStep(old(server.State()), old(openFiles), clientId, filePath, mode, content, env)
    {
      if filePath !in openFiles {
        return Replied(Error(FileNotOpen));
      }
      var currentMode := openFiles[filePath];
      if currentMode != mode {
        return Replied(Error(ModeMismatch));
      }
      if mode != READ_ONLY {
        if env.ioFails {
          return Aborted;
        }
        server.WriteFile(filePath, content);
        server.RemoveIfOwned(filePath, clientId);
      }
      openFiles := openFiles - {filePath};
      return Replied(Ok);
    }

    /** Claims the chat lock for the chat handlers: false when another id
        owns it. */
    method ClaimChatLock() returns (acquired: bool)
      modifies server
      ensures acquired <==> !LockedByOther(old(server.lockedFiles), CHAT_FILE, clientId)
      ensures acquired ==> server.lockedFiles == old(server.lockedFiles)[CHAT_FILE := clientId]
      ensures !acquired ==> server.lockedFiles == old(server.lockedFiles)
      ensures server.storage == old(server.storage)
    {
      var previous := server.PutIfAbsent(CHAT_FILE, clientId);
      acquired := true;
      if previous.Some? {
        var currentLockOwner := server.lockedFiles[CHAT_FILE];
        acquired := currentLockOwner == clientId;
      }
    }

    method HandleSendMessage(message: string, env: Env) returns (response: Response)
      modifies server
      ensures Outcome(response, server.State(), openFiles) ==
              SendMessageStep(old(server.State()), openFiles, clientId, message, env, server.host)
    {
      if !server.host.isValidMessage(message) {
        return Replied(Error(InvalidMessage));
      }
      var acquired := ClaimChatLock();
      if !acquired {
        return Replied(Error(ChatFileLocked));
      }
      if env.ioFails {
        response := Replied(Error(FailedToWriteChat));
      } else {
        server.WriteFile(CHAT_FILE, ChatLine(env.timestamp, clientId, message));
        response := Replied(MessageSent);
      }
      server.RemoveIfOwned(CHAT_FILE, clientId);
    }

    method HandleReadChat(env: Env) returns (response: Response)
      modifies server
      ensures Outcome(response, server.State(), openFiles) ==
              ReadChatStep(old(server.State()), openFiles, clientId, env, server.host)
    {
      var acquired := ClaimChatLock();
      if !acquired {
        return Replied(Error(ChatFileLocked));
      }
      var chatContent := "";
      if server.Exists(CHAT_FILE) && env.ioFails {
        response := Replied(Error(FailedToReadChat));
      } else {
        if server.Exists(CHAT_FILE) {
          chatContent := server.ReadFile(CHAT_FILE);
        }
        response := Replied(OkContent(chatContent));
      }
      server.RemoveIfOwned(CHAT_FILE, clientId);
    }

    /** The switch of run(). */
    method Dispatch(req: Request, env: Env) returns (response: Response)
      modifies this, server
      ensures Outcome(response, server.State(), openFiles) ==
              Step(old(server.State()), old(openFiles), clientId, req, env, server.host)
    {
      match req
      case Open(p, m) => response := HandleOpenCommand(p, m, env);
      case Read(p) => response := HandleReadCommand(p, env);
      case Write(p, c) => response := HandleWriteCommand(p, c, env);
      case Close(p, m, c) => response := HandleCloseCommand(p, m, c, env);
      case SendMessage(msg) => response := HandleSendMessage(msg, env);
      case ReadChat => response := HandleReadChat(env);
      case Unknown(_) => response := Replied(Error(InvalidCommand));
    }

    /** The finally block of run(): remove(path, clientId) for every path
        still open. */
    method ReleaseLocks()
      modifies server
      ensures server.lockedFiles == Release(old(server.lockedFiles), openFiles.Keys, clientId)
      ensures server.storage == old(server.storage)
    {
      var pending := openFiles.Keys;
      ghost var done: set<string> := {};
      while pending != {}
        invariant pending + done == openFiles.Keys && pending !! done
        invariant server.lockedFiles == Release(old(server.lockedFiles), done, clientId)
        invariant server.storage == old(server.storage)
        decreases pending
      {
        var filePath :| filePath in pending;
        ReleaseOneMore(old(server.lockedFiles), done, filePath, clientId);
        server.RemoveIfOwned(filePath, clientId);
        pending := pending - {filePath};
        done := done + {filePath};
      }
    }

    /** One command of run(), as one atomic step on the shared table: every
        session on the server keeps its claims backed by its own locks. */
    method Perform(req: Request, env: Env, ghost hs: set<ClientHandler>) returns (response: Response)
      requires this in hs && HandlersCoordinated(server, hs)
      modifies this, server
      ensures Outcome(response, server.State(), openFiles) ==
              Step(old(server.State()), old(openFiles), clientId, req, env, server.host)
      ensures HandlersCoordinated(server, hs)
    {
      response := Dispatch(req, env);
      StepRespectsOwnership(old(server.State()), old(openFiles), clientId, req, env, server.host);
      forall h | h in hs && h != this
        ensures ClaimsLocked(server.lockedFiles, h.clientId, h.openFiles)
      {
        OtherClaimsSurvive(old(server.lockedFiles), server.lockedFiles, clientId, h.clientId, h.openFiles);
      }
    }

    /** The end of run(): the finally block's cleanup, after which the other
        sessions' claims are still backed. */
    method Disconnect(ghost hs: set<ClientHandler>)
      requires this in hs && HandlersCoordinated(server, hs)
      modifies server
      ensures server.lockedFiles == Release(old(server.lockedFiles), openFiles.Keys, clientId)
      ensures server.storage == old(server.storage)
      ensures HandlersCoordinated(server, hs - {this})
    {
      ReleaseLocks();
      forall h | h in hs - {this}
        ensures ClaimsLocked(server.lockedFiles, h.clientId, h.openFiles)
      {
        OtherClaimsSurvive(old(server.lockedFiles), server.lockedFiles, clientId, h.clientId, h.openFiles);
      }
    }

    /** One turn of run()'s loop: read the command at position i of the
        input with its fields, and perform it. */
    method Turn(input: seq<string>, i: nat, k: nat, env: nat -> Env, ghost hs: set<ClientHandler>)
      returns (response: Response, next: nat)
      requires i < |input| && WellFramed(input[i..])
      requires this in hs && HandlersCoordinated(server, hs)
      modifies this, server
      ensures i < next <= |input| && WellFramed(input[next..])
      ensures HandlersCoordinated(server, hs)
      ensures response.Aborted? ==>
                Serve(old(server.State()), old(openFiles), clientId, input[i..], k, env, server.host) ==
                Trace(server.State(), openFiles, [])
      ensures response.Replied? ==>
                var t := Serve(server.State(), openFiles, clientId, input[next..], k + 1, env, server.host);
                Serve(old(server.State()), old(openFiles), clientId, input[i..], k, env, server.host) ==
                Trace(t.shared, t.openFiles, [response.reply] + t.replies)
    {
      var n := Arity(input[i]);
      ghost var sh, open := server.State(), openFiles;
      ServeAt(sh, open, clientId, input, i, k, env, server.host);
      var req := Decode(input[i], input[i + 1..i + 1 + n]);
      response := Perform(req, env(k), hs);
      next := i + 1 + n;
      ghost var o := Step(sh, open, clientId, req, env(k), server.host);
      assert o.response == response && o.shared == server.State() && o.openFiles == openFiles;
      if response.Replied? {
        ghost var t := Serve(o.shared, o.openFiles, clientId, input[next..], k + 1, env, server.host);
        assert Serve(sh, open, clientId, input[i..], k, env, server.host) ==
               Trace(t.shared, t.openFiles, [o.response.reply] + t.replies);
      }
    }

    /** run(): serve the commands of the input until it ends or a handler's
        I/O fails, then release the locks of the paths still open. Every other
        session's claims stay backed by its locks. */
    method Run(input: seq<string>, env: nat -> Env, ghost hs: set<ClientHandler>) returns (replies: seq<Reply>)
      requires WellFramed(input)
      requires this in hs && HandlersCoordinated(server, hs)
      modifies this, server
      ensures var t := Serve(old(server.State()), old(openFiles), clientId, input, 0, env, server.host);
        && replies == t.replies
        && openFiles == t.openFiles
        && server.storage == t.shared.storage
        && server.lockedFiles == Release(t.shared.lockedFiles, t.openFiles.Keys, clientId)
      ensures HandlersCoordinated(server, hs - {this})
    {
      ghost var whole := Serve(server.State(), openFiles, clientId, input, 0, env, server.host);
      var i, k := 0, 0;
      replies := [];
      assert input[0..] == input;
      while i < |input|
        invariant 0 <= i <= |input| && WellFramed(input[i..])
        invariant HandlersCoordinated(server, hs)
        invariant var t := Serve(server.State(), openFiles, clientId, input[i..], k, env, server.host);
          whole == Trace(t.shared, t.openFiles, replies + t.replies)
        decreases |input| - i
      {
        var response, next := Turn(input, i, k, env, hs);
        if response.Aborted? {
          assert whole == Trace(server.State(), openFiles, replies + []);
          break;
        }
        ghost var rest := Serve(server.State(), openFiles, clientId, input[next..], k + 1, env, server.host);
        assert replies + ([response.reply] + rest.replies) == (replies + [response.reply]) + rest.replies;
        replies := replies + [response.reply];
        i, k := next, k + 1;
      }
      assert replies + [] == replies;
      Disconnect(hs);
    }
  }
}
