# Distributed file server: the file-access coordinator, in Dafny

This project models the server side of a small distributed file system. A
`Server` keeps one lock table shared by every connection (`lockedFiles`,
path to the client id that owns the lock) and a storage directory of files.
One `ClientHandler` session runs per connection. Each session keeps its own
`openFiles` table (path to the mode it opened the path under) and serves a
line protocol: `OPEN`, `READ`, `WRITE`, `CLOSE`, `SEND_MESSAGE`, `READ_CHAT`.
When the connection ends, the session removes the locks of the paths it
still has open. The client-side
`FileCache` is modelled as well.

The model has six modules:

- `Wrappers` (wrappers.dfy): the `Option` type, standing for a Java
  reference that may be null.
- `Protocol` (protocol.dfy): the mode strings, the reply texts written to the
  socket, and the commands with the field lines that follow each one.
- `Coordinator` (coordinator.dfy): each handler as a function from the shared
  state (lock table and storage) and the session's `openFiles` to a reply and
  the new state. Each handler call is one atomic step, since `putIfAbsent` and
  `remove(key, value)` are single atomic map operations. This module also holds
  the command loop with its disconnect cleanup, and a system of many sessions
  sharing one lock table. The ownership invariant is proved over every
  sequence of connects, commands and disconnects: a write-capable claim on a
  path other than `chat.txt` is a lock owned by that session. Storage is
  proved append-only over every such sequence.
- `ServerImpl` (server.dfy): `Server` and `ClientHandler` as classes whose
  methods update the maps in place. Each handler method is proved to perform
  the matching `Coordinator` step. `Run`, the command loop, is proved to keep
  every other session's claims backed by its own locks.
- `Scenarios` (scenarios.dfy): command sequences whose outcome the code fixes.
- `Cache` (file_cache.dfy): `FileCache` as a class over its three maps.

What the code does, stated in its own terms:

- The lock table maps each path to one owning client id. `READ_ONLY` never
  takes a lock and is never refused because of one.
- `WRITE` appends to the stored file at once. A write-capable `CLOSE` appends
  its content again; it does not overwrite. `WriteAndCloseBothAppend` shows
  the effect. Storage is read on every `OPEN` and `READ`; no content is cached
  on the server. No command deletes a file or rewrites stored text.
- Paths are not checked. A path such as `../secret` is opened like any other
  (`ReadOnlyIgnoresLocksAndPaths`).
- Reopening a path records the new mode over the old one. After
  `OPEN p WRITE_ONLY`, `OPEN p READ_ONLY`, `CLOSE p READ_ONLY`, the lock on `p`
  is still held. Closing forgot `p`, so the disconnect cleanup never visits it.
  The lock therefore outlives the session, and no session with another client
  id can open `p` for writing again (`DowngradedLockOutlivesSession`). A later
  connection that happens to get the same `host:port` id reopens `p`
  re-entrantly.
- A lock can also outlive its session when a write-capable `OPEN` takes it
  with `putIfAbsent` and then `readFile` throws. The exception ends the
  session before the path is recorded as open, so the cleanup never visits
  it (`FailedOpenLockOutlivesSession`).
- The error replies are `INVALID_COMMAND`, `INVALID_MODE`,
  `FILE_ALREADY_LOCKED`, `FILE_NOT_OPEN`, `FILE_NOT_OPEN_FOR_READ`,
  `FILE_NOT_OPEN_FOR_WRITE`, `MODE_MISMATCH`, `INVALID_MESSAGE`,
  `CHAT_FILE_LOCKED`, `FAILED_TO_WRITE_CHAT` and `FAILED_TO_READ_CHAT`.
  A storage failure in `OPEN`, `READ`, `WRITE` or `CLOSE` has no error reply:
  it ends the session. `READ` replies `OK` followed by the content.
- Every chat command that passes validation takes the `chat.txt` lock through
  the same table and drops it in its `finally` block. A session holding a
  write-capable claim on `chat.txt` therefore loses its lock on its next such
  chat command (`ChatHandlerDropsOwnChatLock`). For that reason the ownership
  invariant excludes that path. A `SEND_MESSAGE` with an invalid message is
  refused before the lock is touched, so it leaves an existing `chat.txt` lock
  of the session in place.

Parameters stand for what the model does not look inside:

- `Host.readFile` is the text `readFile` makes of a stored file.
- `Host.isValidMessage` is the banned-word filter.
- `Env.timestamp` is the clock reading that stamps a chat line.
- `Env.ioFails` says whether the storage call of a command throws. When it
  throws, an I/O exception escapes the handler (`Response.Aborted`). The
  command loop then ends, and the `finally` cleanup runs. The exception is
  the chat handlers: they catch the failure and reply with an error.
- `Server.Exists` (`file.exists()`) is presence in the storage map, and
  `Server.ReadFile` (`readFile`) applies `Host.readFile` to the stored text.
  Both follow from these choices, so neither has a row below.

## Model

| member | source | states |
|---|---|---|
| `Protocol.Wire` | src/Server.java:137-367 | every reply text ends in a newline; it starts with `ERROR:` exactly for error replies, and with `OK` otherwise |
| `Protocol.ValidMode` | src/Server.java:165 | the three mode strings OPEN accepts |
| `Protocol.TakesLock` | src/Server.java:171 | the lock test of OPEN and CLOSE: every mode but `READ_ONLY` |
| `Protocol.ReadCapable` | src/Server.java:210 | the modes READ accepts: `READ_ONLY` and `READ_WRITE` |
| `Protocol.WriteCapable` | src/Server.java:239 | the modes WRITE accepts: `WRITE_ONLY` and `READ_WRITE` |
| `Protocol.CodeName` | src/Server.java:137-367 | the text after `ERROR:` for each error reply |
| `Protocol.CodeNamesDistinct` | src/Server.java:137-367 | different error codes are sent as different texts |
| `Protocol.WireInjective` | src/Server.java:137-367 | a reply's complete text determines the reply: different replies are written as different texts |
| `Scenarios.TwoOksReadAsContent` | src/Server.java:193-194 | on the line stream replies are not delimited: two bare OK replies form the same text as one OK with content "OK" |
| `Scenarios.ContentSwallowsReply` | src/Server.java:222-223 | content with a line break is not framed: an OK with content a followed by an INVALID_MODE error forms the same text as one OK whose content ends in that error line |
| `Protocol.Arity` | src/Server.java:109-133 | the number of field lines read after each command line: at most three, and none after an unknown command |
| `Protocol.ModeClasses` | src/Server.java:165-171 | on the three accepted modes, the lock test of OPEN/CLOSE (`!= READ_ONLY`) is the write-capability test of WRITE |
| `Protocol.Decode` | src/Server.java:107-139 | the dispatch switch reads the command's fields; the request's own lines are exactly the command line and those fields; unknown command lines carry no fields |
| `Protocol.DecodeFrame` | src/Server.java:107-139 | decoding the lines of a request gives back that request |
| `Protocol.FramesAreWellFramed` | src/Server.java:99-127 | the lines of any sequence of requests never end inside a command |
| `Coordinator.Append` | src/Server.java:70-76 | writeFile appends to the stored text (a missing file counts as empty), creates the file, and leaves other files unchanged |
| `Coordinator.AppendOnly` | src/Server.java:73 | the relation between two storage states in which no file is deleted and every stored text is a prefix of the later one |
| `Coordinator.Load` | src/Server.java:186-190 | the content OPEN, READ and READ_CHAT send: empty for a missing file, otherwise what readFile makes of the stored text |
| `Coordinator.ChatLine` | src/Server.java:315 | the stamped chat line starts with the timestamp, ends with the message and a newline |
| `Coordinator.LockedByOther` | src/Server.java:173-176 | the refusal test of OPEN and the chat handlers: putIfAbsent found an entry for the path, and its owner is not this client id |
| `Coordinator.Start` | src/Server.java:15 | a fresh server: an empty lock table over the given storage, and no live sessions |
| `Coordinator.RemoveOwned` | src/Server.java:276 | `remove(path, id)` leaves no `path -> id` entry, keeps every other entry and adds none |
| `Coordinator.OpenStep` | src/Server.java:162-197 | invalid mode gives INVALID_MODE and no change; a write-capable mode on a path locked by another id gives FILE_ALREADY_LOCKED and no change; otherwise the lock becomes this id's (re-entrant) while READ_ONLY leaves the table alone; success records the mode over any earlier one and returns the loaded content; the step aborts (no reply) exactly when a permitted open of an existing file fails to read it; storage never changes |
| `Coordinator.ReadStep` | src/Server.java:200-226 | a path not open gives FILE_NOT_OPEN; a WRITE_ONLY claim gives FILE_NOT_OPEN_FOR_READ; success returns the loaded content; it aborts exactly when a permitted read of an existing file fails; no state is changed |
| `Coordinator.WriteStep` | src/Server.java:229-251 | FILE_NOT_OPEN and FILE_NOT_OPEN_FOR_WRITE change nothing; success appends the new content to storage; it aborts exactly when a permitted write fails; the table of open files and the lock table never change |
| `Coordinator.CloseStep` | src/Server.java:254-284 | FILE_NOT_OPEN and MODE_MISMATCH change nothing and keep the claim; success forgets the path; a write-capable close appends the content and drops the lock only if owned by this id; a READ_ONLY close changes no shared state; it aborts exactly when the append of a matching write-capable close fails |
| `Coordinator.ChatLocksAfter` | src/Server.java:300-331 | claiming and then releasing the chat lock leaves no `chat.txt` entry |
| `Coordinator.SendMessageStep` | src/Server.java:287-333 | an invalid message gives INVALID_MESSAGE and no change; a chat lock of another id gives CHAT_FILE_LOCKED and no change; past validation the lock table ends with no `chat.txt -> id` entry; success appends the stamped chat line; a write failure replies FAILED_TO_WRITE_CHAT with storage unchanged |
| `Coordinator.ReadChatStep` | src/Server.java:336-374 | the lock table ends with no `chat.txt -> id` entry; a chat lock of another id gives CHAT_FILE_LOCKED; a read failure gives FAILED_TO_READ_CHAT; success returns the chat content; storage never changes |
| `Coordinator.Step` | src/Server.java:107-139 | an unknown command gives INVALID_COMMAND and no change; only OPEN and CLOSE change the open files; only WRITE, CLOSE and SEND_MESSAGE change storage, and only by appending; READ and WRITE never change the lock table |
| `Coordinator.Release` | src/Server.java:145-149 | the disconnect cleanup keeps every entry owned by another id, adds none, and leaves no entry of this id on any path still open |
| `Coordinator.ReleaseOneMore` | src/Server.java:147-148 | releasing one more path of the loop is one more `remove(path, clientId)`, so the loop's order does not matter |
| `Coordinator.Serve` | src/Server.java:99-140 | the command loop: each command line with its fields is decoded and dispatched, and the loop stops at the end of the input or when a handler's I/O fails; its properties are those of `ServeAt`, `ServeAppendOnly` and `ServeRespectsOwnership` |
| `Coordinator.ServeAppendOnly` | src/Server.java:99-140 | the whole command loop only appends to storage |
| `Coordinator.ServeAt` | src/Server.java:99-140 | one turn of the command loop reads a whole command and either ends the loop, on an I/O failure, or goes on with the next command |
| `Coordinator.Session` | src/Server.java:93-159 | after the loop and its cleanup, no lock of this id remains on any path the session still has open |
| `Coordinator.StepRespectsOwnership` | src/Server.java:173-183 | every handler keeps the session's write-capable claims (other than on `chat.txt`) backed by its own locks, and changes no lock entry of another id |
| `Coordinator.OtherClaimsSurvive` | src/Server.java:148 | a step by one id cannot break the lock backing the claims of another id |
| `Coordinator.ServeRespectsOwnership` | src/Server.java:99-140 | the whole command loop keeps its claims backed and touches only its own lock entries |
| `Coordinator.SessionRespectsOthers` | src/Server.java:93-159 | a session, from connect to disconnect, never steals or drops a lock of another id |
| `Coordinator.Drop` | src/Server.java:145-149 | the end of a session removes it from the live sessions and leaves storage unchanged |
| `Coordinator.Next` | src/Server.java:32-35 | a connect adds a session with no open files; a disconnect removes the session; a command never adds a session; only commands change storage, and only by appending |
| `Coordinator.Replay` | src/Server.java:15 | over any sequence of events, storage only grows by appending |
| `Coordinator.DropPreserves` | src/Server.java:145-149 | ending a session keeps every other session's claims backed |
| `Coordinator.NextPreserves` | src/Server.java:32-35 | connecting, any command of any session, and disconnecting all preserve the ownership invariant across sessions |
| `Coordinator.ReplayPreserves` | src/Server.java:15 | the ownership invariant holds after any sequence of events |
| `Coordinator.MutualExclusion` | src/Server.java:173-183 | in every reachable state, two sessions with write-capable claims on the same path other than `chat.txt` are the same session, and that session owns the lock |
| `Scenarios.Contention` | src/Server.java:173-183 | A opens for writing, B is refused FILE_ALREADY_LOCKED, A closes with "x", B then opens and receives the text made from "x" |
| `Scenarios.WriteAndCloseBothAppend` | src/Server.java:73 | OPEN RW, WRITE c, CLOSE RW c leaves the file ending in c twice, and READ returns that |
| `Scenarios.DowngradedLockOutlivesSession` | src/Server.java:192 | reopening READ_ONLY replaces the mode (WRITE is refused), and after closing and disconnecting the lock is still held, so a session with another client id is refused |
| `Scenarios.FailedOpenLockOutlivesSession` | src/Server.java:173-192 | a write-capable OPEN whose readFile fails ends the session with the lock taken but the path not recorded; after cleanup the lock is still held and another id is refused |
| `Scenarios.ReadOnlyIgnoresLocksAndPaths` | src/Server.java:171-186 | READ_ONLY opens a path locked by another id, and `../secret`, with no change to the lock table |
| `Scenarios.ChatHandlerDropsOwnChatLock` | src/Server.java:341-372 | a session with a write-capable claim on `chat.txt` keeps the claim but loses the lock after READ_CHAT |
| `ServerImpl.Server.constructor` | src/Server.java:15 | a fresh server has an empty lock table over the given storage |
| `ServerImpl.Server.PutIfAbsent` | src/Server.java:173 | returns the previous owner and inserts only when there is none |
| `ServerImpl.Server.RemoveIfOwned` | src/Server.java:276 | performs `RemoveOwned` on the lock table and leaves storage alone |
| `ServerImpl.Server.WriteFile` | src/Server.java:70-76 | performs `Append` on storage and leaves the lock table alone |
| `ServerImpl.ClientHandler.constructor` | src/Server.java:50-54 | a new session has its client id and no open files |
| `ServerImpl.ClientHandler.HandleOpenCommand` | src/Server.java:162-197 | reply, shared state and open files are exactly those of `OpenStep` |
| `ServerImpl.ClientHandler.HandleReadCommand` | src/Server.java:200-226 | the reply is exactly that of `ReadStep`, with nothing modified |
| `ServerImpl.ClientHandler.HandleWriteCommand` | src/Server.java:229-251 | reply and storage are exactly those of `WriteStep` |
| `ServerImpl.ClientHandler.HandleCloseCommand` | src/Server.java:254-284 | reply, shared state and open files are exactly those of `CloseStep` |
| `ServerImpl.ClientHandler.ClaimChatLock` | src/Server.java:300-310 | the chat lock is acquired exactly when no other id holds it, and is then this id's |
| `ServerImpl.ClientHandler.HandleSendMessage` | src/Server.java:287-333 | reply and shared state are exactly those of `SendMessageStep` |
| `ServerImpl.ClientHandler.HandleReadChat` | src/Server.java:336-374 | reply and shared state are exactly those of `ReadChatStep` |
| `ServerImpl.ClientHandler.Dispatch` | src/Server.java:107-139 | performs exactly `Step` for the request |
| `ServerImpl.ClientHandler.ReleaseLocks` | src/Server.java:147-149 | the loop over the open paths leaves the lock table as `Release` of the old one |
| `ServerImpl.ClientHandler.Perform` | src/Server.java:107-139 | one command on the shared table keeps every session's claims backed by its own locks |
| `ServerImpl.ClientHandler.Disconnect` | src/Server.java:145-149 | after the cleanup, the other sessions' claims are still backed |
| `ServerImpl.ClientHandler.Turn` | src/Server.java:99-127 | one loop turn reads a whole command and performs the next step of `Serve` |
| `ServerImpl.ClientHandler.Run` | src/Server.java:93-159 | replies, open files and shared state are those of `Serve` followed by `Release`; the other sessions' claims stay backed |
| `Cache.FileCache.constructor` | src/FileCache.java:4-6 | the three maps start empty |
| `Cache.FileCache.IsCached` | src/FileCache.java:13-15 | whether the path has cached content; `Read` returns content exactly for these paths |
| `Cache.FileCache.Read` | src/FileCache.java:21-23 | returns content exactly when the path is cached |
| `Cache.FileCache.IsModified` | src/FileCache.java:30-32 | only a cached path can be modified; a path never cached or written, or removed since, is not |
| `Cache.FileCache.CacheFile` | src/FileCache.java:8-11 | afterwards the path reads as the content, is cached and not modified, even if written before; the mode map and other paths are unchanged |
| `Cache.FileCache.SetFileMode` | src/FileCache.java:17-19 | changes only the mode entry of the path |
| `Cache.FileCache.Write` | src/FileCache.java:25-28 | afterwards the path reads as the content and is cached and modified; the mode map and other paths are unchanged |
| `Cache.FileCache.Remove` | src/FileCache.java:34-38 | afterwards the path is not cached, not modified, and has no mode entry; other paths are unchanged |
| `Cache.OtherPathsUntouched` | src/FileCache.java:8-38 | write, cacheFile, write, setFileMode and remove applied to one path p: the three maps are unchanged away from p, so another path keeps its content, flag and mode value; the flag is set by write and cleared by cacheFile, and after remove p is in none of the maps |

## Left out

- The accept loop, thread creation, socket and stream setup and closing, and logging are not modelled. Each handler call is one atomic step on the shared maps.
- The race in which the lock owner changes between `putIfAbsent` and `get` is not modelled. That race can make `get` return null.
- Line reading and `trim()` inside readFile are not modelled: they are the parameter `Host.readFile`. File existence is presence in the storage map. Directory creation and path resolution by the file system (aliasing such as `a/../b`) are not modelled.
- The banned-word filter is not modelled, because it uses Java regular expressions and case mapping. It is the parameter `Host.isValidMessage`.
- The clock is not modelled. The chat timestamp is the parameter `Env.timestamp`.
- Coordinator.WriteStep: a failed append is modelled as changing nothing. The file opened in append mode may already have been created, or part of the content flushed, before the I/O exception; that is not modelled.
- Coordinator.CloseStep: the same holds for the append of a write-capable CLOSE.
- Coordinator.SendMessageStep: the same holds for the chat append; its FAILED_TO_WRITE_CHAT reply is modelled with storage unchanged.
- ServerImpl.ClientHandler.HandleWriteCommand, ServerImpl.ClientHandler.HandleCloseCommand and ServerImpl.ClientHandler.HandleSendMessage inherit this from the steps they perform.
- Failures while writing replies to the socket are not modelled.
- Content with line breaks is not framed on the wire. readFile keeps the inner line breaks of a file, and every chat line ends in one. The replies to OPEN, READ and READ_CHAT can therefore span several lines, and a client reading line by line cannot tell where such a reply ends (`Scenarios.TwoOksReadAsContent`, `Scenarios.ContentSwallowsReply`). `Protocol.WireInjective` covers one complete reply text only.
- Coordinator.Next: the model assumes that no two live connections share a client id (the remote `host:port`). A `Connect` of an id that is already live is ignored. `System.sessions` is keyed by id, and `HandlersCoordinated` requires distinct ids. Two live handlers with one id would both pass the re-entrant owner test and could both hold write claims on one path.
- Coordinator.MutualExclusion: holds under that same assumption of distinct ids among live connections.
- The end of the stream inside a command (a null field) is excluded: `Run` requires a well-framed input.
- Client.java is not part of this model. It calls a `getFileMode` that FileCache does not define, and it frames messages with `writeUTF`, which the server's line protocol does not read.
