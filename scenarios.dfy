/** Command sequences whose outcome the code fixes, stated over the
    Coordinator steps. Each follows the handlers as written: append on WRITE
    and on CLOSE, reopening replaces the recorded mode, READ_ONLY never
    locks, and paths are not checked. */
module Scenarios {
  import opened Protocol
  import opened Coordinator

  /** Two sessions race for one file: the second write-capable OPEN is
      refused until the first session closes, and then sees what the close
      appended. */
  lemma Contention(host: Host, storage: map<string, string>, env: Env, a: string, b: string)
    requires a != b && "notes.txt" !in storage && !env.ioFails
    ensures
      var s0 := Shared(map[], storage);
      var o1 := OpenStep(s0, map[], a, "notes.txt", WRITE_ONLY, env, host);
      var o2 := OpenStep(o1.shared, map[], b, "notes.txt", WRITE_ONLY, env, host);
      var o3 := CloseStep(o2.shared, o1.openFiles, a, "notes.txt", WRITE_ONLY, "x", env);
      var o4 := OpenStep(o3.shared, o2.openFiles, b, "notes.txt", WRITE_ONLY, env, host);
      && o1.response == Replied(OkContent(""))
      && o2.response == Replied(Error(FileAlreadyLocked))
      && o3.response == Replied(Ok)
      && o4.response == Replied(OkContent(host.readFile("x")))
      && o4.shared.lockedFiles == map["notes.txt" := b]
  {
    var s0 := Shared(map[], storage);
    var o1 := OpenStep(s0, map[], a, "notes.txt", WRITE_ONLY, env, host);
    var o3 := CloseStep(o1.shared, o1.openFiles, a, "notes.txt", WRITE_ONLY, "x", env);
    assert o3.shared.lockedFiles == map[];
    assert o3.shared.storage["notes.txt"] == "x";
  }

  /** OPEN(READ_WRITE), WRITE c, CLOSE with c, then OPEN(READ_ONLY) and READ:
      because both WRITE and CLOSE append, the file now ends in c twice. */
  lemma WriteAndCloseBothAppend(host: Host, sh: Shared, id: string, p: string, c: string, env: Env)
    requires !env.ioFails && !LockedByOther(sh.lockedFiles, p, id)
    ensures
      var o1 := OpenStep(sh, map[], id, p, READ_WRITE, env, host);
      var o2 := WriteStep(o1.shared, o1.openFiles, p, c, env);
      var o3 := CloseStep(o2.shared, o2.openFiles, id, p, READ_WRITE, c, env);
      var o4 := OpenStep(o3.shared, o3.openFiles, id, p, READ_ONLY, env, host);
      && ReadStep(o4.shared, o4.openFiles, p, env, host) == Replied(OkContent(host.readFile(Stored(sh.storage, p) + c + c)))
      && o3.shared.lockedFiles == sh.lockedFiles - {p}
      && o3.openFiles == map[]
  {
    var o1 := OpenStep(sh, map[], id, p, READ_WRITE, env, host);
    var o2 := WriteStep(o1.shared, o1.openFiles, p, c, env);
    var o3 := CloseStep(o2.shared, o2.openFiles, id, p, READ_WRITE, c, env);
    assert o3.shared.storage[p] == Stored(sh.storage, p) + c + c;
    assert o3.shared.lockedFiles == sh.lockedFiles - {p};
  }

  /** Reopening a write-locked path READ_ONLY replaces the recorded mode but
      keeps the lock; closing it READ_ONLY then forgets the path without
      releasing the lock, and the disconnect cleanup, which only visits paths
      still open, leaves it too: no session with another client id can open
      the path for writing. */
  lemma DowngradedLockOutlivesSession(host: Host, sh: Shared, id: string, other: string, p: string, env: Env)
    requires id != other && !env.ioFails && !LockedByOther(sh.lockedFiles, p, id)
    ensures
      var o1 := OpenStep(sh, map[], id, p, WRITE_ONLY, env, host);
      var o2 := OpenStep(o1.shared, o1.openFiles, id, p, READ_ONLY, env, host);
      var w := WriteStep(o2.shared, o2.openFiles, p, "text", env);
      var o3 := CloseStep(o2.shared, o2.openFiles, id, p, READ_ONLY, "", env);
      var locks := Release(o3.shared.lockedFiles, o3.openFiles.Keys, id);
      var o4 := OpenStep(o3.shared.(lockedFiles := locks), map[], other, p, WRITE_ONLY, env, host);
      && o2.openFiles[p] == READ_ONLY
      && w.response == Replied(Error(FileNotOpenForWrite))
      && o3.response == Replied(Ok) && p !in o3.openFiles
      && p in locks && locks[p] == id
      && o4.response == Replied(Error(FileAlreadyLocked))
  {
    var o1 := OpenStep(sh, map[], id, p, WRITE_ONLY, env, host);
    var o2 := OpenStep(o1.shared, o1.openFiles, id, p, READ_ONLY, env, host);
    var o3 := CloseStep(o2.shared, o2.openFiles, id, p, READ_ONLY, "", env);
    assert o3.openFiles == map[];
    assert Release(o3.shared.lockedFiles, {}, id) == o3.shared.lockedFiles;
  }

  /** An OPEN whose readFile fails after putIfAbsent took the lock: the
      exception ends the session before the path is recorded as open, so the
      finally block never visits it and the lock outlives the session. */
  lemma FailedOpenLockOutlivesSession(host: Host, sh: Shared, id: string, other: string, p: string,
                                      env: nat -> Env)
    requires id != other && env(0).ioFails && !env(1).ioFails
    requires p in sh.storage && !LockedByOther(sh.lockedFiles, p, id)
    ensures
      var t := Session(sh, id, ["OPEN", p, WRITE_ONLY], env, host);
      var o := OpenStep(t.shared, map[], other, p, WRITE_ONLY, env(1), host);
      && t.replies == [] && t.openFiles == map[]
      && p in t.shared.lockedFiles && t.shared.lockedFiles[p] == id
      && o.response == Replied(Error(FileAlreadyLocked))
  {
    var input := ["OPEN", p, WRITE_ONLY];
    assert input[1..3] == [p, WRITE_ONLY] && input[3..] == [];
    var u := Serve(sh, map[], id, input, 0, env, host);
    assert u == Trace(sh.(lockedFiles := sh.lockedFiles[p := id]), map[], []);
    assert Release(u.shared.lockedFiles, {}, id) == u.shared.lockedFiles;
  }

  /** A READ_ONLY open ignores a lock held by another session, and a path
      that climbs out of the storage directory is opened like any other. */
  lemma ReadOnlyIgnoresLocksAndPaths(host: Host, sh: Shared, id: string, env: Env)
    requires !env.ioFails && "../secret" in sh.storage
    requires "../secret" in sh.lockedFiles && sh.lockedFiles["../secret"] != id
    ensures
      var o := OpenStep(sh, map[], id, "../secret", READ_ONLY, env, host);
      && o.response == Replied(OkContent(host.readFile(sh.storage["../secret"])))
      && o.shared == sh
      && o.openFiles == map["../secret" := READ_ONLY]
  {
  }

  /** A session holding a write-capable claim on the chat file loses its
      lock as soon as it reads the chat, while the claim stays recorded;
      this is why the chat file is outside the ownership invariant. */
  lemma ChatHandlerDropsOwnChatLock(host: Host, sh: Shared, id: string, env: Env)
    requires !env.ioFails && !LockedByOther(sh.lockedFiles, CHAT_FILE, id)
    ensures
      var o1 := OpenStep(sh, map[], id, CHAT_FILE, WRITE_ONLY, env, host);
      var o2 := ReadChatStep(o1.shared, o1.openFiles, id, env, host);
      && o1.shared.lockedFiles[CHAT_FILE] == id
      && o2.openFiles[CHAT_FILE] == WRITE_ONLY
      && CHAT_FILE !in o2.shared.lockedFiles
  {
  }

  /** On the connection, replies follow each other and content is not
      framed: two bare OKs read like one OK whose content is "OK". */
  lemma TwoOksReadAsContent()
    ensures Wire(Ok) + Wire(Ok) == Wire(OkContent("OK"))
  {
    assert Wire(Ok) == "OK\n";
    assert Wire(OkContent("OK")) == "OK\n" + "OK" + "\n";
  }

  /** Content with a line break can hold what reads as a further reply: an
      OK with content a followed by an error reads like one OK whose content
      runs on into the error text. */
  lemma ContentSwallowsReply(a: string)
    ensures Wire(OkContent(a)) + Wire(Error(InvalidMode)) == Wire(OkContent(a + "\nERROR:INVALID_MODE"))
  {
    var e := "ERROR:INVALID_MODE";
    assert Wire(Error(InvalidMode)) == e + "\n";
    assert "\nERROR:INVALID_MODE" == "\n" + e;
    Regroup("OK\n", a, "\n", e);
  }

  /** Concatenation regrouped: a line-ending n moved across the join. */
  lemma Regroup(p: string, a: string, n: string, e: string)
    ensures (p + a + n) + (e + n) == p + (a + (n + e)) + n
  {
  }
}
