/** Properties of the dispatcher: the history invariants every message
    preserves, what each kind of message may change, the `back` transition,
    the registry round trip, and the navigation scenario `dir a`, `dir b`, `back`.
 */
module ServerProperties {
  import opened PyValues
  import opened Settings
  import opened Encoder
  import opened Validator
  import opened History
  import opened Server

  /** The history invariant: both deques within capacity, and no two
      neighbouring BACK entries for the same directory. */
  predicate Inv(s: State)
  {
    && |s.back| <= Capacity
    && |s.forward| <= Capacity
    && NoAdjacentRepeat(s.back)
  }

  /** A message that gets past the checks at the top of `handle_message`:
      validation, and the string `cwd` that `os.chdir` needs. */
  predicate Admitted(message: Message)
  {
    Preflight(message - {"nvimAddress"}).Done?
  }

  /** A `dir` or `file` message is the preflight checks followed by
      `Navigate`. */
  lemma HandleDirFile(cfg: Config, s: State, conn: ConnId, message: Message)
    requires GetOr(message, "func", Null) in {Str("dir"), Str("file")}
    ensures var msg := message - {"nvimAddress"};
            var pre := Preflight(msg);
            HandleMessage(cfg, s, conn, message) ==
              if pre.Raised? then Step(s, [], pre)
              else Navigate(cfg, s, GetOr(message, "func", Null) == Str("dir"), msg)
  {
  }

  /** What `PrepareDir` may add to the message: a rendered `cwdBody`, or the
      view's own open-file fields. */
  lemma PrepareDirKeys(cfg: Config, view: Message, msg: Message)
    ensures var r := PrepareDir(cfg, view, msg);
            r.Ok? ==> forall k :: k in r.value ==>
              || (k in msg && k != "cwdBody" && k != "cwdEncoded" &&
                  !(KeepsOpenFile(view, msg) && k in OpenFileKeys) && r.value[k] == msg[k])
              || k in {"cwdBody", "cwdEncoded"}
              || (KeepsOpenFile(view, msg) && k in OpenFileKeys && k in view && r.value[k] == view[k])
  {
    var c := CarryOpenFile(view, msg);
    if c.Ok? {
      var r := ListDirectoryIfStale(cfg, c.value);
      if r.Ok? {
        forall k | k in r.value
          ensures || (k in msg && k != "cwdBody" && k != "cwdEncoded" &&
                      !(KeepsOpenFile(view, msg) && k in OpenFileKeys) && r.value[k] == msg[k])
                  || k in {"cwdBody", "cwdEncoded"}
                  || (KeepsOpenFile(view, msg) && k in OpenFileKeys && k in view && r.value[k] == view[k])
        {
          if k !in {"cwdBody", "cwdEncoded"} {
            assert k in c.value && r.value[k] == c.value[k];
            if KeepsOpenFile(view, msg) && k in OpenFileKeys {
              var i :| 0 <= i < |OpenFileKeys| && OpenFileKeys[i] == k;
            } else {
              assert k in msg;
            }
          }
        }
      }
    }
  }

  /** The start-up state satisfies the invariant. */
  lemma InitialInv()
    ensures Inv(Initial)
  {
  }

  /** Every message, from every connection, preserves the invariant: BACK
      and FORWARD never exceed 20 entries and BACK never holds the same
      directory twice in a row, whether the handler returns or raises. */
  lemma {:induction false} HandlePreservesInv(cfg: Config, s: State, conn: ConnId, message: Message)
    requires Inv(s)
    ensures Inv(HandleMessage(cfg, s, conn, message).state)
    decreases DispatchRank(message)
  {
    var func := GetOr(message, "func", Null);
    var msg := message - {"nvimAddress"};
    if ValidateMessage(msg).Done? && !("cwd" in msg && !msg["cwd"].Str?) && func == Str("back") && |s.back| >= 2 {
      var fileOpen := Truthy(GetOr(msg, "fileOpen", Null));
      var entry := if fileOpen then s.back[0] else s.back[1];
      var back := if fileOpen then s.back[1..] else s.back[2..];
      var forward := Evict(if fileOpen then s.forward else [s.back[0]] + s.forward);
      NoAdjacentRepeatSlice(s.back, if fileOpen then 1 else 2, |s.back|);
      assert back == s.back[(if fileOpen then 1 else 2)..|s.back|];
      assert DispatchRank(entry.AsMessage()) == 0;
      HandlePreservesInv(cfg, s.(back := back, forward := forward), conn, entry.AsMessage());
    }
  }

  /** Only `dir`, `file` and `back` touch the state: `editFile`,
      `numJSClients`, a missing or empty `func`, and unknown ones such as the
      browser's `newjsclient` handshake leave the view, both deques and the
      registry as they were. */
  lemma OtherFuncsLeaveStateAlone(cfg: Config, s: State, conn: ConnId, message: Message)
    requires GetOr(message, "func", Null) !in {Str("dir"), Str("file"), Str("back")}
    ensures HandleMessage(cfg, s, conn, message).state == s
  {
  }

  /** `numJSClients` answers the asking connection with the number of
      registered browsers, and does nothing else. */
  lemma NumJsClientsReplies(cfg: Config, s: State, conn: ConnId, message: Message)
    requires Admitted(message)
    requires GetOr(message, "func", Null) == Str("numJSClients")
    ensures HandleMessage(cfg, s, conn, message) ==
              Step(s, [SendTo(conn, CountPayload(|s.jsClients|))], Done)
  {
  }

  /** `editFile` asks the editor to open the view's file and changes no
      state; a view without a string `fileCwd` and `filename` raises. */
  lemma EditFileOpensEditor(cfg: Config, s: State, conn: ConnId, message: Message)
    requires Admitted(message)
    requires GetOr(message, "func", Null) == Str("editFile")
    ensures var r := HandleMessage(cfg, s, conn, message);
            && r.state == s
            && (r.outcome.Done? <==> EditorPath(cfg, s.view).Ok?)
            && (r.outcome.Done? ==> r.out == [OpenInEditor(cfg.home + s.view["fileCwd"].s + s.view["filename"].s)])
  {
  }

  /** `back` with fewer than two history entries is a no-op. */
  lemma BackWithShortHistoryIsNoop(cfg: Config, s: State, conn: ConnId, message: Message)
    requires Admitted(message)
    requires GetOr(message, "func", Null) == Str("back")
    requires |s.back| < 2
    ensures HandleMessage(cfg, s, conn, message) == Step(s, [], Done)
  {
  }

  /** `dir` and `file` merge into the view by key: a key the incoming message
      lacks keeps its old value, except the four the dispatcher may fill in
      itself (`cwdBody` and `cwdEncoded` from the directory listing,
      `fileEncoding` and `fileEncoded` from the encoder). */
  lemma MergeKeepsAbsentKeys(cfg: Config, s: State, conn: ConnId, message: Message)
    requires GetOr(message, "func", Null) in {Str("dir"), Str("file")}
    ensures var view := HandleMessage(cfg, s, conn, message).state.view;
            forall k :: k in s.view && k !in message && k !in {"cwdBody", "cwdEncoded", "fileEncoding", "fileEncoded"} ==>
              k in view && view[k] == s.view[k]
  {
    HandleDirFile(cfg, s, conn, message);
    var msg := message - {"nvimAddress"};
    if Preflight(msg).Done? {
      var isDir := GetOr(message, "func", Null) == Str("dir");
      var prepared := if isDir then PrepareDir(cfg, s.view, msg) else Encode(cfg, msg);
      if prepared.Ok? && isDir {
        PrepareDirKeys(cfg, s.view, msg);
      }
    }
  }

  /** `dir` and `file` merge into the view by key: once the merge happened,
      the incoming value wins for every key the dispatcher does not itself
      rewrite. */
  lemma MergeTakesIncomingKeys(cfg: Config, s: State, conn: ConnId, message: Message)
    requires GetOr(message, "func", Null) in {Str("dir"), Str("file")}
    requires !KeepsOpenFile(s.view, message)
    ensures var view := HandleMessage(cfg, s, conn, message).state.view;
            || view == s.view
            || (forall k :: k in message && k !in {"nvimAddress", "forceClose", "cwdBody", "cwdEncoded",
                                                   "fileBody", "fileEncoding", "fileEncoded"} ==>
                  k in view && view[k] == message[k])
  {
    HandleDirFile(cfg, s, conn, message);
    var msg := message - {"nvimAddress"};
    assert KeepsOpenFile(s.view, msg) == KeepsOpenFile(s.view, message);
  }

  /** Directory navigation does not close an open file: a `dir` message with
      no file name, while the view has one and no `forceClose` is set, keeps
      the view's five open-file fields. */
  lemma DirCarriesOpenFile(cfg: Config, s: State, conn: ConnId, message: Message)
    requires GetOr(message, "func", Null) == Str("dir")
    requires KeepsOpenFile(s.view, message)
    ensures var r := HandleMessage(cfg, s, conn, message);
            r.outcome.Done? ==>
              forall i :: 0 <= i < |OpenFileKeys| ==>
                OpenFileKeys[i] in s.view && OpenFileKeys[i] in r.state.view &&
                r.state.view[OpenFileKeys[i]] == s.view[OpenFileKeys[i]]
  {
    HandleDirFile(cfg, s, conn, message);
    var msg := message - {"nvimAddress"};
    assert KeepsOpenFile(s.view, msg);
    DirNavigateCarries(cfg, s, msg);
  }

  /** `Navigate` for a `dir` message that keeps the open file. */
  lemma DirNavigateCarries(cfg: Config, s: State, msg: Message)
    requires KeepsOpenFile(s.view, msg)
    ensures var r := Navigate(cfg, s, true, msg);
            r.outcome.Done? ==>
              forall i :: 0 <= i < |OpenFileKeys| ==>
                OpenFileKeys[i] in s.view && OpenFileKeys[i] in r.state.view &&
                r.state.view[OpenFileKeys[i]] == s.view[OpenFileKeys[i]]
  {
    var p := PrepareDir(cfg, s.view, msg);
    assert Navigate(cfg, s, true, msg).outcome.Done? ==> p.Ok?;
  }

  /** A `dir` message that names a file, or closes the view's file, or
      arrives while no file is open, replaces the open-file fields with its
      own. */
  lemma DirWithoutCarryTakesMessageFileFields(cfg: Config, s: State, conn: ConnId, message: Message)
    requires GetOr(message, "func", Null) == Str("dir")
    requires !KeepsOpenFile(s.view, message)
    ensures var r := HandleMessage(cfg, s, conn, message);
            r.outcome.Done? ==>
              forall i :: 0 <= i < |OpenFileKeys| && OpenFileKeys[i] in message ==>
                OpenFileKeys[i] in r.state.view && r.state.view[OpenFileKeys[i]] == message[OpenFileKeys[i]]
  {
    HandleDirFile(cfg, s, conn, message);
    var msg := message - {"nvimAddress"};
    assert KeepsOpenFile(s.view, msg) == KeepsOpenFile(s.view, message);
    DirNavigateWithoutCarry(cfg, s, msg);
    forall i | 0 <= i < |OpenFileKeys| && OpenFileKeys[i] in message
      ensures OpenFileKeys[i] in msg && msg[OpenFileKeys[i]] == message[OpenFileKeys[i]]
    {
      assert OpenFileKeys[i] != "nvimAddress";
    }
  }

  /** `Navigate` for a `dir` message that does not keep the open file. */
  lemma DirNavigateWithoutCarry(cfg: Config, s: State, msg: Message)
    requires !KeepsOpenFile(s.view, msg)
    ensures var r := Navigate(cfg, s, true, msg);
            r.outcome.Done? ==>
              forall i :: 0 <= i < |OpenFileKeys| && OpenFileKeys[i] in msg ==>
                OpenFileKeys[i] in r.state.view && r.state.view[OpenFileKeys[i]] == msg[OpenFileKeys[i]]
  {
    var p := PrepareDir(cfg, s.view, msg);
    assert Navigate(cfg, s, true, msg).outcome.Done? ==> p.Ok?;
  }

  /** The `dir` branch renders the directory body exactly when it is not
      encoded yet, and the view's body is encoded afterwards. */
  lemma DirListsStaleDirectory(cfg: Config, s: State, msg: Message)
    ensures var r := Navigate(cfg, s, true, msg);
            r.outcome.Done? ==>
              && "cwdEncoded" in msg
              && "cwdEncoded" in r.state.view && Truthy(r.state.view["cwdEncoded"])
              && (!Truthy(msg["cwdEncoded"]) ==>
                    "cwd" in msg && msg["cwd"].Str? && "cwdBody" in r.state.view &&
                    r.state.view["cwdBody"] == Str(cfg.listDirectory(msg["cwd"].s)))
              && (Truthy(msg["cwdEncoded"]) && "cwdBody" in msg ==>
                    "cwdBody" in r.state.view && r.state.view["cwdBody"] == msg["cwdBody"])
  {
    var r := Navigate(cfg, s, true, msg);
    if r.outcome.Done? {
      var c := CarryOpenFile(s.view, msg);
      assert c.Ok?;
      var m := ListDirectoryIfStale(cfg, c.value);
      assert m.Ok?;
      assert r.state.view == s.view + m.value;
      assert "cwdEncoded" in c.value;
      assert "cwdEncoded" != "forceClose";
      assert "cwdEncoded" !in OpenFileKeys;
      assert "cwdEncoded" in msg;
      assert c.value["cwdEncoded"] == msg["cwdEncoded"];
      if Truthy(msg["cwdEncoded"]) {
        assert m.value == c.value;
        if "cwdBody" in msg {
          assert "cwdBody" != "forceClose" && "cwdBody" !in OpenFileKeys;
          assert c.value["cwdBody"] == msg["cwdBody"];
        }
      } else {
        assert "cwd" in c.value;
        assert "cwd" != "forceClose" && "cwd" !in OpenFileKeys;
        assert "cwd" in msg;
        assert c.value["cwd"] == msg["cwd"];
        assert m.value["cwdBody"] == Str(cfg.listDirectory(c.value["cwd"].s));
      }
    }
  }

  /** A `file` message is encoded before the merge: the view then reports it
      encoded, with a kind the encoder renders. */
  lemma FileIsEncodedBeforeMerge(cfg: Config, s: State, conn: ConnId, message: Message)
    requires GetOr(message, "func", Null) == Str("file")
    ensures var r := HandleMessage(cfg, s, conn, message);
            r.outcome.Done? && !Truthy(GetOr(message, "fileEncoded", Bool(false))) ==>
              && "fileEncoded" in r.state.view && r.state.view["fileEncoded"] == Bool(true)
              && "fileEncoding" in r.state.view && r.state.view["fileEncoding"] in KnownEncodings
  {
    var msg := message - {"nvimAddress"};
    assert GetOr(msg, "fileEncoded", Bool(false)) == GetOr(message, "fileEncoded", Bool(false));
  }

  /** After a `dir` or `file` message is handled, FORWARD is untouched, BACK
      is the history push of the new view (so BACK's front now names the
      view's directory), and every browser is sent the new view once; in
      interactive mode a `file` message first opens the view's file in the
      editor. */
  lemma DirFilePushesHistory(cfg: Config, s: State, conn: ConnId, message: Message)
    requires GetOr(message, "func", Null) in {Str("dir"), Str("file")}
    ensures var r := HandleMessage(cfg, s, conn, message);
            && r.state.forward == s.forward
            && (r.outcome.Done? ==>
                  && PushHistory(r.state.view, s.back).Ok?
                  && r.state.back == PushHistory(r.state.view, s.back).value
                  && |r.state.back| > 0
                  && PyEq(r.state.view["cwd"], r.state.back[0].cwd)
                  && (GetOr(message, "func", Null) == Str("dir") || !cfg.interactive ==>
                        r.out == BroadcastView(s.jsClients, r.state.view))
                  && (GetOr(message, "func", Null) == Str("file") && cfg.interactive ==>
                        && EditorPath(cfg, r.state.view).Ok?
                        && r.out == [OpenInEditor(EditorPath(cfg, r.state.view).value)] +
                                    BroadcastView(s.jsClients, r.state.view)))
  {
    HandleDirFile(cfg, s, conn, message);
  }

  /** A `dir` message's own fields outside the open file and the listing
      reach the view unchanged. */
  lemma DirTakesMessageFields(cfg: Config, s: State, msg: Message)
    ensures var r := Navigate(cfg, s, true, msg);
            r.outcome.Done? ==>
              forall k :: k in msg && k !in {"forceClose", "cwdBody", "cwdEncoded"} && k !in OpenFileKeys ==>
                k in r.state.view && r.state.view[k] == msg[k]
  {
    var r := Navigate(cfg, s, true, msg);
    if r.outcome.Done? {
      var c := CarryOpenFile(s.view, msg);
      assert c.Ok?;
      var l := ListDirectoryIfStale(cfg, c.value);
      assert l.Ok?;
      assert r.state.view == s.view + l.value;
      forall k | k in msg && k !in {"forceClose", "cwdBody", "cwdEncoded"} && k !in OpenFileKeys
        ensures k in r.state.view && r.state.view[k] == msg[k]
      {
        assert k in c.value && c.value[k] == msg[k];
        assert k in l.value && l.value[k] == c.value[k];
      }
    }
  }

  /** A history snapshot handed back to the dispatcher is a `dir` message
      that passes validation, so it is `Navigate` unless its directory is not
      a string, which `os.chdir` rejects. */
  lemma SnapshotDispatch(cfg: Config, s: State, conn: ConnId, e: Snapshot)
    ensures e.cwd.Str? ==> HandleMessage(cfg, s, conn, e.AsMessage()) == Navigate(cfg, s, true, e.AsMessage())
    ensures !e.cwd.Str? ==> HandleMessage(cfg, s, conn, e.AsMessage()) == Step(s, [], Raised(TypeError))
  {
    var m := e.AsMessage();
    HandleDirFile(cfg, s, conn, m);
    assert m - {"nvimAddress"} == m;
    assert ValidateMessage(m).Done?;
  }

  /** Re-dispatching a history snapshot moves the view to its directory with
      the file pane closed, and pushes that directory onto BACK when BACK's
      front names another one. */
  lemma RedispatchSnapshot(cfg: Config, s: State, conn: ConnId, e: Snapshot)
    ensures var r := HandleMessage(cfg, s, conn, e.AsMessage());
            && r.state.forward == s.forward
            && (r.outcome.Done? ==>
                  && "cwd" in r.state.view && r.state.view["cwd"] == e.cwd
                  && "fileOpen" in r.state.view && r.state.view["fileOpen"] == Bool(false)
                  && PushHistory(r.state.view, s.back).Ok?
                  && r.state.back == PushHistory(r.state.view, s.back).value)
  {
    SnapshotDispatch(cfg, s, conn, e);
    if e.cwd.Str? {
      SnapshotNavigate(cfg, s, e.AsMessage());
    }
  }

  /** `Navigate` on a snapshot's message, or any `dir` message that names a
      directory and closes the file pane. */
  lemma SnapshotNavigate(cfg: Config, s: State, m: Message)
    requires "cwd" in m && "fileOpen" in m && m["fileOpen"] == Bool(false)
    ensures var r := Navigate(cfg, s, true, m);
            && r.state.forward == s.forward
            && (r.outcome.Done? ==>
                  && "cwd" in r.state.view && r.state.view["cwd"] == m["cwd"]
                  && "fileOpen" in r.state.view && r.state.view["fileOpen"] == Bool(false)
                  && PushHistory(r.state.view, s.back).Ok?
                  && r.state.back == PushHistory(r.state.view, s.back).value)
  {
    var r := Navigate(cfg, s, true, m);
    DirNavigateCommits(cfg, s, m);
    DirTakesMessageFields(cfg, s, m);
    assert "cwd" !in {"forceClose", "cwdBody", "cwdEncoded"} && "cwd" !in OpenFileKeys;
    assert "fileOpen" !in {"forceClose", "cwdBody", "cwdEncoded"} && "fileOpen" !in OpenFileKeys;
    if r.outcome.Done? {
      var p := PrepareDir(cfg, s.view, m).value;
      assert r.state.view == s.view + p;
      assert r.state.back == PushHistory(s.view + p, s.back).value;
    }
  }

  /** A completed `dir` is its prepared message committed. */
  lemma DirNavigateCommits(cfg: Config, s: State, msg: Message)
    ensures var r := Navigate(cfg, s, true, msg);
            && r.state.forward == s.forward
            && (r.outcome.Done? ==> PrepareDir(cfg, s.view, msg).Ok? &&
                                    r == Commit(s, PrepareDir(cfg, s.view, msg).value))
  {
  }

  /** An admitted `back` with at least two history entries pops one entry
      (from the file pane) or two (from the directory pane, the first going
      to FORWARD) and re-dispatches the entry that names the directory to
      return to. */
  lemma BackUnfold(cfg: Config, s: State, conn: ConnId, message: Message)
    requires Admitted(message)
    requires GetOr(message, "func", Null) == Str("back")
    requires |s.back| >= 2
    ensures var fileOpen := Truthy(GetOr(message, "fileOpen", Null));
            var entry := if fileOpen then s.back[0] else s.back[1];
            var back := if fileOpen then s.back[1..] else s.back[2..];
            var forward := Evict(if fileOpen then s.forward else [s.back[0]] + s.forward);
            HandleMessage(cfg, s, conn, message) ==
              HandleMessage(cfg, s.(back := back, forward := forward), conn, entry.AsMessage())
  {
    var msg := message - {"nvimAddress"};
    assert GetOr(msg, "fileOpen", Null) == GetOr(message, "fileOpen", Null);
  }

  /** `back` from the directory pane: BACK's front moves to FORWARD's front
      (FORWARD still holds at most 20), the next entry becomes the view's
      directory and BACK's front again, and the older entries stay. */
  lemma BackFromDirectory(cfg: Config, s: State, conn: ConnId, message: Message)
    requires Inv(s)
    requires Admitted(message)
    requires GetOr(message, "func", Null) == Str("back")
    requires |s.back| >= 2
    requires !Truthy(GetOr(message, "fileOpen", Null))
    ensures var r := HandleMessage(cfg, s, conn, message);
            && r.state.forward == Evict([s.back[0]] + s.forward)
            && r.state.forward[0] == s.back[0]
            && |r.state.forward| <= Capacity
            && (r.outcome.Done? ==>
                  && "cwd" in r.state.view && r.state.view["cwd"] == s.back[1].cwd
                  && |r.state.back| == |s.back| - 1
                  && r.state.back[0].cwd == s.back[1].cwd
                  && r.state.back[1..] == s.back[2..])
  {
    BackUnfold(cfg, s, conn, message);
    var s' := s.(back := s.back[2..], forward := Evict([s.back[0]] + s.forward));
    RedispatchSnapshot(cfg, s', conn, s.back[1]);
    var r := HandleMessage(cfg, s', conn, s.back[1].AsMessage());
    if r.outcome.Done? {
      assert |s'.back| > 0 ==> !PyEq(s.back[1].cwd, s'.back[0].cwd);
      assert ShouldPush(r.state.view, s'.back);
    }
  }

  /** `back` from the file pane: one entry is popped and re-dispatched. It
      names the view's own directory, so the view returns to that directory
      with the file pane closed, BACK keeps its length and its older entries,
      and FORWARD is untouched. */
  lemma BackFromFile(cfg: Config, s: State, conn: ConnId, message: Message)
    requires Inv(s)
    requires Admitted(message)
    requires GetOr(message, "func", Null) == Str("back")
    requires |s.back| >= 2
    requires Truthy(GetOr(message, "fileOpen", Null))
    ensures var r := HandleMessage(cfg, s, conn, message);
            && r.state.forward == s.forward
            && (r.outcome.Done? ==>
                  && "cwd" in r.state.view && r.state.view["cwd"] == s.back[0].cwd
                  && "fileOpen" in r.state.view && r.state.view["fileOpen"] == Bool(false)
                  && |r.state.back| == |s.back|
                  && r.state.back[0].cwd == s.back[0].cwd
                  && r.state.back[1..] == s.back[1..])
  {
    BackUnfold(cfg, s, conn, message);
    var s' := s.(back := s.back[1..], forward := Evict(s.forward));
    assert Evict(s.forward) == s.forward;
    RedispatchSnapshot(cfg, s', conn, s.back[0]);
    var r := HandleMessage(cfg, s', conn, s.back[0].AsMessage());
    if r.outcome.Done? {
      assert !PyEq(s.back[0].cwd, s'.back[0].cwd);
      assert ShouldPush(r.state.view, s'.back);
    }
  }

  /** A producer's full `dir` message for directory `cwd`, with its listing
      still to be rendered and no file open. */
  function DirMessage(cwd: string): (m: Message)
    ensures m.Keys == RequiredKeys
    ensures m["func"] == Str("dir") && m["client"] == Str("py") && m["cwd"] == Str(cwd)
    ensures m["cwdEncoded"] == Bool(false) && m["filename"] == Str("")
  {
    map[
      "client" := Str("py"), "func" := Str("dir"),
      "cwd" := Str(cwd), "cwdBody" := Str(""), "cwdEncoded" := Bool(false),
      "filename" := Str(""), "fileBody" := Str(""), "fileCwd" := Str(cwd),
      "fileOpen" := Bool(false), "fileEncoding" := Str(""), "fileEncoded" := Bool(false)
    ]
  }

  /** The browser's back button. */
  const BackMessage: Message := map["client" := Str("js"), "func" := Str("back")]

  /** A `dir` message that carries every field the history push reads, a
      string directory, and no carried file always completes. */
  lemma DirCompletes(cfg: Config, s: State, msg: Message)
    requires "cwd" in msg && msg["cwd"].Str? && "cwdBody" in msg && "cwdEncoded" in msg
    requires !KeepsOpenFile(s.view, msg)
    ensures Navigate(cfg, s, true, msg).outcome.Done?
  {
    var c := CarryOpenFile(s.view, msg);
    assert "cwd" !in {"forceClose", "cwdBody", "cwdEncoded"} && "cwd" !in OpenFileKeys;
    assert "cwd" in c.value && c.value["cwd"] == msg["cwd"];
    assert "cwdBody" in c.value && "cwdEncoded" in c.value;
    var l := ListDirectoryIfStale(cfg, c.value);
    assert l.Ok?;
    assert "cwd" in l.value && "cwdBody" in l.value && "cwdEncoded" in l.value;
  }

  /** One complete `dir` message, naming no file, on a view with no file
      open: it completes, the view's directory is the message's with no file,
      and BACK gets the push. */
  lemma DirStep(cfg: Config, s: State, conn: ConnId, m: Message)
    requires m.Keys == RequiredKeys && "nvimAddress" !in m
    requires m["func"] == Str("dir") && m["cwd"].Str? && m["filename"] == Str("")
    requires !Truthy(GetOr(s.view, "filename", Null))
    ensures var r := HandleMessage(cfg, s, conn, m);
            && r.outcome.Done?
            && "cwd" in r.state.view && r.state.view["cwd"] == m["cwd"]
            && "filename" in r.state.view && r.state.view["filename"] == Str("")
            && r.state.back == PushHistory(r.state.view, s.back).value
            && r.state.forward == s.forward
  {
    HandleDirFile(cfg, s, conn, m);
    assert m - {"nvimAddress"} == m;
    assert ValidateMessage(m).Done?;
    assert Preflight(m).Done?;
    DirNavigateStep(cfg, s, m);
  }

  /** `Navigate` for a complete `dir` message that names no file, on a view
      with no file open. */
  lemma DirNavigateStep(cfg: Config, s: State, m: Message)
    requires "cwd" in m && m["cwd"].Str? && "cwdBody" in m && "cwdEncoded" in m
    requires "filename" in m && m["filename"] == Str("")
    requires !Truthy(GetOr(s.view, "filename", Null))
    ensures var r := Navigate(cfg, s, true, m);
            && r.outcome.Done?
            && "cwd" in r.state.view && r.state.view["cwd"] == m["cwd"]
            && "filename" in r.state.view && r.state.view["filename"] == Str("")
            && r.state.back == PushHistory(r.state.view, s.back).value
            && r.state.forward == s.forward
  {
    assert !KeepsOpenFile(s.view, m);
    DirCompletes(cfg, s, m);
    DirNavigateCommits(cfg, s, m);
    DirTakesMessageFields(cfg, s, m);
    assert "cwd" !in {"forceClose", "cwdBody", "cwdEncoded"} && "cwd" !in OpenFileKeys;
    var c := CarryOpenFile(s.view, m);
    assert c.value["filename"] == Str("");
    var l := ListDirectoryIfStale(cfg, c.value);
    assert l.value["filename"] == Str("");
    assert PrepareDir(cfg, s.view, m) == l;
  }

  /** The first half of the scenario: `dir a` then `dir b` from an empty
      server leaves `b` then `a` on BACK, FORWARD empty, and no file open. */
  lemma TwoDirectories(cfg: Config, conn: ConnId, a: string, b: string)
    requires a != b
    ensures var s1 := HandleMessage(cfg, Initial, conn, DirMessage(a));
            var s2 := HandleMessage(cfg, s1.state, conn, DirMessage(b));
            && s1.outcome.Done? && s2.outcome.Done?
            && Inv(s2.state)
            && |s2.state.back| == 2 && s2.state.back[0].cwd == Str(b) && s2.state.back[1].cwd == Str(a)
            && s2.state.forward == []
            && "filename" in s2.state.view && s2.state.view["filename"] == Str("")
  {
    TwoDirSteps(cfg, conn, DirMessage(a), DirMessage(b));
  }

  /** Two complete `dir` messages for different directories, naming no
      file, from an empty server. */
  lemma TwoDirSteps(cfg: Config, conn: ConnId, m1: Message, m2: Message)
    requires m1.Keys == RequiredKeys && m2.Keys == RequiredKeys
    requires m1["func"] == Str("dir") && m1["cwd"].Str? && m1["filename"] == Str("")
    requires m2["func"] == Str("dir") && m2["cwd"].Str? && m2["filename"] == Str("")
    requires m1["cwd"] != m2["cwd"]
    ensures var s1 := HandleMessage(cfg, Initial, conn, m1);
            var s2 := HandleMessage(cfg, s1.state, conn, m2);
            && s1.outcome.Done? && s2.outcome.Done?
            && Inv(s2.state)
            && |s2.state.back| == 2 && s2.state.back[0].cwd == m2["cwd"] && s2.state.back[1].cwd == m1["cwd"]
            && s2.state.forward == []
            && "filename" in s2.state.view && s2.state.view["filename"] == Str("")
  {
    var s1 := HandleMessage(cfg, Initial, conn, m1);
    DirStep(cfg, Initial, conn, m1);
    PushOntoRoom(s1.state.view, []);
    var s2 := HandleMessage(cfg, s1.state, conn, m2);
    DirStep(cfg, s1.state, conn, m2);
    assert ShouldPush(s2.state.view, s1.state.back);
    PushOntoRoom(s2.state.view, s1.state.back);
    HandlePreservesInv(cfg, Initial, conn, m1);
    HandlePreservesInv(cfg, s1.state, conn, m2);
  }

  /** The browser's back button from the directory pane, with two entries on
      BACK and no file open, completes: the view returns to the older entry's
      directory and the newer entry is FORWARD's front. */
  lemma BackButtonCompletes(cfg: Config, s: State, conn: ConnId)
    requires Inv(s) && |s.back| >= 2 && s.back[1].cwd.Str?
    requires "filename" in s.view && s.view["filename"] == Str("")
    ensures var r := HandleMessage(cfg, s, conn, BackMessage);
            && r.outcome.Done?
            && "cwd" in r.state.view && r.state.view["cwd"] == s.back[1].cwd
            && r.state.forward == Evict([s.back[0]] + s.forward)
  {
    assert Admitted(BackMessage) by {
      assert BackMessage - {"nvimAddress"} == BackMessage;
    }
    BackFromDirectory(cfg, s, conn, BackMessage);
    BackUnfold(cfg, s, conn, BackMessage);
    var s' := s.(back := s.back[2..], forward := Evict([s.back[0]] + s.forward));
    var e := s.back[1];
    SnapshotDispatch(cfg, s', conn, e);
    var m := e.AsMessage();
    assert !KeepsOpenFile(s'.view, m);
    DirCompletes(cfg, s', m);
  }

  /** Scenario: `dir a`, then `dir b` for another directory, then `back`
      from the directory pane, starting from an empty server, leaves the view
      at `a` and the `b` entry alone on FORWARD. */
  lemma NavigateAndGoBack(cfg: Config, conn: ConnId, a: string, b: string)
    requires a != b
    ensures var s1 := HandleMessage(cfg, Initial, conn, DirMessage(a));
            var s2 := HandleMessage(cfg, s1.state, conn, DirMessage(b));
            var s3 := HandleMessage(cfg, s2.state, conn, BackMessage);
            && s1.outcome.Done? && s2.outcome.Done? && s3.outcome.Done?
            && "cwd" in s3.state.view && s3.state.view["cwd"] == Str(a)
            && |s3.state.forward| == 1 && s3.state.forward[0].cwd == Str(b)
  {
    TwoDirectories(cfg, conn, a, b);
    var s1 := HandleMessage(cfg, Initial, conn, DirMessage(a));
    var s2 := HandleMessage(cfg, s1.state, conn, DirMessage(b));
    BackButtonCompletes(cfg, s2.state, conn);
  }

  /** `Navigate` reads the client sets only to address the broadcast: on
      the same view and history it reaches the same view, history and
      outcome whoever is connected, and the same sends when the browsers are
      the same. */
  lemma NavigateIgnoresRegistry(cfg: Config, s: State, isDir: bool, msg: Message, js: set<ConnId>, py: set<ConnId>)
    ensures var a := Navigate(cfg, s, isDir, msg);
            var b := Navigate(cfg, s.(jsClients := js, pyClients := py), isDir, msg);
            && b.state == a.state.(jsClients := js, pyClients := py)
            && b.outcome == a.outcome
            && (js == s.jsClients ==> b.out == a.out)
  {
  }

  /** Dispatch reads the client sets only to answer `numJSClients` and to
      address broadcasts: on the same view and history it reaches the same
      view, history and outcome whoever is connected, and the same sends
      when the browsers are the same. */
  lemma {:induction false} DispatchIgnoresRegistry(cfg: Config, s: State, conn: ConnId, message: Message,
                                                   js: set<ConnId>, py: set<ConnId>)
    ensures var a := HandleMessage(cfg, s, conn, message);
            var b := HandleMessage(cfg, s.(jsClients := js, pyClients := py), conn, message);
            && b.state == a.state.(jsClients := js, pyClients := py)
            && b.outcome == a.outcome
            && (js == s.jsClients ==> b.out == a.out)
    decreases DispatchRank(message)
  {
    var s' := s.(jsClients := js, pyClients := py);
    var func := GetOr(message, "func", Null);
    var msg := message - {"nvimAddress"};
    if Preflight(msg).Done? && Truthy(func) {
      if func == Str("back") && |s.back| >= 2 {
        var fileOpen := Truthy(GetOr(msg, "fileOpen", Null));
        var entry := if fileOpen then s.back[0] else s.back[1];
        var back := if fileOpen then s.back[1..] else s.back[2..];
        var forward := Evict(if fileOpen then s.forward else [s.back[0]] + s.forward);
        assert DispatchRank(entry.AsMessage()) == 0;
        DispatchIgnoresRegistry(cfg, s.(back := back, forward := forward), conn, entry.AsMessage(), js, py);
        assert s'.(back := back, forward := forward) == s.(back := back, forward := forward).(jsClients := js, pyClients := py);
      } else if func == Str("dir") || func == Str("file") {
        NavigateIgnoresRegistry(cfg, s, func == Str("dir"), msg, js, py);
      }
    }
  }

  /** `register_client` registers the connection and then dispatches the
      first message. The dispatch reaches the view, history and outcome it
      would reach without the registration, so a producer's first message
      (the only one `send_as_pyclient_async` sends) has its full effect. A
      producer's sends are that dispatch's; a browser is first sent the view
      as it was, then the dispatch's sends addressed to the enlarged set of
      browsers. */
  lemma RegisterDispatchesFirst(cfg: Config, s: State, conn: ConnId, first: Message)
    ensures var r := RegisterClient(cfg, s, conn, first);
            var h := HandleMessage(cfg, s, conn, first);
            && (GetOr(first, "client", Str("")) == Str("py") ==>
                  && r.state == h.state.(pyClients := s.pyClients + {conn})
                  && r.outcome == h.outcome
                  && r.out == h.out)
            && (GetOr(first, "client", Str("")) == Str("js") ==>
                  && r.state == h.state.(jsClients := s.jsClients + {conn})
                  && r.outcome == h.outcome
                  && r.out == [SendTo(conn, ViewPayload(s.view))] +
                              HandleMessage(cfg, s.(jsClients := s.jsClients + {conn}), conn, first).out)
  {
    DispatchIgnoresRegistry(cfg, s, conn, first, s.jsClients, s.pyClients + {conn});
    assert s.(jsClients := s.jsClients, pyClients := s.pyClients + {conn}) == s.(pyClients := s.pyClients + {conn});
    DispatchIgnoresRegistry(cfg, s, conn, first, s.jsClients + {conn}, s.pyClients);
    assert s.(jsClients := s.jsClients + {conn}, pyClients := s.pyClients) == s.(jsClients := s.jsClients + {conn});
  }

  /** A browser's `newjsclient` handshake registers it and sends it the
      current view at once, so a late tab shows the shared state; nothing
      else changes. */
  lemma BrowserHandshakeReceivesView(cfg: Config, s: State, conn: ConnId)
    ensures RegisterClient(cfg, s, conn, map["client" := Str("js"), "func" := Str("newjsclient")]) ==
              Step(s.(jsClients := s.jsClients + {conn}), [SendTo(conn, ViewPayload(s.view))], Done)
  {
  }

  /** Registering a new connection and then unregistering it restores both
      client sets, whatever its first message did to the view. */
  lemma RegisterThenUnregister(cfg: Config, s: State, conn: ConnId, first: Message)
    requires conn !in s.jsClients && conn !in s.pyClients
    ensures var r := UnregisterClient(RegisterClient(cfg, s, conn, first).state, conn);
            r.jsClients == s.jsClients && r.pyClients == s.pyClients
  {
  }

  /** A producer's hello whose `cwd` is not a string: `os.chdir` raises
      `TypeError` while the first message is dispatched. */
  const BadCwdHello: Message := map["client" := Str("py"), "cwd" := Int(0)]

  /** As written, a connection whose first dispatch raises stays registered
      after `serve_client` has returned. */
  lemma ServeClientAsWrittenLeaks(cfg: Config, s: State, conn: ConnId, rest: seq<Message>)
    requires conn !in s.pyClients
    ensures var r := ServeClientAsWritten(cfg, s, conn, BadCwdHello, rest);
            r.outcome == Raised(TypeError) && conn in r.state.pyClients
  {
    var first := BadCwdHello;
    assert GetOr(first, "client", Str("")) == Str("py");
    var msg := first - {"nvimAddress"};
    assert msg == first;
    RoleMessagesAreNeverChecked(msg);
    assert Preflight(msg) == Raised(TypeError);
  }

  /** With the registration inside the `try`, a connection that was not
      registered before `serve_client` is not registered after it, whatever
      its messages did. */
  lemma ServeClientRestoresRegistry(cfg: Config, s: State, conn: ConnId, first: Message, rest: seq<Message>)
    requires conn !in s.jsClients && conn !in s.pyClients
    ensures var r := ServeClient(cfg, s, conn, first, rest);
            r.state.jsClients == s.jsClients && r.state.pyClients == s.pyClients
  {
  }
}
