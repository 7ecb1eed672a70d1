/** The synchronisation server's state machine: `handle_message`, the history
    push of `send_message_to_all_js_clients`, and the client registry
    (`register_client` / `unregister_client`).

    The module-level globals of the server (`MESSAGE`, `BACKMESSAGES`,
    `FORWARDMESSAGES`, `JSCLIENTS`, `PYCLIENTS`) form one immutable `State`,
    and every handler is a pure function from a state and a message to a
    `Step`: the next state, what is sent to which connection, and whether the
    handler returned or raised. A handler that raises keeps whatever it had
    already committed, as the source does.
 */
module Server {
  import opened PyValues
  import opened Settings
  import opened Encoder
  import opened Validator
  import opened History

  /** A websocket connection, by identity. */
  type ConnId = nat

  /** What travels to a connection: the serialised view, or the reply to
      `numJSClients`. */
  datatype Payload = ViewPayload(view: Message) | CountPayload(count: nat)

  /** The side effects of a step, in the order they happen. */
  datatype Outbound =
    | SendTo(conn: ConnId, payload: Payload)
      /** The same payload sent to every listed browser connection. */
    | Broadcast(conns: set<ConnId>, payload: Payload)
      /** `edit_in_neovim` asked to open this path. */
    | OpenInEditor(path: string)

  datatype State = State(
    /** `MESSAGE`: the shared view record. */
    view: Message,
    /** `BACKMESSAGES`, most recent first. */
    back: seq<Snapshot>,
    /** `FORWARDMESSAGES`, most recent first. */
    forward: seq<Snapshot>,
    /** `JSCLIENTS`: browser connections. */
    jsClients: set<ConnId>,
    /** `PYCLIENTS`: producer connections. */
    pyClients: set<ConnId>
  )

  /** The state at start-up: empty view, empty history, nobody connected. */
  const Initial: State := State(map[], [], [], {}, {})

  /** One handler run: next state, side effects, and how it ended. */
  datatype Step = Step(state: State, out: seq<Outbound>, outcome: Outcome)

  /** The open-file fields a `dir` message carries forward, in the order the
      source copies them. */
  const OpenFileKeys: seq<string> := ["filename", "fileCwd", "fileBody", "fileEncoding", "fileEncoded"]

  /** Copy `keys` from `source` into `into` one by one, raising `KeyError` at
      the first key `source` lacks. */
  function CopyKeys(keys: seq<string>, source: Message, into: Message): (r: Result<Message>)
    ensures r.Ok? <==> forall i :: 0 <= i < |keys| ==> keys[i] in source
    ensures r.Err? ==> exists i :: 0 <= i < |keys| && keys[i] !in source && r.error == KeyError(keys[i])
    ensures r.Ok? ==> r.value.Keys == into.Keys + set i | 0 <= i < |keys| :: keys[i]
    ensures r.Ok? ==> forall i :: 0 <= i < |keys| ==> r.value[keys[i]] == source[keys[i]]
    ensures r.Ok? ==> forall k :: k in into && k !in keys ==> r.value[k] == into[k]
  {
    if |keys| == 0 then Ok(into)
    else if keys[0] !in source then Err(KeyError(keys[0]))
    else
      var rest := CopyKeys(keys[1..], source, into[keys[0] := source[keys[0]]]);
      assert rest.Ok? ==> (set i | 0 <= i < |keys| :: keys[i]) == {keys[0]} + set i | 0 <= i < |keys[1..]| :: keys[1..][i];
      assert rest.Err? ==> exists i :: 0 <= i < |keys[1..]| && keys[1..][i] !in source && rest.error == KeyError(keys[1..][i]);
      rest
  }

  /** True when a `dir` message keeps the open file: it names no file, the
      view has one open, and it does not ask to close it. */
  predicate KeepsOpenFile(view: Message, msg: Message)
  {
    && !Truthy(GetOr(msg, "filename", Null))
    && Truthy(GetOr(view, "filename", Null))
    && !Truthy(GetOr(msg, "forceClose", Bool(false)))
  }

  /** The carry-forward step of the `dir` branch: keep the open file unless
      the message closes it. `forceClose` is popped from the message only when
      the first two tests of the condition hold (Python's `and` stops early);
      otherwise it stays and is merged like any other key. */
  function CarryOpenFile(view: Message, msg: Message): (r: Result<Message>)
    ensures !KeepsOpenFile(view, msg) ==> r.Ok?
    ensures r.Ok? && KeepsOpenFile(view, msg) ==>
              forall i :: 0 <= i < |OpenFileKeys| ==>
                OpenFileKeys[i] in view && OpenFileKeys[i] in r.value && r.value[OpenFileKeys[i]] == view[OpenFileKeys[i]]
    ensures r.Ok? ==> forall k :: k in msg && k != "forceClose" && !(KeepsOpenFile(view, msg) && k in OpenFileKeys) ==>
                        k in r.value && r.value[k] == msg[k]
    ensures r.Ok? ==> forall k :: k in r.value ==> k in msg || (KeepsOpenFile(view, msg) && k in OpenFileKeys)
    ensures r.Ok? ==> ("forceClose" in r.value <==>
                         "forceClose" in msg &&
                         !(!Truthy(GetOr(msg, "filename", Null)) && Truthy(GetOr(view, "filename", Null))))
  {
    var pops := !Truthy(GetOr(msg, "filename", Null)) && Truthy(GetOr(view, "filename", Null));
    var m := if pops then msg - {"forceClose"} else msg;
    if KeepsOpenFile(view, msg) then CopyKeys(OpenFileKeys, view, m) else Ok(m)
  }

  /** The listing step of the `dir` branch: when `cwdEncoded` is falsy the
      directory body is rendered for `cwd` and marked encoded. */
  function ListDirectoryIfStale(cfg: Config, m: Message): (r: Result<Message>)
    ensures r.Ok? <==> "cwdEncoded" in m && (!Truthy(m["cwdEncoded"]) ==> "cwd" in m && m["cwd"].Str?)
    ensures "cwdEncoded" !in m ==> r == Err(KeyError("cwdEncoded"))
    ensures "cwdEncoded" in m && !Truthy(m["cwdEncoded"]) && "cwd" !in m ==> r == Err(KeyError("cwd"))
    ensures "cwdEncoded" in m && !Truthy(m["cwdEncoded"]) && "cwd" in m && !m["cwd"].Str? ==> r == Err(TypeError)
    ensures r.Ok? && Truthy(m["cwdEncoded"]) ==> r.value == m
    ensures r.Ok? && !Truthy(m["cwdEncoded"]) ==>
              && r.value.Keys == m.Keys + {"cwdBody"}
              && r.value["cwdBody"] == Str(cfg.listDirectory(m["cwd"].s))
              && r.value["cwdEncoded"] == Bool(true)
              && forall k :: k in m && k != "cwdBody" && k != "cwdEncoded" ==> r.value[k] == m[k]
  {
    match Lookup(m, "cwdEncoded")
    case Err(e) => Err(e)
    case Ok(encoded) =>
      if Truthy(encoded) then Ok(m)
      else
        match Lookup(m, "cwd")
        case Err(e) => Err(e)
        case Ok(Str(cwd)) => Ok(m["cwdBody" := Str(cfg.listDirectory(cwd))]["cwdEncoded" := Bool(true)])
        case Ok(_) => Err(TypeError)
  }

  /** The `dir` branch of `handle_message`, up to the merge: it fails only
      for a carried file field the view lacks, or a listing that cannot be
      produced, and what it returns is marked encoded, with the directory's
      listing when the message had none. */
  function PrepareDir(cfg: Config, view: Message, msg: Message): (r: Result<Message>)
    ensures r.Ok? <==>
              && (KeepsOpenFile(view, msg) ==> forall i :: 0 <= i < |OpenFileKeys| ==> OpenFileKeys[i] in view)
              && "cwdEncoded" in msg
              && (!Truthy(msg["cwdEncoded"]) ==> "cwd" in msg && msg["cwd"].Str?)
    ensures !KeepsOpenFile(view, msg) && "cwdEncoded" !in msg ==> r == Err(KeyError("cwdEncoded"))
    ensures r.Ok? ==> "cwdEncoded" in r.value && Truthy(r.value["cwdEncoded"])
    ensures r.Ok? && !Truthy(msg["cwdEncoded"]) ==>
              "cwdBody" in r.value && r.value["cwdBody"] == Str(cfg.listDirectory(msg["cwd"].s))
    ensures r.Ok? && Truthy(msg["cwdEncoded"]) ==>
              r.value["cwdEncoded"] == msg["cwdEncoded"] &&
              ("cwdBody" in r.value <==> "cwdBody" in msg) &&
              ("cwdBody" in msg ==> r.value["cwdBody"] == msg["cwdBody"])
    ensures r.Ok? && KeepsOpenFile(view, msg) ==>
              forall i :: 0 <= i < |OpenFileKeys| ==>
                OpenFileKeys[i] in view && OpenFileKeys[i] in r.value && r.value[OpenFileKeys[i]] == view[OpenFileKeys[i]]
    ensures r.Ok? && !KeepsOpenFile(view, msg) ==>
              forall i :: 0 <= i < |OpenFileKeys| && OpenFileKeys[i] in msg ==>
                OpenFileKeys[i] in r.value && r.value[OpenFileKeys[i]] == msg[OpenFileKeys[i]]
  {
    assert forall i :: 0 <= i < |OpenFileKeys| ==>
             OpenFileKeys[i] != "cwdBody" && OpenFileKeys[i] != "cwdEncoded" && OpenFileKeys[i] != "forceClose";
    assert "cwdEncoded" != "forceClose" && "cwdEncoded" !in OpenFileKeys;
    assert "cwd" != "forceClose" && "cwd" !in OpenFileKeys;
    assert "cwdBody" != "forceClose" && "cwdBody" !in OpenFileKeys;
    match CarryOpenFile(view, msg)
    case Err(e) => Err(e)
    case Ok(c) => ListDirectoryIfStale(cfg, c)
  }

  /** The path the `editFile` branch hands to the editor:
      `ARGS.home + MESSAGE["fileCwd"] + MESSAGE["filename"]`, evaluated left
      to right, so a missing or non-string `fileCwd` raises before
      `filename` is looked at. */
  function EditorPath(cfg: Config, view: Message): (r: Result<string>)
    ensures r.Ok? <==> "fileCwd" in view && view["fileCwd"].Str? && "filename" in view && view["filename"].Str?
    ensures r.Ok? ==> r.value == cfg.home + view["fileCwd"].s + view["filename"].s
  {
    match Lookup(view, "fileCwd")
    case Err(e) => Err(e)
    case Ok(Str(dir)) =>
      (match Lookup(view, "filename")
       case Err(e) => Err(e)
       case Ok(Str(name)) => Ok(cfg.home + dir + name)
       case Ok(_) => Err(TypeError))
    case Ok(_) => Err(TypeError)
  }

  /** The broadcast of `send_message_to_all_js_clients`: one send of the
      view to every browser, and nothing when there is none. */
  function BroadcastView(clients: set<ConnId>, view: Message): (out: seq<Outbound>)
    ensures clients == {} <==> out == []
    ensures out != [] ==> out == [Broadcast(clients, ViewPayload(view))]
  {
    if clients == {} then [] else [Broadcast(clients, ViewPayload(view))]
  }

  /** The tail shared by `dir` and `file`: merge the prepared message into
      `MESSAGE`, push the history snapshot, broadcast. A `KeyError` from the
      history push leaves the merged view in place and sends nothing. */
  function Commit(s: State, m: Message): (r: Step)
    ensures r.state.view == s.view + m
    ensures r.state.forward == s.forward
    ensures r.state.jsClients == s.jsClients && r.state.pyClients == s.pyClients
    ensures r.outcome.Done? <==> PushHistory(s.view + m, s.back).Ok?
    ensures r.outcome.Done? ==> r.state.back == PushHistory(s.view + m, s.back).value
                                && r.out == BroadcastView(s.jsClients, s.view + m)
    ensures r.outcome.Raised? ==> r.state.back == s.back && r.out == []
  {
    var view := s.view + m;
    match PushHistory(view, s.back)
    case Err(e) => Step(s.(view := view), [], Raised(e))
    case Ok(back) => Step(s.(view := view, back := back), BroadcastView(s.jsClients, view), Done)
  }

  /** The checks at the top of `handle_message`, after `nvimAddress` is
      popped: `validate_message`, then `os.chdir(ARGS.home + message["cwd"])`,
      which raises `TypeError` unless `cwd` is a string. The directory change
      itself is not modelled. */
  function Preflight(msg: Message): (r: Outcome)
    ensures r.Done? <==> ValidateMessage(msg).Done? && ("cwd" in msg ==> msg["cwd"].Str?)
  {
    var validation := ValidateMessage(msg);
    if validation.Raised? then validation
    else if "cwd" in msg && !msg["cwd"].Str? then Raised(TypeError)
    else Done
  }

  /** The `dir` and `file` branches of `handle_message`: prepare the message
      (carry the open file and list the directory for `dir`, encode for
      `file`), then merge, push history and broadcast. Nothing is committed
      when the preparation raises. In interactive mode a `file` message also
      opens the merged view's file in the editor, after the merge and before
      the history push; a view without a string `fileCwd` and `filename`
      then raises with the merge already done. */
  function Navigate(cfg: Config, s: State, isDir: bool, msg: Message): (r: Step)
    ensures r.state.forward == s.forward
    ensures r.state.jsClients == s.jsClients && r.state.pyClients == s.pyClients
    ensures var prepared := if isDir then PrepareDir(cfg, s.view, msg) else Encode(cfg, msg);
            && (prepared.Err? ==> r.state == s && r.out == [] && r.outcome == Raised(prepared.error))
            && (prepared.Ok? ==> r.state.view == s.view + prepared.value)
    ensures r.outcome.Done? <==>
              var prepared := if isDir then PrepareDir(cfg, s.view, msg) else Encode(cfg, msg);
              && prepared.Ok?
              && (!isDir && cfg.interactive ==> EditorPath(cfg, s.view + prepared.value).Ok?)
              && PushHistory(s.view + prepared.value, s.back).Ok?
    ensures r.outcome.Done? ==>
              && r.state.back == PushHistory(r.state.view, s.back).value
              && (isDir || !cfg.interactive ==> r.out == BroadcastView(s.jsClients, r.state.view))
              && (!isDir && cfg.interactive ==>
                    r.out == [OpenInEditor(EditorPath(cfg, r.state.view).value)] + BroadcastView(s.jsClients, r.state.view))
    ensures r.outcome.Raised? ==>
              && r.state.back == s.back
              && (isDir || !cfg.interactive ==> r.out == [])
  {
    var prepared := if isDir then PrepareDir(cfg, s.view, msg) else Encode(cfg, msg);
    match prepared
    case Err(e) => Step(s, [], Raised(e))
    case Ok(m) =>
      if isDir || !cfg.interactive then Commit(s, m)
      else
        match EditorPath(cfg, s.view + m)
        case Err(e) => Step(s.(view := s.view + m), [], Raised(e))
        case Ok(path) =>
          var c := Commit(s, m);
          Step(c.state, [OpenInEditor(path)] + c.out, c.outcome)
  }

  /** Rank for the `back` branch's re-dispatch: a `back` message hands a
      history snapshot, whose `func` is `dir`, back to the dispatcher. */
  function DispatchRank(message: Message): nat
  {
    if GetOr(message, "func", Null) == Str("back") then 1 else 0
  }

  /** `handle_message(client, message)`. */
  function HandleMessage(cfg: Config, s: State, conn: ConnId, message: Message): (r: Step)
    ensures r.state.jsClients == s.jsClients && r.state.pyClients == s.pyClients
    decreases DispatchRank(message)
  {
    var func := GetOr(message, "func", Null);
    // `nvimAddress` is popped into the editor settings and never merged
    var msg := message - {"nvimAddress"};
    var pre := Preflight(msg);
    if pre.Raised? then Step(s, [], pre)
    else if !Truthy(func) then Step(s, [], Done)
    else if func == Str("numJSClients") then Step(s, [SendTo(conn, CountPayload(|s.jsClients|))], Done)
    else if func == Str("editFile") then
      match EditorPath(cfg, s.view)
      case Err(e) => Step(s, [], Raised(e))
      case Ok(path) => Step(s, [OpenInEditor(path)], Done)
    else if func == Str("back") then
      if |s.back| < 2 then Step(s, [], Done)
      else
        var fileOpen := Truthy(GetOr(msg, "fileOpen", Null));
        var entry := if fileOpen then s.back[0] else s.back[1];
        var back := if fileOpen then s.back[1..] else s.back[2..];
        var forward := Evict(if fileOpen then s.forward else [s.back[0]] + s.forward);
        HandleMessage(cfg, s.(back := back, forward := forward), conn, entry.AsMessage())
    else if func == Str("dir") || func == Str("file") then
      Navigate(cfg, s, func == Str("dir"), msg)
    else
      // any other `func`, such as the browser's `newjsclient` handshake
      Step(s, [], Done)
  }

  /** `register_client`: the first message's `client` field decides the
      role. A browser (`js`) is added and sent the current view before the
      message is dispatched; a producer (`py`) is added; anything else raises
      `ValueError` and registers nothing. The registration stays even when
      the dispatch that follows raises. */
  function RegisterClient(cfg: Config, s: State, conn: ConnId, first: Message): (r: Step)
    ensures GetOr(first, "client", Str("")) == Str("js") ==>
              && r.state.jsClients == s.jsClients + {conn}
              && r.state.pyClients == s.pyClients
              && |r.out| > 0 && r.out[0] == SendTo(conn, ViewPayload(s.view))
    ensures GetOr(first, "client", Str("")) == Str("py") ==>
              r.state.pyClients == s.pyClients + {conn} && r.state.jsClients == s.jsClients
    ensures GetOr(first, "client", Str("")) !in {Str("js"), Str("py")} ==>
              r == Step(s, [], Raised(ValueError))
  {
    var role := GetOr(first, "client", Str(""));
    if role == Str("js") then
      var h := HandleMessage(cfg, s.(jsClients := s.jsClients + {conn}), conn, first);
      Step(h.state, [SendTo(conn, ViewPayload(s.view))] + h.out, h.outcome)
    else if role == Str("py") then
      HandleMessage(cfg, s.(pyClients := s.pyClients + {conn}), conn, first)
    else
      Step(s, [], Raised(ValueError))
  }

  /** `unregister_client`: drop the connection from whichever set holds it;
      an unknown connection changes nothing. */
  function UnregisterClient(s: State, conn: ConnId): (r: State)
    ensures conn !in r.jsClients && conn !in r.pyClients
    ensures r.jsClients == s.jsClients - {conn} && r.pyClients == s.pyClients - {conn}
    ensures r.view == s.view && r.back == s.back && r.forward == s.forward
    ensures conn !in s.jsClients && conn !in s.pyClients ==> r == s
  {
    s.(jsClients := s.jsClients - {conn}, pyClients := s.pyClients - {conn})
  }

  /** The `async for` loop of `serve_client`: dispatch each later message
      in turn; the first one that raises ends the loop with that error. */
  function DispatchAll(cfg: Config, s: State, conn: ConnId, messages: seq<Message>): (r: Step)
    ensures r.state.jsClients == s.jsClients && r.state.pyClients == s.pyClients
    ensures messages == [] ==> r == Step(s, [], Done)
    ensures |messages| > 0 && HandleMessage(cfg, s, conn, messages[0]).outcome.Raised? ==>
              r == HandleMessage(cfg, s, conn, messages[0])
    decreases |messages|
  {
    if messages == [] then Step(s, [], Done)
    else
      var h := HandleMessage(cfg, s, conn, messages[0]);
      if h.outcome.Raised? then h
      else
        var t := DispatchAll(cfg, h.state, conn, messages[1..]);
        Step(t.state, h.out + t.out, t.outcome)
  }

  /** `serve_client` as written: `register_client` runs before the
      `try`/`finally`, so when the first message's dispatch raises the
      connection is never unregistered. Otherwise the later messages are
      dispatched and the connection is unregistered however the loop ends. */
  function ServeClientAsWritten(cfg: Config, s: State, conn: ConnId, first: Message, rest: seq<Message>): (r: Step)
    ensures RegisterClient(cfg, s, conn, first).outcome.Raised? ==> r == RegisterClient(cfg, s, conn, first)
    ensures RegisterClient(cfg, s, conn, first).outcome.Done? ==> r == ServeClient(cfg, s, conn, first, rest)
  {
    var reg := RegisterClient(cfg, s, conn, first);
    if reg.outcome.Raised? then reg
    else ServeClient(cfg, s, conn, first, rest)
  }

  /** `serve_client` with the registration inside the `try`: whatever
      happens, the connection ends up in neither client set and the other
      connections keep their roles. */
  function ServeClient(cfg: Config, s: State, conn: ConnId, first: Message, rest: seq<Message>): (r: Step)
    ensures r.state.jsClients == s.jsClients - {conn} && r.state.pyClients == s.pyClients - {conn}
    ensures RegisterClient(cfg, s, conn, first).outcome.Raised? ==>
              r.outcome == RegisterClient(cfg, s, conn, first).outcome
  {
    var reg := RegisterClient(cfg, s, conn, first);
    var served :=
      if reg.outcome.Raised? then reg
      else
        var d := DispatchAll(cfg, reg.state, conn, rest);
        Step(d.state, reg.out + d.out, d.outcome);
    Step(UnregisterClient(served.state, conn), served.out, served.outcome)
  }
}
