/** The back/forward history of `send_message_to_all_js_clients` and of the
    `back` branch of `handle_message`.

    `BACKMESSAGES` and `FORWARDMESSAGES` are deques, most recent first. The
    only thing ever written to them is a directory-only snapshot of the view,
    so they are modelled as sequences of `Snapshot`.
 */
module History {
  import opened PyValues
  import Validator

  /** The most entries either deque keeps; the oldest is evicted beyond it. */
  const Capacity: nat := 20

  /** A directory-only copy of the view: the directory fields it keeps, with
      every open-file field emptied. */
  datatype Snapshot = Snapshot(cwd: Value, cwdBody: Value, cwdEncoded: Value)
  {
    /** The dict pushed onto `BACKMESSAGES`: a producer `dir` message with
        the file pane closed. */
    function AsMessage(): (m: Message)
      ensures m.Keys == Validator.RequiredKeys
      ensures m["func"] == Str("dir") && m["client"] == Str("py")
      ensures m["cwd"] == cwd && m["cwdBody"] == cwdBody && m["cwdEncoded"] == cwdEncoded
      ensures !Truthy(m["filename"]) && !Truthy(m["fileOpen"]) && !Truthy(m["fileEncoded"])
      ensures m["fileBody"] == Str("") && m["fileCwd"] == Str("") && m["fileEncoding"] == Str("")
    {
      map[
        "client" := Str("py"),
        "func" := Str("dir"),
        "cwd" := cwd,
        "cwdBody" := cwdBody,
        "cwdEncoded" := cwdEncoded,
        "filename" := Str(""),
        "fileBody" := Str(""),
        "fileCwd" := Str(""),
        "fileOpen" := Bool(false),
        "fileEncoding" := Str(""),
        "fileEncoded" := Bool(false)
      ]
    }
  }

  /** Evict the oldest entry when a deque has grown past `Capacity`. */
  function Evict(q: seq<Snapshot>): (r: seq<Snapshot>)
    ensures |q| <= Capacity + 1 ==> |r| <= Capacity
    ensures r == q || (|q| > Capacity && r == q[..|q| - 1])
  {
    if |q| > Capacity then q[..|q| - 1] else q
  }

  /** No two neighbouring entries name the same directory, by Python `==`. */
  predicate NoAdjacentRepeat(q: seq<Snapshot>)
  {
    forall i :: 0 <= i < |q| - 1 ==> !PyEq(q[i].cwd, q[i + 1].cwd)
  }

  /** True when the history push fires for this view: BACK is empty or the
      view's directory differs from the most recent entry's. */
  predicate ShouldPush(view: Message, back: seq<Snapshot>)
    requires "cwd" in view
  {
    |back| == 0 || !PyEq(view["cwd"], back[0].cwd)
  }

  /** The history part of `send_message_to_all_js_clients`, run after the
      merge into `MESSAGE`. It reads `MESSAGE["cwd"]` in any case and, when it
      pushes, `cwdBody` and `cwdEncoded` too, raising `KeyError` for the first
      missing one. */
  function PushHistory(view: Message, back: seq<Snapshot>): (r: Result<seq<Snapshot>>)
    ensures r.Ok? <==> "cwd" in view && (ShouldPush(view, back) ==> "cwdBody" in view && "cwdEncoded" in view)
    ensures "cwd" !in view ==> r == Err(KeyError("cwd"))
    ensures "cwd" in view && ShouldPush(view, back) && "cwdBody" !in view ==> r == Err(KeyError("cwdBody"))
    ensures "cwd" in view && ShouldPush(view, back) && "cwdBody" in view && "cwdEncoded" !in view ==>
              r == Err(KeyError("cwdEncoded"))
    ensures r.Ok? && !ShouldPush(view, back) ==> r.value == back
    ensures r.Ok? && ShouldPush(view, back) ==>
              && 0 < |r.value| <= |back| + 1
              && r.value[0] == Snapshot(view["cwd"], view["cwdBody"], view["cwdEncoded"])
              && r.value[1..] == back[..|r.value| - 1]
              && (|back| < Capacity ==> |r.value| == |back| + 1)
    ensures r.Ok? && |back| <= Capacity ==> |r.value| <= Capacity
    ensures r.Ok? && ShouldPush(view, back) && |back| <= Capacity ==>
              |r.value| == (if |back| < Capacity then |back| + 1 else Capacity)
    ensures r.Ok? ==> |r.value| > 0 && PyEq(view["cwd"], r.value[0].cwd)
    ensures r.Ok? && NoAdjacentRepeat(back) ==> NoAdjacentRepeat(r.value)
  {
    if "cwd" !in view then Err(KeyError("cwd"))
    else if ShouldPush(view, back) then
      if "cwdBody" !in view then Err(KeyError("cwdBody"))
      else if "cwdEncoded" !in view then Err(KeyError("cwdEncoded"))
      else
        var entry := Snapshot(view["cwd"], view["cwdBody"], view["cwdEncoded"]);
        assert PyEq(view["cwd"], entry.cwd) by { PyEqReflexive(view["cwd"]); }
        Ok(Evict([entry] + back))
    else
      assert PyEq(view["cwd"], back[0].cwd);
      Ok(back)
  }

  /** A push onto a history that is not full loses nothing: the view's
      directory snapshot goes in front of all the old entries. */
  lemma PushOntoRoom(view: Message, back: seq<Snapshot>)
    requires PushHistory(view, back).Ok? && ShouldPush(view, back)
    requires |back| < Capacity
    ensures PushHistory(view, back).value == [Snapshot(view["cwd"], view["cwdBody"], view["cwdEncoded"])] + back
  {
    var r := PushHistory(view, back).value;
    assert r == [r[0]] + r[1..];
  }

  /** Python `==` on message values is reflexive. */
  lemma PyEqReflexive(v: Value)
    ensures PyEq(v, v)
  {
  }

  /** Dropping entries from either end keeps neighbours distinct. */
  lemma NoAdjacentRepeatSlice(q: seq<Snapshot>, lo: nat, hi: nat)
    requires NoAdjacentRepeat(q)
    requires lo <= hi <= |q|
    ensures NoAdjacentRepeat(q[lo..hi])
  {
    forall i | 0 <= i < hi - lo - 1
      ensures !PyEq(q[lo..hi][i].cwd, q[lo..hi][i + 1].cwd)
    {
      assert q[lo..hi][i] == q[lo + i] && q[lo..hi][i + 1] == q[lo + i + 1];
    }
  }
}
