/** Properties of `encode`: it is idempotent, its recursion is a single
    fallback hop (it agrees with a non-recursive reference definition), and
    each encoding kind is rendered the way the source intends.
 */
module EncoderProperties {
  import opened PyValues
  import opened PathNames
  import opened Settings
  import opened Encoder

  /** The kind whose renderer finally runs for a resolved `fileEncoding`:
      unknown kinds and an `ipynb` without nbconvert end up as `txt`. */
  function RenderedKind(kind: Value, nbconvertInstalled: bool): string
  {
    if kind == Str("md") then "md"
    else if kind == Str("ipynb") && nbconvertInstalled then "ipynb"
    else if kind == Str("html") then "html"
    else "txt"
  }

  /** Render a resolved message by the kind `RenderedKind` picks. */
  function RenderFlat(cfg: Config, m: Message): Result<Message>
    requires "fileEncoding" in m
  {
    var kind := RenderedKind(m["fileEncoding"], cfg.nbconvertInstalled);
    if kind == "html" then Ok(m)
    else if "fileBody" !in m then Err(KeyError("fileBody"))
    else
      var body := m["fileBody"];
      if kind == "md" then
        if body.Str? then Ok(m["fileBody" := Str(cfg.markdownToHtml(body.s))]) else Err(AttributeError)
      else if kind == "ipynb" then
        if body.Str? then Ok(m["fileBody" := Str(cfg.notebookToHtml(body.s))]) else Err(TypeError)
      else
        Ok(m["fileEncoding" := Str("txt")]["fileBody" := Str(TextToHtml(cfg, PyStr(body)))])
  }

  /** A non-recursive reference for `encode`: resolve once, pick the final
      kind once, render once. */
  function EncodeOnce(cfg: Config, msg: Message): Result<Message>
  {
    if Truthy(GetOr(msg, "fileEncoded", Bool(false))) then Ok(msg)
    else
      match ResolveEncoding(cfg.stdinDefault, msg["fileEncoded" := Bool(true)])
      case Err(e) => Err(e)
      case Ok(m) => RenderFlat(cfg, m)
  }

  /** On a known kind the source's dispatch chain is the flat rendering. */
  lemma RenderKnownIsFlat(cfg: Config, m: Message)
    requires "fileEncoding" in m && m["fileEncoding"] in KnownEncodings
    ensures RenderKnown(cfg, m) == RenderFlat(cfg, m)
  {
  }

  /** Resetting an unknown kind to `txt` does not change how it renders. */
  lemma ResetToTextIsFlat(cfg: Config, m: Message)
    requires "fileEncoding" in m && m["fileEncoding"] !in KnownEncodings
    ensures RenderFlat(cfg, m["fileEncoding" := Str("txt")]) == RenderFlat(cfg, m)
  {
    var t := m["fileEncoding" := Str("txt")];
    if "fileBody" in m {
      assert t["fileEncoding" := Str("txt")] == t;
      assert m["fileEncoding" := Str("txt")]["fileBody" := Str(TextToHtml(cfg, PyStr(m["fileBody"])))]
          == t["fileEncoding" := Str("txt")]["fileBody" := Str(TextToHtml(cfg, PyStr(t["fileBody"])))];
    }
  }

  /** The self-call on a message reset to `txt` resolves to the message
      itself and renders it as text. */
  lemma RetryRendersText(cfg: Config, t: Message)
    requires "fileEncoding" in t && t["fileEncoding"] == Str("txt")
    requires "fileEncoded" in t && t["fileEncoded"] == Bool(true)
    ensures Encode(cfg, t["fileEncoded" := Bool(false)]) == RenderKnown(cfg, t)
  {
    var retry := t["fileEncoded" := Bool(false)];
    assert retry["fileEncoded" := Bool(true)] == t;
    assert ResolveEncoding(cfg.stdinDefault, t) == Ok(t);
  }

  /** `encode`'s self-call is one fallback hop: the recursive definition
      computes exactly what the single-pass reference computes, for every
      message and configuration. */
  lemma EncodeIsSingleFallback(cfg: Config, msg: Message)
    ensures Encode(cfg, msg) == EncodeOnce(cfg, msg)
  {
    if !Truthy(GetOr(msg, "fileEncoded", Bool(false))) {
      var res := ResolveEncoding(cfg.stdinDefault, msg["fileEncoded" := Bool(true)]);
      if res.Ok? {
        var m := res.value;
        if m["fileEncoding"] in KnownEncodings {
          RenderKnownIsFlat(cfg, m);
        } else {
          var t := m["fileEncoding" := Str("txt")];
          assert t["fileEncoded"] == Bool(true);
          RetryRendersText(cfg, t);
          RenderKnownIsFlat(cfg, t);
          ResetToTextIsFlat(cfg, m);
        }
      }
    }
  }

  /** Encoding is idempotent: encoding an encoded message changes nothing. */
  lemma EncodeIdempotent(cfg: Config, msg: Message)
    requires Encode(cfg, msg).Ok?
    ensures Encode(cfg, Encode(cfg, msg).value) == Encode(cfg, msg)
  {
  }

  /** An unknown kind, declared or inferred, is rendered as fenced text. */
  lemma UnknownKindRendersAsText(cfg: Config, msg: Message, kind: string, body: string)
    requires !Truthy(GetOr(msg, "fileEncoded", Bool(false)))
    requires GetOr(msg, "fileEncoding", Null) == Str(kind)
    requires kind !in KnownKinds && kind != ""
    requires GetOr(msg, "fileBody", Null) == Str(body)
    ensures Encode(cfg, msg) ==
              Ok(msg["fileEncoded" := Bool(true)]["fileEncoding" := Str("txt")]
                    ["fileBody" := Str(cfg.markdownToHtml("```\n" + body + "\n```"))])
  {
    EncodeIsSingleFallback(cfg, msg);
  }

  /** Without nbconvert a notebook is downgraded to `txt` in the same call. */
  lemma NotebookWithoutNbconvertRendersAsText(cfg: Config, msg: Message, body: Value)
    requires !cfg.nbconvertInstalled
    requires !Truthy(GetOr(msg, "fileEncoded", Bool(false)))
    requires GetOr(msg, "fileEncoding", Null) == Str("ipynb")
    requires GetOr(msg, "fileBody", Null) == body && "fileBody" in msg
    ensures Encode(cfg, msg) ==
              Ok(msg["fileEncoded" := Bool(true)]["fileEncoding" := Str("txt")]
                    ["fileBody" := Str(TextToHtml(cfg, PyStr(body)))])
  {
  }

  /** `html` is passed through: only the encoded flag changes. */
  lemma HtmlIsPassedThrough(cfg: Config, msg: Message)
    requires !Truthy(GetOr(msg, "fileEncoded", Bool(false)))
    requires GetOr(msg, "fileEncoding", Null) == Str("html")
    ensures Encode(cfg, msg) == Ok(msg["fileEncoded" := Bool(true)])
  {
  }

  /** The kind inferred for `note.xyz` is its extension, `xyz`. */
  lemma NoteXyzInfersXyz(stdinDefault: string)
    ensures InferEncoding(Str("note.xyz"), stdinDefault) == Ok("xyz")
  {
    SplitExtOfStemDotExt("note", "xyz");
    assert "note" + "." + "xyz" == "note.xyz";
    assert !IsDotFile("note.xyz") by {
      assert "note.xyz"[0] == 'n';
    }
  }

  /** With no declared encoding, `note.xyz` resolves to `xyz`. */
  lemma ResolveNoteXyz(stdinDefault: string, m: Message)
    requires GetOr(m, "filename", Null) == Str("note.xyz")
    requires GetOr(m, "fileEncoding", Null) == Str("")
    ensures ResolveEncoding(stdinDefault, m) == Ok(m["fileEncoding" := Str("xyz")])
  {
    NoteXyzInfersXyz(stdinDefault);
  }

  /** A resolved message of an unknown kind renders its body as fenced
      text and reports `txt`. */
  lemma RenderUnknownAsText(cfg: Config, m: Message, body: string)
    requires "fileEncoding" in m && m["fileEncoding"] !in KnownEncodings
    requires "fileBody" in m && m["fileBody"] == Str(body)
    ensures RenderFlat(cfg, m) == Ok(m["fileEncoding" := Str("txt")]["fileBody" := Str(TextToHtml(cfg, body))])
  {
  }

  /** The single-pass reference on an unencoded message whose kind
      resolves to one `encode` does not know: marked encoded, reported as
      `txt`, and its body rendered as text. */
  lemma UnknownResolvedOnce(cfg: Config, msg: Message, kind: string, body: string)
    requires !Truthy(GetOr(msg, "fileEncoded", Bool(false)))
    requires ResolveEncoding(cfg.stdinDefault, msg["fileEncoded" := Bool(true)]) ==
               Ok(msg["fileEncoded" := Bool(true)]["fileEncoding" := Str(kind)])
    requires kind !in KnownKinds
    requires GetOr(msg, "fileBody", Null) == Str(body)
    ensures EncodeOnce(cfg, msg) ==
              Ok(msg["fileEncoded" := Bool(true)]["fileEncoding" := Str("txt")]
                    ["fileBody" := Str(TextToHtml(cfg, body))])
  {
    var marked := msg["fileEncoded" := Bool(true)];
    var m := marked["fileEncoding" := Str(kind)];
    assert EncodeOnce(cfg, msg) == RenderFlat(cfg, m);
    RenderUnknownAsText(cfg, m, body);
    assert m["fileEncoding" := Str("txt")] == marked["fileEncoding" := Str("txt")];
  }

  /** A file `note.xyz` with no declared encoding is marked encoded,
      reports `txt`, and has its body rendered as fenced text; nothing else
      changes. */
  lemma UnknownExtensionScenario(cfg: Config, msg: Message, body: string)
    requires GetOr(msg, "filename", Null) == Str("note.xyz")
    requires GetOr(msg, "fileEncoding", Null) == Str("")
    requires GetOr(msg, "fileEncoded", Null) == Bool(false)
    requires GetOr(msg, "fileBody", Null) == Str(body)
    ensures Encode(cfg, msg) ==
              Ok(msg["fileEncoded" := Bool(true)]["fileEncoding" := Str("txt")]
                    ["fileBody" := Str(cfg.markdownToHtml("```\n" + body + "\n```"))])
  {
    ResolveNoteXyz(cfg.stdinDefault, msg["fileEncoded" := Bool(true)]);
    UnknownResolvedOnce(cfg, msg, "xyz", body);
    EncodeIsSingleFallback(cfg, msg);
  }
}
