/** The content encoder: `encode` and `txt2body` from smdv.py.

    `encode` works on a whole message. When `fileEncoded` is already truthy it
    returns the message as it is. Otherwise it marks the message encoded,
    resolves `fileEncoding` when it is empty (from the file name, or the
    configured stdin default), and dispatches on it: `md` goes through the
    markdown converter, `ipynb` through nbconvert (falling back to `txt` when
    nbconvert cannot be imported), `txt` is fenced as a code block and then
    converted as markdown, `html` is left alone, and anything else is reset to
    `txt` and encoded once more.
 */
module Encoder {
  import opened PyValues
  import opened PathNames
  import opened Settings

  /** The encoding kinds `encode` knows how to render. */
  const KnownKinds: set<string> := {"md", "ipynb", "txt", "html"}

  /** The code fence `txt2body` wraps plain text in. */
  const Fence: string := "```"

  /** True when a name begins with a dot and has no other dot, like
      `.bashrc`. */
  predicate IsDotFile(f: string)
  {
    |f| > 0 && f[0] == '.' && '.' !in f[1..]
  }

  /** The encoding inferred from a file name when the message declares none:
      `txt` for a dot-file, else the extension without its dot, else the
      configured default. Python indexes `filename[0]`, so an empty name
      raises `IndexError` and a name that is not a string raises
      `TypeError`. */
  function InferEncoding(filename: Value, stdinDefault: string): (r: Result<string>)
    ensures r.Ok? <==> filename.Str? && filename.s != ""
    ensures filename == Str("") ==> r == Err(IndexError)
    ensures !filename.Str? ==> r == Err(TypeError)
    ensures r.Ok? && IsDotFile(filename.s) ==> r.value == "txt"
    ensures r.Ok? && !IsDotFile(filename.s) ==>
              var ext := SplitExt(filename.s).1;
              (|ext| > 1 ==> r.value == ext[1..] && '.' !in r.value) &&
              (|ext| <= 1 ==> r.value == stdinDefault)
  {
    match filename
    case Str(f) =>
      if f == "" then Err(IndexError)
      else if IsDotFile(f) then Ok("txt")
      else
        var ext := SplitExt(f).1;
        var kind := if ext == "" then "" else ext[1..];
        if kind == "" then Ok(stdinDefault) else Ok(kind)
    case _ => Err(TypeError)
  }

  /** The resolution step of `encode`: a truthy `fileEncoding` is kept; an
      empty or missing one is inferred and written back into the message. */
  function ResolveEncoding(stdinDefault: string, m: Message): (r: Result<Message>)
    ensures Truthy(GetOr(m, "fileEncoding", Null)) ==> r == Ok(m)
    ensures r.Ok? && !Truthy(GetOr(m, "fileEncoding", Null)) ==>
              var inferred := InferEncoding(GetOr(m, "filename", Null), stdinDefault);
              inferred.Ok? && "fileEncoding" in r.value && r.value["fileEncoding"] == Str(inferred.value)
    ensures r.Ok? ==> r.value.Keys == m.Keys + {"fileEncoding"}
    ensures r.Ok? ==> forall k :: k in m && k != "fileEncoding" ==> r.value[k] == m[k]
    ensures !Truthy(GetOr(m, "fileEncoding", Null)) ==>
              (r.Ok? <==> InferEncoding(GetOr(m, "filename", Null), stdinDefault).Ok?)
  {
    if Truthy(GetOr(m, "fileEncoding", Null)) then Ok(m)
    else
      match InferEncoding(GetOr(m, "filename", Null), stdinDefault)
      case Err(e) => Err(e)
      case Ok(kind) => Ok(m["fileEncoding" := Str(kind)])
  }

  /** `txt2body`: fence the text as a code block and render it as markdown.
      The document rendered is a line of three backticks, the text, and
      another such line. */
  function TextToHtml(cfg: Config, content: string): (r: string)
    ensures r == cfg.markdownToHtml("```\n" + content + "\n```")
  {
    assert Fence + "\n" + content + "\n" + Fence == "```\n" + content + "\n```";
    cfg.markdownToHtml(Fence + "\n" + content + "\n" + Fence)
  }

  /** The `fileEncoding` values `encode` renders without falling back. */
  const KnownEncodings: set<Value> := {Str("md"), Str("ipynb"), Str("txt"), Str("html")}

  /** The body of `encode` once `fileEncoding` holds a known kind: `md` and
      `ipynb` are converted (an `ipynb` whose nbconvert import fails is
      downgraded to `txt`), `txt` is fenced and converted as markdown, `html`
      is left as it is. The body is read before nbconvert is imported, so a
      missing `fileBody` raises `KeyError` in either case. */
  function RenderKnown(cfg: Config, m: Message): (r: Result<Message>)
    requires "fileEncoding" in m && m["fileEncoding"] in KnownEncodings
    ensures r.Ok? ==> r.value.Keys == m.Keys
    ensures r.Ok? ==> r.value["fileEncoding"] in KnownEncodings
    ensures r.Ok? ==> forall k :: k in m && k != "fileBody" && k != "fileEncoding" ==> r.value[k] == m[k]
    ensures r.Ok? && m["fileEncoding"] != Str("html") ==> "fileBody" in m && r.value["fileBody"].Str?
    ensures r.Err? ==> m["fileEncoding"] != Str("html")
  {
    var encoding := m["fileEncoding"];
    if encoding == Str("md") then
      match Lookup(m, "fileBody")
      case Err(e) => Err(e)
      case Ok(Str(body)) => Ok(m["fileBody" := Str(cfg.markdownToHtml(body))])
      case Ok(_) => Err(AttributeError)
    else if encoding == Str("html") then Ok(m)
    else
      match Lookup(m, "fileBody")
      case Err(e) => Err(e)
      case Ok(body) =>
        if encoding == Str("ipynb") && cfg.nbconvertInstalled then
          if body.Str? then Ok(m["fileBody" := Str(cfg.notebookToHtml(body.s))])
          else Err(TypeError)
        else
          // `txt`, or `ipynb` whose import failed and was downgraded to `txt`
          Ok(m["fileEncoding" := Str("txt")]["fileBody" := Str(TextToHtml(cfg, PyStr(body)))])
  }

  /** Rank for `encode`'s single self-call: only a message that does not
      declare `txt` may recurse, and the call it makes declares `txt`. */
  function EncodeRank(m: Message): nat
  {
    if GetOr(m, "fileEncoding", Null) == Str("txt") then 0 else 1
  }

  /** `encode(message)`. An unknown kind is reset to `txt`, the encoded flag
      is cleared so that the self-call does not return early, and the message
      is encoded again. */
  function Encode(cfg: Config, msg: Message): (r: Result<Message>)
    ensures Truthy(GetOr(msg, "fileEncoded", Bool(false))) ==> r == Ok(msg)
    ensures r.Ok? && !Truthy(GetOr(msg, "fileEncoded", Bool(false))) ==>
              && r.value.Keys == msg.Keys + {"fileEncoded", "fileEncoding"}
              && r.value["fileEncoded"] == Bool(true)
              && r.value["fileEncoding"] in KnownEncodings
              && (forall k :: k in msg && k !in {"fileBody", "fileEncoding", "fileEncoded"} ==>
                    r.value[k] == msg[k])
    decreases EncodeRank(msg)
  {
    if Truthy(GetOr(msg, "fileEncoded", Bool(false))) then Ok(msg)
    else
      match ResolveEncoding(cfg.stdinDefault, msg["fileEncoded" := Bool(true)])
      case Err(e) => Err(e)
      case Ok(m) =>
        if m["fileEncoding"] in KnownEncodings then RenderKnown(cfg, m)
        else Encode(cfg, m["fileEncoding" := Str("txt")]["fileEncoded" := Bool(false)])
  }
}
