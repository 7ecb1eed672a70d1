# smdv synchronisation core, modelled in Dafny

smdv is a markdown viewer. A websocket server keeps one shared view record
(`MESSAGE`): the current directory with its rendered listing, and the open
file with its rendered body. Browsers (`js` clients) display the view.
Editor plug-ins and the command line (`py` clients) change it with `dir` and
`file` messages. The browser's back button sends `back`, which replays a
history of directory snapshots.

This project models the message handler `handle_message` and the history
push and broadcast of `send_message_to_all_js_clients`. It also models the
client registry (`register_client`, `unregister_client`), the content
encoder (`encode`, `txt2body`) and the message check `validate_message`.
Three rendering helpers are included too:
- the content test of `is_binary_file`;
- the entry order and link text of `dir2body`;
- the relative-URL rewrite at the end of `md2body`.

The server's globals are one immutable `Server.State`. Every handler is a
pure function from a state and a message to a `Server.Step`: the next state,
the sends in order, and whether the handler returned or raised. A Python
exception is a value (`PyValues.PyError`). A handler that raises keeps what
it had already committed, as the source does:
- the merge into `MESSAGE` stays when the history push raises `KeyError`;
- the history pops of `back` stay when the re-dispatch raises;
- a registration stays when the first message's dispatch raises.

Modules, one file each:
- `PyValues` (`py_values.dfy`): JSON values, messages, Python truthiness, `==`, `get`, `[]`, `str()`.
- `Settings` (`config.dfy`): the command-line settings. The markdown, notebook and directory-listing converters are uninterpreted functions.
- `PathNames`, `PyStrings`: POSIX `splitext`/`join`/`basename`, and `str.replace`/`startswith`/`join`.
- `Encoder`, `EncoderProperties`: `encode` and `txt2body`.
- `Validator`: `validate_message`.
- `History`: the BACK/FORWARD deques and the history push.
- `Server`, `ServerProperties`: `handle_message`, the registry, the session loop of `serve_client`, and their properties.
- `BinaryContent`, `Listing`, `UrlRewrite`: the three rendering helpers.

## Model

| member | source | states |
|---|---|---|
| Server.HandleMessage | smdv.py:434-486 | Handling a message never changes the set of browser or producer connections; only registration does. |
| ServerProperties.HandlePreservesInv | smdv.py:453-464 | Every message, from any connection and whether it returns or raises, keeps BACK and FORWARD at 20 entries or fewer. BACK never holds the same directory twice in a row. The proof follows the `back` re-dispatch. |
| ServerProperties.InitialInv | smdv.py:56-57 | The empty start-up history satisfies the history invariant. |
| Server.Preflight | smdv.py:440-444 | A message gets past the top of the handler exactly when `validate_message` passes and any `cwd` it carries is a string, since `os.chdir(ARGS.home + cwd)` raises `TypeError` otherwise. |
| ServerProperties.OtherFuncsLeaveStateAlone | smdv.py:445-452 | A message whose `func` is not `dir`, `file` or `back` leaves the view, both deques and the registry unchanged. This covers a missing `func`, `numJSClients`, `editFile` and the browser's handshake. |
| ServerProperties.NumJsClientsReplies | smdv.py:447-449 | `numJSClients` sends the number of registered browsers to the asking connection only, and changes nothing. |
| ServerProperties.EditFileOpensEditor | smdv.py:450-452 | `editFile` opens `home + fileCwd + filename` of the view in the editor and changes no state. It raises exactly when the view lacks a string `fileCwd` or `filename`. |
| ServerProperties.BackWithShortHistoryIsNoop | smdv.py:453-455 | `back` with fewer than two BACK entries does nothing. |
| ServerProperties.BackUnfold | smdv.py:456-463 | From the file pane, `back` pops one entry. Otherwise it moves the front entry to FORWARD (evicting past 20) and pops the next. The popped entry is then dispatched again. |
| ServerProperties.BackFromDirectory | smdv.py:458-463 | `back` from the directory pane puts BACK's old front at FORWARD's front, and FORWARD keeps at most 20. When it completes, the view's directory is the older entry's, BACK's front names it again, and the older entries stay. |
| ServerProperties.BackFromFile | smdv.py:456-457 | `back` from the file pane leaves FORWARD alone. When it completes, the view returns to the popped entry's directory with the file pane closed. |
| ServerProperties.SnapshotDispatch | smdv.py:556-570 | A history snapshot dispatched again is a `dir` message that passes validation. It raises `TypeError` exactly when its directory is not a string. |
| ServerProperties.RedispatchSnapshot | smdv.py:463 | Dispatching a snapshot again sets the view's directory to the snapshot's and closes the file pane. BACK becomes the history push of the new view, and FORWARD is unchanged. |
| Server.CarryOpenFile | smdv.py:466-475 | A `dir` message keeps the open file exactly when it names no file, the view has one, and `forceClose` is falsy. The five file fields then come from the view and every other field from the message. The result holds `forceClose` exactly when the message did and the first two tests did not both hold: Python's `and` stops early, so `pop` runs only after they pass. |
| Server.CopyKeys | smdv.py:471-475 | The five open-file fields are copied from the view in order. The copy succeeds exactly when all are present, and otherwise raises `KeyError` for a missing one. |
| Server.ListDirectoryIfStale | smdv.py:476-478 | The listing is rendered for `cwd` and marked encoded exactly when `cwdEncoded` is falsy; otherwise the message is untouched. A missing `cwdEncoded` raises `KeyError("cwdEncoded")`; with a falsy `cwdEncoded`, a missing `cwd` raises `KeyError("cwd")` and a non-string one `TypeError`. |
| Server.PrepareDir | smdv.py:465-478 | The `dir` preparation fails exactly when a carried file field is missing from the view, `cwdEncoded` is missing, or a listing is due and `cwd` is not a string. A message that carries no file and lacks `cwdEncoded` raises `KeyError("cwdEncoded")`. A prepared message is marked encoded. Its `cwdBody` is the listing of `cwd` when the message's `cwdEncoded` was falsy, and otherwise the message's own. When the open file is kept, its five file fields are the view's; otherwise every file field the message carries is kept as sent. |
| ServerProperties.PrepareDirKeys | smdv.py:465-478 | After the `dir` preparation every key holds the message's value, the rendered listing, or the view's open-file value. |
| ServerProperties.DirCarriesOpenFile | smdv.py:466-475 | When a `dir` message keeps the open file and completes, the view's five file fields are the ones it had before. |
| ServerProperties.DirWithoutCarryTakesMessageFileFields | smdv.py:466-475 | When a `dir` message does not keep the open file and completes, every file field it carries reaches the view as sent. |
| ServerProperties.DirTakesMessageFields | smdv.py:481-482 | A completed `dir` merges every field of the message outside the file fields, the listing and `forceClose` into the view unchanged. |
| ServerProperties.DirListsStaleDirectory | smdv.py:476-478 | After a completed `dir`, the view's `cwdEncoded` is truthy. When the message's was falsy, `cwdBody` is the listing of the message's `cwd`. Otherwise the message's own `cwdBody` is kept. |
| ServerProperties.FileIsEncodedBeforeMerge | smdv.py:479-482 | A completed `file` message that was not yet encoded leaves the view marked encoded, with a kind the encoder renders. |
| ServerProperties.MergeKeepsAbsentKeys | smdv.py:481-482 | `dir` and `file` merge by key. A key the message lacks keeps its old value, except the four fields the handler fills in itself. |
| ServerProperties.MergeTakesIncomingKeys | smdv.py:481-482 | For a `dir` or `file` message that does not keep the open file, either nothing was merged or every key it carries reaches the view with the message's value. The exceptions are the keys the handler pops (`nvimAddress`, `forceClose`) or rewrites (the listing, the body and the encoder's fields). |
| Server.Navigate | smdv.py:465-486 | A preparation (the `dir` steps, or `encode`) that raises leaves the state alone and sends nothing. Otherwise the view becomes the old view updated by the prepared message, even when a later step raises. The step completes exactly when the preparation succeeds, the history push succeeds and, for an interactive `file`, the editor path exists. It then sets BACK to the push and broadcasts the new view, after opening the file in the editor for an interactive `file`. When it raises, BACK is unchanged, and `dir` or a non-interactive `file` has sent nothing. |
| Server.EditorPath | smdv.py:450-451 | The editor is handed `home + fileCwd + filename` of the view, the same path line 484 uses. It raises exactly when `fileCwd` or `filename` is missing or not a string. |
| ServerProperties.DirFilePushesHistory | smdv.py:481-486 | A completed `dir` or `file` sets BACK to the history push of the new view, so BACK's front names the view's directory. FORWARD is unchanged. Every browser is sent the new view once, after the editor call in interactive mode. |
| Server.Commit | smdv.py:482-485 | The merge always stays. When the history push raises, BACK is unchanged and nothing is sent; otherwise BACK is the push and the view is broadcast. |
| Server.BroadcastView | smdv.py:573-574 | The view is sent to all browsers in one broadcast, and nothing is sent when no browser is connected. |
| History.PushHistory | smdv.py:555-572 | A directory snapshot is pushed when BACK is empty or its front names another directory (Python `==`), and the oldest entry is evicted past 20. `KeyError` is raised for the first missing field read: `cwd`, then `cwdBody`, then `cwdEncoded`. A push onto BACK of fewer than 20 entries adds one, and a push onto a full one keeps 20. The result's front always names the view's directory, and neighbours stay distinct. |
| History.PushOntoRoom | smdv.py:555-572 | A push onto a BACK of fewer than 20 entries puts the view's directory snapshot in front and keeps every old entry. |
| History.Evict | smdv.py:571-572 | A deque grown to 21 entries loses its last (oldest) entry and keeps the rest. |
| History.Snapshot.AsMessage | smdv.py:556-570 | A snapshot is a producer `dir` message with exactly the eleven checked keys, the view's three directory fields, and an empty, closed file pane. |
| ServerProperties.DirCompletes | smdv.py:465-486 | A `dir` message with a string `cwd`, `cwdBody` and `cwdEncoded`, and no carried file, always completes. |
| ServerProperties.DirStep | smdv.py:465-486 | A full `dir` message naming no file, on a view with no file open, completes. It sets the view's directory and pushes it onto BACK. |
| ServerProperties.TwoDirectories | smdv.py:465-486 | From start-up, `dir a` then `dir b` leaves BACK as `b`, `a` and FORWARD empty, with the invariant holding. |
| ServerProperties.BackButtonCompletes | smdv.py:453-464 | The back button from the directory pane, with two BACK entries and no file open, completes. The view returns to the older entry's directory and the newer entry goes to FORWARD. |
| ServerProperties.NavigateAndGoBack | smdv.py:453-486 | From start-up, `dir a`, `dir b`, `back` leaves the view at `a` and only `b` on FORWARD. |
| Server.RegisterClient | smdv.py:503-513 | `js` registers a browser and sends it the current view before dispatching the message. `py` registers a producer. Any other `client`, or none, raises `ValueError` and changes nothing. |
| ServerProperties.RegisterDispatchesFirst | smdv.py:503-513 | The first message is dispatched after registration, with the effect it has without the registration. A producer gets that dispatch's state with itself added, and the same sends and outcome. A browser likewise gets the dispatch's state and outcome, plus the old view sent to it first, then the dispatch's sends addressed to the enlarged browser set. |
| ServerProperties.DispatchIgnoresRegistry | smdv.py:434-486 | Handling a message reads the client sets only for the `numJSClients` count and the broadcast audience. With other sets, the view, both deques and the outcome are the same, and the sends are the same when the browser set is. The proof follows the `back` re-dispatch. |
| ServerProperties.NavigateIgnoresRegistry | smdv.py:465-486 | The `dir` and `file` branches reach the same view, history and outcome whoever is connected, and send the same when the browsers are the same. |
| Server.UnregisterClient | smdv.py:585-588 | The connection is removed from both sets, and nothing else changes. An unknown connection leaves the state as it was. |
| ServerProperties.BrowserHandshakeReceivesView | smdv.py:503-513 | A browser's `newjsclient` handshake registers it, sends it the view, and changes nothing else. |
| ServerProperties.RegisterThenUnregister | smdv.py:585-588 | Registering a new connection and then unregistering it restores both client sets, whatever the first message did. `serve_client` as written does not always unregister (see Findings). |
| Server.DispatchAll | smdv.py:541-542 | The message loop of `serve_client` never changes the client sets. It does nothing on no messages and stops with the first message that raises. |
| Server.ServeClientAsWritten | smdv.py:539-544 | When registration (including its first dispatch) raises, `serve_client` ends with the registration's result and never unregisters. Otherwise it behaves as the corrected version. |
| Server.ServeClient | smdv.py:539-544 | With registration inside the `try`, the connection ends in neither client set and every other connection keeps its role. A registration error is the session's outcome. |
| ServerProperties.ServeClientAsWrittenLeaks | smdv.py:539-544 | As written, a producer whose hello has a non-string `cwd` raises `TypeError` and is still registered after `serve_client` returns. |
| ServerProperties.ServeClientRestoresRegistry | smdv.py:539-544 | Corrected, a connection not registered before the session is not registered after it, and the client sets are as they were. |
| Validator.ValidateMessage | smdv.py:1432-1450 | The check raises exactly when the message's `client` field (not `func`) is `dir` or `file` and some of the eleven keys are missing. The error names the missing keys. |
| Validator.RoleMessagesAreNeverChecked | smdv.py:1434 | A message whose `client` is `js` or `py` always passes. |
| Validator.MissingClientIsNeverChecked | smdv.py:1434 | A message without `client` always passes, since the default `"func"` is neither kind. |
| Validator.ExtraKeysAreNeverRejected | smdv.py:1450 | A key outside the eleven never changes the verdict: the second assertion tests a key of the set against the set itself. |
| Encoder.Encode | smdv.py:740-772 | An encoded message is returned as it is. Otherwise the result is marked encoded, keeps the message's other fields and declares a kind it renders (`md`, `ipynb`, `txt` or `html`). |
| Encoder.InferEncoding | smdv.py:746-754 | A dot-file gives `txt`, a name with an extension gives the extension without its dot, and otherwise the configured default is used. An empty name raises `IndexError` and a non-string name raises `TypeError`. |
| Encoder.ResolveEncoding | smdv.py:745-754 | A truthy `fileEncoding` is kept. Otherwise the inferred kind is written back, and resolution fails exactly when inference does. |
| Encoder.RenderKnown | smdv.py:755-768 | Rendering a known kind changes only the body and possibly the kind, and always ends on a known kind. Only a non-`html` kind can fail, and its body must be present. |
| EncoderProperties.EncodeIsSingleFallback | smdv.py:767-772 | `encode`'s self-call is a single fallback: the recursive definition equals a single-pass reference that resolves, picks the final kind and renders once. |
| EncoderProperties.EncodeIdempotent | smdv.py:742-743 | Encoding an encoded result changes nothing. |
| EncoderProperties.UnknownKindRendersAsText | smdv.py:770-772 | An unknown declared kind is reset to `txt` and its body rendered as fenced text. |
| EncoderProperties.NotebookWithoutNbconvertRendersAsText | smdv.py:758-766 | Without nbconvert, a notebook is downgraded to `txt` in the same call. |
| EncoderProperties.HtmlIsPassedThrough | smdv.py:767-768 | `html` is left alone; only the encoded flag changes. |
| Encoder.TextToHtml | smdv.py:1397-1404 | `txt2body` renders, as markdown, a line of three backticks, the text, and another such line. |
| EncoderProperties.NoteXyzInfersXyz | smdv.py:751 | The kind inferred for `note.xyz` is `xyz`. |
| EncoderProperties.UnknownResolvedOnce | smdv.py:740-772 | In the single-pass reference, an unencoded message whose kind resolves to an unknown one is marked encoded, reports `txt`, and has its body rendered as text. |
| EncoderProperties.UnknownExtensionScenario | smdv.py:740-772 | An unencoded `note.xyz` without a declared kind completes: the message is marked encoded, reports `txt`, and its body becomes the fenced text rendered as markdown; nothing else changes. |
| PathNames.SplitExt | smdv.py:751 | The stem and extension rebuild the path. The extension is empty or a dot followed by no dot and no slash. It is non-empty exactly when the last path component has a dot with a non-dot character before it, so leading dots never start an extension. |
| PathNames.SplitPointIsExtension | smdv.py:751 | The split test (last dot after the last slash, with a non-dot character between them) holds exactly when the last component has such a dot. |
| PathNames.SplitExtOfStemDotExt | smdv.py:751 | A name made of a plain stem, a dot and a dot-free extension splits at that dot. |
| PathNames.RFind | smdv.py:751 | Returns the last position of the character, or -1 when it does not occur. |
| PathNames.PathJoin | smdv.py:786-788 | An absolute second part replaces the first. Otherwise the result ends with the second part, and what comes before it is the first part, or the first part and a slash; no slash is added when the first part is empty or already ends in one. |
| PathNames.Basename | smdv.py:790 | The result is a suffix of the path with no slash in it, and it is the whole path or starts right after a slash. |
| PathNames.BasenameAfterSlash | smdv.py:790 | `basename` of a slash-free name behind nothing or behind a slash is that name. |
| PathNames.BasenameOfJoin | smdv.py:788-790 | An entry name joined onto its directory comes back out of `basename`. |
| PyStrings.Replace | smdv.py:789 | A pattern that does not occur leaves the text unchanged. An empty pattern inserts the replacement, so the text grows. |
| PyStrings.ReplaceEmptyLength | smdv.py:1019 | Replacing the empty pattern inserts one copy more than the text has characters. |
| PyStrings.ReplaceSkips | smdv.py:1019 | Text in which the pattern cannot start passes through `replace` unchanged. |
| PyStrings.JoinLength | smdv.py:797 | `join` puts exactly one separator between neighbours. |
| BinaryContent.DeleteText | smdv.py:870 | `translate(None, textchars)` keeps exactly the non-text bytes, in order. |
| BinaryContent.DeleteTextOne | smdv.py:870 | One byte is kept by `translate(None, textchars)` exactly when it is not a text byte. |
| BinaryContent.DeleteTextAppend | smdv.py:870 | The bytes kept from a concatenation are the bytes kept from each part, in order; with the one-byte case this fixes order and multiplicity. |
| BinaryContent.IsBinaryString | smdv.py:865-870 | Content is binary exactly when some byte is outside the text set. |
| BinaryContent.NonTextBytes | smdv.py:865-869 | The non-text bytes are NUL to ACK, VT, SO to SUB, FS to US, and DEL. |
| BinaryContent.ScanForBinary | smdv.py:870 | A left-to-right scan finds a non-text byte exactly when the translate-based test says binary. |
| BinaryContent.IsBinaryFile | smdv.py:872-878 | A missing file is not binary; an existing file is binary exactly when one of its first 1024 bytes is not text. |
| BinaryContent.TailIsIgnored | smdv.py:875 | Bytes past the first 1024 never change the verdict. |
| Listing.Upper | smdv.py:787 | The sort key has the name's length, with each ASCII lower-case letter mapped to its capital. |
| Listing.StrLeTotal | smdv.py:787 | Any two sort keys are ordered one way or the other. |
| Listing.StrLeTrans | smdv.py:787 | The string order on sort keys is transitive. |
| Listing.SortByUpper | smdv.py:787 | Sorting by upper-cased name is a permutation whose result is in key order. |
| Listing.OfKind | smdv.py:791-792 | Every entry kept has the wanted kind and comes from the listing, every entry of that kind is kept, and a sorted listing stays sorted. |
| Listing.OfKindCons | smdv.py:791-792 | An entry in front of a run is kept exactly when it has the wanted kind, ahead of the run's kept entries. |
| Listing.OfKindAppend | smdv.py:791-792 | Filtering a concatenation gives the filtered parts in order; with `OfKindCons` this fixes order and multiplicity. |
| Listing.OfKindSplits | smdv.py:791-792 | The directories and the files together are the whole listing. |
| Listing.ListingOrder | smdv.py:787-792 | The listing is a permutation of the entries: every directory before every file, each group by upper-cased name. |
| Listing.EntryUrl | smdv.py:789 | A path under the home directory gets an address that starts with `http://127.0.0.1:` and the port; a path that does not mention the home directory is left as it is. |
| Listing.EntryUrlOfHomePath | smdv.py:789 | The home directory followed by a rest that does not mention it again is served at the server's address followed by that rest. |
| Listing.DirLinkText | smdv.py:790 | A slash after the first character of `<b>` at the end of the link text makes the closing `</b>`. |
| Listing.DirLabel | smdv.py:790-791 | The `link` helper with `<b>` gives a directory the text `<b>`, folder icon, non-breaking space, base name, `</b>`: the slash after the first character turns the opening tag into the closing one. |
| Listing.FileLabel | smdv.py:790-795 | A file's text is a space, page icon, non-breaking space, base name and a space, with no slash left: the slash the `link` helper puts at its end is removed again. |
| Listing.Anchors | smdv.py:793-796 | There is one anchor per entry, in order, each the entry's link under the listed directory with the run's label kind. |
| Listing.OfKindAll | smdv.py:791-792 | A run of entries of one kind is kept whole under that kind and gives nothing under the other. |
| Listing.DirsFirstTail | smdv.py:791-792 | Dropping the head of a listing with directories first keeps directories first, and a file at the head means there are no directories. |
| Listing.GroupedByKind | smdv.py:791-792 | In a listing with every directory before every file, the directories followed by the files are the listing itself, so the two filters lose and reorder nothing. |
| Listing.AnchorsOfKind | smdv.py:793-796 | For a run of one kind, labelling every entry by the run's kind is labelling each by its own. |
| Listing.AnchorsInOrderAppend | smdv.py:793-796 | The anchors of two lists placed one after the other are those of the first followed by those of the second. |
| Listing.AnchorsOfGroups | smdv.py:791-796 | Directory anchors followed by file anchors are the anchors, each labelled by its entry's kind, of the directories followed by the files. |
| Listing.DirBody | smdv.py:785-797 | The page is the anchors of the listing's entries under `home` joined with `cwd` (one leading slash dropped). There is one anchor per entry, in listing order, each labelled as a directory or a file by the entry's own kind, joined by `<br>` and a newline. The page is empty exactly when the directory is. |
| UrlRewrite.LeftAlone | smdv.py:1018 | A URL is left alone exactly when it starts with `/`, `http://` or `https://`: each of the three prefixes is sufficient, and a URL left alone has one of them, so a relative `hello.png` is rewritten. |
| UrlRewrite.RewriteOne | smdv.py:1018-1019 | An absolute or root-relative URL leaves the page alone, and so does a relative URL that does not occur in it. |
| UrlRewrite.RewriteAsWritten | smdv.py:1017-1019 | A list of only absolute URLs leaves the page alone. |
| UrlRewrite.Distinct | smdv.py:1010-1013 | Keeps each non-empty listed URL once, and nothing else. |
| UrlRewrite.RewriteUrls | smdv.py:1017-1019 | The corrected rewrite leaves the page alone when no listed URL is a non-empty relative one. |
| UrlRewrite.RepeatedUrlIsRewrittenOnce | smdv.py:1017-1019 | In the corrected rewrite, listing a URL again changes nothing. |
| UrlRewrite.EmptyUrlIsIgnored | smdv.py:1017-1019 | In the corrected rewrite, an empty URL changes nothing. |
| UrlRewrite.ReplaceTwoReferences | smdv.py:1019 | One `replace` pass prefixes each of two references once. |
| UrlRewrite.RepeatedUrlIsPrefixedTwice | smdv.py:1017-1019 | As written, a relative URL found twice has each of its references prefixed twice. |
| UrlRewrite.RepeatedUrlIsPrefixedOnce | smdv.py:1017-1019 | Corrected, each reference is prefixed once. |
| UrlRewrite.TwoImagesAsWritten | smdv.py:1017-1019 | As written, a page with two `<img src="b.png">` gets a doubled static prefix on both. |
| UrlRewrite.TwoImagesCorrected | smdv.py:1017-1019 | Corrected, the same page gets one prefix on each. |
| UrlRewrite.EmptyUrlFloodsPage | smdv.py:1017-1019 | As written, an empty URL puts the prefix before every character and at the end. |
| UrlRewrite.EmptyUrlLeavesPage | smdv.py:1017-1019 | Corrected, an empty URL leaves the page alone. |

## Left out

- The websocket transport, `asyncio`, JSON parsing and serialisation, the Flask routes and templates, argument parsing, and the `send_as_pyclient` helpers are not modelled. Messages arrive as already-parsed dictionaries, and sends are recorded as `Outbound` values.
- `Value` has no case for JSON floats, lists or nested objects. This is a modelling choice: `send_message_from_stdin` (smdv.py:1353) forwards any JSON object a user pipes in, so such values can reach `handle_message`. A float, list or object in a field the core tests for truth (`filename`, `fileOpen`, `fileEncoded`, `cwdEncoded`, `forceClose`) or compares (`cwd`) is therefore outside the model.
- The markdown converter (`md2body` as a whole, including pandoc), the notebook converter and the directory listing are uninterpreted functions in `Settings.Config`. Whether nbconvert can be imported is a configuration flag, and no converter error other than that `ImportError` is modelled.
- Server.Preflight: `os.chdir` is not performed. Only its `TypeError` for a non-string `cwd` is modelled, not `FileNotFoundError` for a missing directory.
- Server.HandleMessage: `nvimAddress` is dropped from the message, but the editor address it sets and `edit_in_neovim` itself are not modelled. The editor call is recorded as `OpenInEditor(path)`.
- Validator.ValidateMessage: Python iterates the key set in an unspecified order, so the error names the whole set of missing keys rather than the first one found.
- Listing.Upper: only ASCII letters are upper-cased. Full Unicode `str.upper`, whose results may change length, is not modelled.
- Listing.ListingOrder: `sorted` is stable, but `os.listdir` returns names in an unspecified order. So the model states sortedness and permutation, not which of two equal keys comes first.
- BinaryContent.IsBinaryFile: reading the file is not modelled. The caller passes whether it exists and its bytes.
- UrlRewrite.RewriteAsWritten: the URL list is taken as given, not extracted from the page with regular expressions. The static prefix is a parameter, not computed from the working directory.
- `md2body` resolves relative paths against the working directory that `handle_message` changes with `os.chdir` (smdv.py:444, 1016). `Config.markdownToHtml` is a fixed function of the text, so the model does not track that dependence.
- The `%` escaping and the `printf`/`pandoc` pipeline inside `md2body` are not modelled, and neither is `ipynb2body`. Both are covered by the uninterpreted converters.
- The process management, browser opening and server status helpers (`main`, `run_*`, `kill_websocket_server`, `wait_for_*`, `change_current_working_directory`, `update_filename` and the like) are outside the modelled core.

## Findings

| source | as written | input that shows it | evidently intended | confidence | as-written member | corrected member |
|---|---|---|---|---|---|---|
| smdv.py:1017-1019 | Each URL the scans find is rewritten with a global `replace` of the whole page, once per time it is found. | A page with `<img src="b.png">` twice: the scans list `b.png` twice, so each reference becomes `http://host:port/@static/http://host:port/@static/b.png`. | Each distinct relative URL is prefixed once. | not executed | UrlRewrite.TwoImagesAsWritten | UrlRewrite.TwoImagesCorrected |
| smdv.py:539-544 | `register_client`, which also dispatches the first message, runs before the `try`/`finally` that unregisters. | A producer whose first message is `{"client": "py", "cwd": 0}`: `os.chdir` raises `TypeError` during the first dispatch, `serve_client` exits without `unregister_client`, and the connection stays in `PYCLIENTS`. | The connection is unregistered however its session ends. | not executed | ServerProperties.ServeClientAsWrittenLeaks | ServerProperties.ServeClientRestoresRegistry |
| smdv.py:1017-1019 | An empty URL passes the relative-URL test and `html.replace("", prefix)` runs. | `<img src="">`: the scan yields `""`, and the prefix is inserted before every character of the page. | Empty URLs are skipped. | not executed | UrlRewrite.EmptyUrlFloodsPage | UrlRewrite.EmptyUrlLeavesPage |

`Server.ServeClientAsWritten` and `Server.ServeClient` are the two versions of `serve_client` behind the first row. The general forms of the two URL findings are `UrlRewrite.RepeatedUrlIsPrefixedTwice` against `UrlRewrite.RepeatedUrlIsPrefixedOnce`, and `UrlRewrite.RewriteAsWritten` against `UrlRewrite.RewriteUrls`. The rest of the model treats the markdown converter as uninterpreted, so it does not depend on either version.
