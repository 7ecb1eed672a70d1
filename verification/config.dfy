/** The server's configuration and the external converters it calls out to.

    The converters are uninterpreted: the pandoc pipeline behind
    `md2body`, nbconvert behind `ipynb2body` (and whether importing it raises
    `ImportError`), and the filesystem listing behind `dir2body` are total
    functions the model never looks inside.
 */
module Settings {

  datatype Config = Config(
    /** `ARGS.home`: the root every `cwd` is relative to. */
    home: string,
    /** `ARGS.stdin`: the encoding assumed when a name carries no extension. */
    stdinDefault: string,
    /** `md2body`: markdown to HTML. */
    markdownToHtml: string -> string,
    /** `ipynb2body`: notebook JSON to HTML, when nbconvert can be imported. */
    notebookToHtml: string -> string,
    /** False when importing nbconvert raises `ImportError`. */
    nbconvertInstalled: bool,
    /** `dir2body`: the HTML listing of a directory, given its `cwd`. */
    listDirectory: string -> string,
    /** `ARGS.interactive`: every file shown is also opened in the editor. */
    interactive: bool
  )
}
