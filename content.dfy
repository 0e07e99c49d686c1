/** The content source: the repository files the gateway reads, pinned to one revision. */
module Content {
  import opened Wrappers
  import opened Strings

  /** The repository the site is served from. */
  const Owner := "RoyalIcing"
  const Repo := "Orb"

  /**
   * The bytes of a file of a repository at a revision, `(owner, repo, sha, file)`: the response
   * body of the repository host's content endpoint. The host is not modelled; any function will do.
   */
  type Source = (string, string, string, string) -> seq<bv8>

  /** Reading a response body as text (`res.text()`). */
  type Decoder = seq<bv8> -> string

  /** Where content comes from: the revision pinned at startup, the host and the text decoder. */
  datatype Origin = Origin(sha: string, source: Source, decode: Decoder)

  /** The repository file holding the Markdown of a logical content path (`getContentMarkdown`). */
  function MarkdownFile(path: string): string {
    "site/" + path + ".md"
  }

  /** The repository file holding a compiled example (`getExampleWasm`). */
  function WasmFile(name: string): string {
    "examples/" + name + ".wasm"
  }

  /** The bytes of `file` at the pinned revision. */
  function FetchBytes(o: Origin, file: string): seq<bv8> {
    o.source(Owner, Repo, o.sha, file)
  }

  /** The text of `file` at the pinned revision. */
  function FetchText(o: Origin, file: string): string {
    o.decode(FetchBytes(o, file))
  }

  /** The logical content path a Markdown file name stands for, if it is one. */
  function MarkdownPathOf(file: string): Option<string> {
    if |file| >= 8 && StartsWith(file, "site/") && file[|file| - 3..] == ".md"
    then Some(file[5..|file| - 3]) else None
  }

  /** The example name a WebAssembly file name stands for, if it is one. */
  function WasmNameOf(file: string): Option<string> {
    if |file| >= 14 && StartsWith(file, "examples/") && file[|file| - 5..] == ".wasm"
    then Some(file[9..|file| - 5]) else None
  }

  /** `MarkdownFile` and `MarkdownPathOf` are inverse, so distinct paths fetch distinct files. */
  lemma MarkdownFileRoundTrip(path: string, file: string)
    ensures MarkdownFile(path) == file <==> MarkdownPathOf(file) == Some(path)
  {
    if MarkdownPathOf(file) == Some(path) {
      assert file == file[..5] + file[5..|file| - 3] + file[|file| - 3..];
    }
  }

  /** `WasmFile` and `WasmNameOf` are inverse, so distinct names fetch distinct files. */
  lemma WasmFileRoundTrip(name: string, file: string)
    ensures WasmFile(name) == file <==> WasmNameOf(file) == Some(name)
  {
    if WasmNameOf(file) == Some(name) {
      assert file == file[..9] + file[9..|file| - 5] + file[|file| - 5..];
    }
  }

  /** A page fetch and an example fetch never ask for the same file. */
  lemma FilesDisjoint(path: string, name: string)
    ensures MarkdownFile(path) != WasmFile(name)
  {
    assert MarkdownFile(path)[0] == 's' && WasmFile(name)[0] == 'e';
  }
}
