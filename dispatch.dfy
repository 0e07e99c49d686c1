/**
 * The request pipeline as functions of the gateway's state: which Markdown a request resolves
 * to, what it fetches, how the cache changes, and what the handler answers.
 */
module Dispatch {
  import opened Wrappers
  import opened Strings
  import opened Routes
  import opened Content
  import Search

  /** The cache from key to Markdown, and the files fetched from the content source so far, in order. */
  datatype State = State(cache: map<string, string>, log: seq<string>)

  /** The two ways the renderer is called: for navigation and footer, and for the trusted page body. */
  datatype RenderOptions = AllowDetailsDataPath | DisableSanitization

  /** The Markdown renderer (`render`), not modelled: any function of the Markdown and the options. */
  type Renderer = (string, RenderOptions) -> string

  /** What startup prepares once: the not-found Markdown and the rendered navigation and footer. */
  datatype Shell = Shell(notFound: string, nav: string, footer: string)

  /** The handler's answers; the HTML template around a page's parts is not modelled. */
  datatype Response =
    | Icon(svg: string)
    | Wasm(bytes: seq<bv8>)
    | Page(dataPath: string, main: string, nav: string, footer: string)
  {
    function ContentType(): string {
      match this
      case Icon(_) => "image/svg+xml"
      case Wasm(_) => "application/wasm"
      case Page(_, _, _, _) => "text/html;charset=utf-8"
    }
  }

  const FaviconSvg := "<svg width=\"100\" height=\"100\" xmlns=\"http://www.w3.org/2000/svg\">\n" +
                      "  <rect width=\"100\" height=\"100\" fill=\"#74d1f0\" />\n</svg>"

  /** The files startup fetches, in order: the not-found page, the navigation and the footer. */
  const StartupFiles: seq<string> := [MarkdownFile("404"), MarkdownFile("_nav"), MarkdownFile("_footer")]

  /** What startup prepares from the pinned origin. */
  function Boot(o: Origin, render: Renderer): Shell {
    Shell(FetchText(o, StartupFiles[0]),
          render(FetchText(o, StartupFiles[1]), AllowDetailsDataPath),
          render(FetchText(o, StartupFiles[2]), AllowDetailsDataPath))
  }

  /** Every cache key is a routed logical path, holding the text of its file at the pinned revision. */
  ghost predicate Coherent(o: Origin, cache: map<string, string>) {
    forall k :: k in cache ==> Routed(k) && cache[k] == FetchText(o, MarkdownFile(k))
  }

  /**
   * `getMarkdownForRequest`: the search page; else the cached value under the raw pathname;
   * else the not-found Markdown for an unrouted pathname; else a fresh fetch of the routed page,
   * stored under its logical path.
   */
  function MarkdownFor(o: Origin, shell: Shell, s: State, pathname: string, q: Option<string>): (State, string) {
    if pathname == "/search" then (s, Search.Page(q))
    else if pathname in s.cache then (s, s.cache[pathname])
    else
      match ContentPath(pathname)
      case None => (s, shell.notFound)
      case Some(contentPath) =>
        var file := MarkdownFile(contentPath);
        var content := FetchText(o, file);
        (State(s.cache[contentPath := content], s.log + [file]), content)
  }

  /**
   * The request handler: resolve the Markdown and render it, then answer the favicon, or an
   * example fetched from under `/wasm/`, or the page with the pathname (first `"` removed) as its data path.
   */
  function Serve(o: Origin, render: Renderer, shell: Shell, s: State, pathname: string, q: Option<string>): (State, Response) {
    var (s', markdown) := MarkdownFor(o, shell, s, pathname, q);
    var body := render(markdown, DisableSanitization);
    if pathname == "/favicon.ico" then (s', Icon(FaviconSvg))
    else if StartsWith(pathname, "/wasm/") then
      var file := WasmFile(ReplaceFirst(pathname, "/wasm/", ""));
      (State(s'.cache, s'.log + [file]), Wasm(FetchBytes(o, file)))
    else (s', Page(ReplaceFirst(pathname, "\"", ""), body, shell.nav, shell.footer))
  }

  /** No request pathname (which starts with `/`) is ever a cache key, so the cached early return never fires. */
  lemma NeverHits(o: Origin, s: State, pathname: string)
    requires Coherent(o, s.cache)
    requires StartsWith(pathname, "/")
    ensures pathname !in s.cache
  {
  }

  /** A search request fetches nothing, leaves the cache alone and answers the search page. */
  lemma SearchRequest(o: Origin, shell: Shell, s: State, q: Option<string>)
    ensures MarkdownFor(o, shell, s, "/search", q) == (s, Search.Page(q))
  {
  }

  /** An unrouted request fetches nothing, leaves the cache alone and answers the startup not-found Markdown. */
  lemma UnroutedRequest(o: Origin, shell: Shell, s: State, pathname: string, q: Option<string>)
    requires Coherent(o, s.cache)
    requires StartsWith(pathname, "/") && pathname != "/search" && ContentPath(pathname).None?
    ensures MarkdownFor(o, shell, s, pathname, q) == (s, shell.notFound)
  {
    NeverHits(o, s, pathname);
  }

  /**
   * A routed request fetches its Markdown file at the pinned revision exactly once, overwrites
   * only the key of its logical path, and answers the fetched text.
   */
  lemma RoutedRequest(o: Origin, shell: Shell, s: State, pathname: string, q: Option<string>)
    requires Coherent(o, s.cache)
    requires StartsWith(pathname, "/") && ContentPath(pathname).Some?
    ensures var contentPath := ContentPath(pathname).value;
            var file := MarkdownFile(contentPath);
            MarkdownFor(o, shell, s, pathname, q) ==
              (State(s.cache[contentPath := FetchText(o, file)], s.log + [file]), FetchText(o, file))
  {
    NeverHits(o, s, pathname);
    assert pathname != "/search" by {
      assert ("/search")[1..] == "search";
    }
  }

  /** Resolving a request keeps every cache key routed and every cached value the file's text. */
  lemma MarkdownForCoherent(o: Origin, shell: Shell, s: State, pathname: string, q: Option<string>)
    requires Coherent(o, s.cache)
    ensures Coherent(o, MarkdownFor(o, shell, s, pathname, q).0.cache)
  {
    if pathname != "/search" && pathname !in s.cache && ContentPath(pathname).Some? {
      var contentPath := ContentPath(pathname).value;
      assert Routed(contentPath);
    }
  }

  /**
   * The cache does not memoise: asking twice for the same page fetches its file twice and
   * answers the same text both times.
   */
  lemma RepeatRefetches(o: Origin, shell: Shell, s: State, pathname: string, q: Option<string>)
    requires Coherent(o, s.cache)
    requires StartsWith(pathname, "/") && ContentPath(pathname).Some?
    ensures var (s1, first) := MarkdownFor(o, shell, s, pathname, q);
            var (s2, second) := MarkdownFor(o, shell, s1, pathname, q);
            var file := MarkdownFile(ContentPath(pathname).value);
            s2.log == s.log + [file, file] && s2.cache == s1.cache && second == first
  {
    var s1 := MarkdownFor(o, shell, s, pathname, q).0;
    RoutedRequest(o, shell, s, pathname, q);
    MarkdownForCoherent(o, shell, s, pathname, q);
    RoutedRequest(o, shell, s1, pathname, q);
  }

  /** `/favicon.ico` resolves its (not-found) Markdown first, fetches nothing and answers the icon. */
  lemma ServeFavicon(o: Origin, render: Renderer, shell: Shell, s: State, q: Option<string>)
    requires Coherent(o, s.cache)
    ensures Serve(o, render, shell, s, "/favicon.ico", q) == (s, Icon(FaviconSvg))
    ensures Icon(FaviconSvg).ContentType() == "image/svg+xml"
  {
    assert ContentPath("/favicon.ico") == None by {
      assert ("/favicon.ico")[1..] == "favicon.ico";
    }
    UnroutedRequest(o, shell, s, "/favicon.ico", q);
  }

  /**
   * A pathname under `/wasm/` fetches exactly `examples/<rest>.wasm` at the pinned revision,
   * leaves the cache alone and answers its bytes as WebAssembly.
   */
  lemma ServeWasm(o: Origin, render: Renderer, shell: Shell, s: State, pathname: string, q: Option<string>)
    requires Coherent(o, s.cache)
    requires StartsWith(pathname, "/wasm/")
    ensures var file := WasmFile(pathname[6..]);
            var r := Serve(o, render, shell, s, pathname, q);
            r == (State(s.cache, s.log + [file]), Wasm(FetchBytes(o, file))) &&
            r.1.ContentType() == "application/wasm"
  {
    WasmUnrouted(pathname);
    assert pathname != "/search" && pathname != "/favicon.ico" by {
      assert pathname[1] == "/wasm/"[1] == 'w';
    }
    UnroutedRequest(o, shell, s, pathname, q);
    ReplacePrefix(pathname, "/wasm/", "");
    assert "" + pathname[6..] == pathname[6..];
  }

  /**
   * Any other pathname answers a page whose body is the resolved Markdown rendered without
   * sanitising, and whose data path is the pathname with only its first `"` removed.
   */
  lemma ServePage(o: Origin, render: Renderer, shell: Shell, s: State, pathname: string, q: Option<string>)
    requires pathname != "/favicon.ico" && !StartsWith(pathname, "/wasm/")
    ensures var (s', markdown) := MarkdownFor(o, shell, s, pathname, q);
            var r := Serve(o, render, shell, s, pathname, q);
            r.0 == s' && r.1.Page? && r.1.ContentType() == "text/html;charset=utf-8" &&
            r.1.main == render(markdown, DisableSanitization) &&
            r.1.nav == shell.nav && r.1.footer == shell.footer &&
            ('"' !in pathname ==> r.1.dataPath == pathname) &&
            ('"' in pathname ==> exists i :: 0 <= i < |pathname| && pathname[i] == '"' && '"' !in pathname[..i] &&
                                             r.1.dataPath == pathname[..i] + pathname[i + 1..])
  {
    RemoveFirstChar(pathname, '"');
  }

  /**
   * The handler changes the state only as resolving the Markdown does, followed (for an
   * example) by its one WebAssembly fetch; it keeps the cache coherent.
   */
  lemma ServeState(o: Origin, render: Renderer, shell: Shell, s: State, pathname: string, q: Option<string>)
    requires Coherent(o, s.cache)
    ensures var s1 := MarkdownFor(o, shell, s, pathname, q).0;
            var s2 := Serve(o, render, shell, s, pathname, q).0;
            Coherent(o, s2.cache) && s2.cache == s1.cache &&
            s2.log == s1.log + (if pathname != "/favicon.ico" && StartsWith(pathname, "/wasm/")
                                then [WasmFile(ReplaceFirst(pathname, "/wasm/", ""))] else [])
  {
    MarkdownForCoherent(o, shell, s, pathname, q);
  }

  /** Requesting `/` fetches `site/readme.md` once and answers its text. */
  lemma RootScenario(o: Origin, shell: Shell, s: State, q: Option<string>)
    requires Coherent(o, s.cache)
    ensures MarkdownFor(o, shell, s, "/", q) ==
            (State(s.cache["readme" := FetchText(o, "site/readme.md")], s.log + ["site/readme.md"]),
             FetchText(o, "site/readme.md"))
  {
    assert ContentPath("/") == Some("readme") by {
      assert ("/")[1..] == "";
    }
    RoutedRequest(o, shell, s, "/", q);
    assert MarkdownFile("readme") == "site/readme.md";
  }
}
