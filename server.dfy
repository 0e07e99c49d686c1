/**
 * The running gateway: the pinned revision and startup fragments, the process-wide cache that
 * requests update in place, and a ghost log of every file fetched from the content source.
 */
module Server {
  import opened Wrappers
  import opened Strings
  import opened Routes
  import opened Content
  import opened Dispatch
  import Search

  class Site {
    const origin: Origin
    const render: Renderer
    const notFoundMd: string
    const navHtml: string
    const footerHtml: string
    var cache: map<string, string>
    ghost var fetchLog: seq<string>

    /** The cache and the fetch log as one value. */
    ghost function Model(): State
      reads this
    {
      State(cache, fetchLog)
    }

    /** The fragments startup prepared. */
    function Fragments(): Shell
      reads this
    {
      Shell(notFoundMd, navHtml, footerHtml)
    }

    ghost predicate Valid()
      reads this
    {
      Coherent(origin, cache)
    }

    /**
     * Startup at revision `sha`: fetch the not-found page, the navigation and the footer once,
     * render the latter two, and start with an empty cache that holds none of them.
     */
    constructor (sha: string, source: Source, decode: Decoder, render: Renderer)
      ensures Valid()
      ensures origin == Origin(sha, source, decode) && this.render == render
      ensures Fragments() == Boot(origin, render)
      ensures cache == map[] && fetchLog == StartupFiles
    {
      var o := Origin(sha, source, decode);
      origin := o;
      this.render := render;
      notFoundMd := FetchText(o, MarkdownFile("404"));
      navHtml := render(FetchText(o, MarkdownFile("_nav")), AllowDetailsDataPath);
      footerHtml := render(FetchText(o, MarkdownFile("_footer")), AllowDetailsDataPath);
      cache := map[];
      fetchLog := [MarkdownFile("404"), MarkdownFile("_nav"), MarkdownFile("_footer")];
    }

    /** `getContentMarkdown`: one fetch of the page's Markdown file at the pinned revision. */
    method GetContentMarkdown(path: string) returns (text: string)
      modifies this`fetchLog
      ensures text == FetchText(origin, MarkdownFile(path))
      ensures fetchLog == old(fetchLog) + [MarkdownFile(path)]
    {
      var file := "site/" + path + ".md";
      text := origin.decode(origin.source(Owner, Repo, origin.sha, file));
      fetchLog := fetchLog + [file];
    }

    /** `getExampleWasm`: one fetch of an example's WebAssembly file at the pinned revision. */
    method GetExampleWasm(name: string) returns (bytes: seq<bv8>)
      modifies this`fetchLog
      ensures bytes == FetchBytes(origin, WasmFile(name))
      ensures fetchLog == old(fetchLog) + [WasmFile(name)]
    {
      var file := "examples/" + name + ".wasm";
      bytes := origin.source(Owner, Repo, origin.sha, file);
      fetchLog := fetchLog + [file];
    }

    /**
     * `getMarkdownForRequest`: looks the raw pathname up in the cache, but stores the fetched
     * Markdown under the logical path.
     */
    method GetMarkdownForRequest(pathname: string, q: Option<string>) returns (md: string)
      requires Valid()
      modifies this
      ensures Valid()
      ensures (Model(), md) == MarkdownFor(origin, Fragments(), old(Model()), pathname, q)
    {
      if pathname == "/search" {
        md := Search.Markdown(q);
        return;
      }
      if pathname in cache {
        md := cache[pathname];
        return;
      }
      var contentPath := ContentPath(pathname);
      if contentPath.None? {
        md := notFoundMd;
        return;
      }
      var content := GetContentMarkdown(contentPath.value);
      assert Routed(contentPath.value);
      cache := cache[contentPath.value := content];
      md := content;
    }

    /**
     * The request handler: resolve and render the Markdown, then answer the favicon, an example
     * under `/wasm/`, or the page.
     */
    method Handle(pathname: string, q: Option<string>) returns (response: Response)
      requires Valid()
      modifies this
      ensures Valid()
      ensures (Model(), response) == Serve(origin, render, Fragments(), old(Model()), pathname, q)
    {
      var markdown := GetMarkdownForRequest(pathname, q);
      var body := render(markdown, DisableSanitization);
      if pathname == "/favicon.ico" {
        response := Icon(FaviconSvg);
        return;
      }
      if StartsWith(pathname, "/wasm/") {
        var name := ReplaceFirst(pathname, "/wasm/", "");
        var wasmBytes := GetExampleWasm(name);
        response := Wasm(wasmBytes);
        return;
      }
      response := Page(ReplaceFirst(pathname, "\"", ""), body, navHtml, footerHtml);
    }
  }

  /** Startup: with no HEAD revision to pin there is no gateway; otherwise one pinned to it. */
  method Start(head: Option<string>, source: Source, decode: Decoder, render: Renderer) returns (site: Option<Site>)
    ensures head.None? <==> site.None?
    ensures site.Some? ==> fresh(site.value) && site.value.Valid() &&
                           site.value.origin == Origin(head.value, source, decode) &&
                           site.value.render == render &&
                           site.value.Fragments() == Boot(site.value.origin, render) &&
                           site.value.cache == map[] && site.value.fetchLog == StartupFiles
  {
    if head.None? {
      return None;
    }
    var s := new Site(head.value, source, decode, render);
    site := Some(s);
  }

  /** Two requests for the same page in a row: two fetches of its file, one cache entry, the same answer. */
  method RepeatedRequest(site: Site, pathname: string)
    requires site.Valid() && StartsWith(pathname, "/") && ContentPath(pathname).Some?
    modifies site
    ensures site.Valid()
    ensures var file := MarkdownFile(ContentPath(pathname).value);
            site.fetchLog == old(site.fetchLog) + [file, file]
  {
    RepeatRefetches(site.origin, site.Fragments(), site.Model(), pathname, None);
    var first := site.GetMarkdownForRequest(pathname, None);
    var second := site.GetMarkdownForRequest(pathname, None);
    assert first == second;
  }
}
