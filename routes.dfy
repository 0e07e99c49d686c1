/** The route table: a request pathname to the logical content path of the page it shows. */
module Routes {
  import opened Wrappers
  import opened Strings

  /** The logical content paths that are served under `/` followed by their own name. */
  const SelfRoutes: set<string> := {
    "install",
    "concepts/core-webassembly", "concepts/elixir-compiler", "concepts/strings",
    "concepts/composable-modules", "concepts/custom-types", "concepts/platform-agnostic",
    "run/elixir", "run/javascript",
    "silverorb/parse", "silverorb/format"
  }

  /** Where the root document comes from, and the one alias. */
  const Readme := "readme"
  const Alias := "silverorb"
  const AliasTarget := "silverorb/silverorb"

  /**
   * `getContentPath`: input not starting with `/` is not routed; otherwise the rest of the
   * pathname is matched against the fixed table. No logical path starts with `/`.
   */
  function ContentPath(path: string): (r: Option<string>)
    ensures r.Some? ==> |r.value| > 0 && r.value[0] != '/'
  {
    if !StartsWith(path, "/") then None
    else
      var subpath := path[1..];
      match subpath
      case "" => Some(Readme)
      case "install" => Some(subpath)
      case "concepts/core-webassembly" => Some(subpath)
      case "concepts/elixir-compiler" => Some(subpath)
      case "concepts/strings" => Some(subpath)
      case "concepts/composable-modules" => Some(subpath)
      case "concepts/custom-types" => Some(subpath)
      case "concepts/platform-agnostic" => Some(subpath)
      case "run/elixir" => Some(subpath)
      case "run/javascript" => Some(subpath)
      case "silverorb" => Some(AliasTarget)
      case "silverorb/parse" => Some(subpath)
      case "silverorb/format" => Some(subpath)
      case _ => None
  }

  /** The inverse of the table: the one request pathname that shows a logical path. */
  function RequestPath(contentPath: string): (r: Option<string>)
    ensures r.Some? ==> StartsWith(r.value, "/")
  {
    if contentPath == Readme then Some("/")
    else if contentPath == AliasTarget then Some("/" + Alias)
    else if contentPath in SelfRoutes then Some("/" + contentPath)
    else None
  }

  /** A logical path some request pathname is routed to. */
  ghost predicate Routed(contentPath: string) {
    exists path :: ContentPath(path) == Some(contentPath)
  }

  /** The table case by case, as the source lists it. */
  lemma ContentPathCases(path: string)
    ensures !StartsWith(path, "/") ==> ContentPath(path) == None
    ensures path == "/" ==> ContentPath(path) == Some("readme")
    ensures path == "/silverorb" ==> ContentPath(path) == Some("silverorb/silverorb")
    ensures StartsWith(path, "/") && path[1..] in SelfRoutes ==> ContentPath(path) == Some(path[1..])
    ensures StartsWith(path, "/") && path[1..] !in SelfRoutes + {"", "silverorb"} ==> ContentPath(path) == None
  {
  }

  /** `ContentPath` and `RequestPath` are inverse: routing is a bijection between its domain and range. */
  lemma {:induction false} RoundTrip(path: string, contentPath: string)
    ensures ContentPath(path) == Some(contentPath) <==> RequestPath(contentPath) == Some(path)
  {
    if ContentPath(path) == Some(contentPath) {
      ContentPathInverted(path);
    }
    if RequestPath(contentPath) == Some(path) {
      RequestPathRouted(contentPath);
    }
  }

  lemma ContentPathInverted(path: string)
    requires ContentPath(path).Some?
    ensures RequestPath(ContentPath(path).value) == Some(path)
  {
    var sub := path[1..];
    assert path == "/" + sub;
    if sub == "" {
      assert path == "/";
    } else if sub == Alias {
      assert ContentPath(path) == Some(AliasTarget);
    } else {
      assert ContentPath(path) == Some(sub);
      assert sub in SelfRoutes;
    }
  }

  lemma RequestPathRouted(contentPath: string)
    requires RequestPath(contentPath).Some?
    ensures ContentPath(RequestPath(contentPath).value) == Some(contentPath)
  {
    var path := RequestPath(contentPath).value;
    if contentPath == Readme {
      assert path[1..] == "";
    } else if contentPath == AliasTarget {
      assert path[1..] == Alias;
    } else {
      assert path[1..] == contentPath;
    }
  }

  /** Two pathnames routed to the same logical path are the same pathname. */
  lemma {:induction false} Injective(p: string, q: string)
    requires ContentPath(p).Some? && ContentPath(p) == ContentPath(q)
    ensures p == q
  {
    RoundTrip(p, ContentPath(p).value);
    RoundTrip(q, ContentPath(p).value);
  }

  /** The range of the table is exactly the readme, the alias target and the self routes. */
  lemma RoutedIff(contentPath: string)
    ensures Routed(contentPath) <==>
            contentPath == Readme || contentPath == AliasTarget || contentPath in SelfRoutes
  {
    if contentPath == Readme || contentPath == AliasTarget || contentPath in SelfRoutes {
      RoundTrip(RequestPath(contentPath).value, contentPath);
    }
  }

  /** The alias target written as a pathname is itself not routed. */
  lemma AliasTargetUnrouted()
    ensures ContentPath("/" + AliasTarget) == None
  {
    assert ("/" + AliasTarget)[1..] == AliasTarget;
  }

  /** Nothing under `/wasm/` is a page. */
  lemma WasmUnrouted(path: string)
    requires StartsWith(path, "/wasm/")
    ensures ContentPath(path) == None
  {
    var sub := path[1..];
    assert sub[..5] == "wasm/";
  }
}
