/** The `/search` page: query normalisation, attribute escaping, the keyword links and the Markdown. */
module Search {
  import opened Wrappers
  import opened Strings

  /**
   * What JavaScript's `String.prototype.trim` removes: the ECMAScript WhiteSpace characters
   * (tab, vertical tab, form feed, no-break space, byte order mark and the space separators)
   * and the LineTerminator characters.
   */
  predicate IsWhitespace(c: char) {
    c == '\t' || c == '\n' || c == '\U{000B}' || c == '\U{000C}' || c == '\r' || c == ' ' ||
    c == '\U{00A0}' || c == '\U{1680}' || ('\U{2000}' <= c <= '\U{200A}') ||
    c == '\U{2028}' || c == '\U{2029}' || c == '\U{202F}' || c == '\U{205F}' ||
    c == '\U{3000}' || c == '\U{FEFF}'
  }

  /** The characters the pattern `[\n\r\t]` matches. */
  predicate IsControl(c: char) {
    c == '\n' || c == '\r' || c == '\t'
  }

  /** No two adjacent spaces. */
  predicate NoDoubleSpace(s: string) {
    forall i :: 0 <= i < |s| - 1 ==> !(s[i] == ' ' && s[i + 1] == ' ')
  }

  /** The leading-whitespace half of `trim`. */
  function TrimStart(s: string): string
    decreases |s|
  {
    if |s| > 0 && IsWhitespace(s[0]) then TrimStart(s[1..]) else s
  }

  /** The trailing-whitespace half of `trim`. */
  function TrimEnd(s: string): string
    decreases |s|
  {
    if |s| > 0 && IsWhitespace(s[|s| - 1]) then TrimEnd(s[..|s| - 1]) else s
  }

  /** `query.trim()`. */
  function Trim(s: string): string {
    TrimEnd(TrimStart(s))
  }

  /** `TrimStart` drops exactly the longest whitespace prefix. */
  lemma {:induction false} TrimStartSpec(s: string)
    ensures var r := TrimStart(s);
      |r| <= |s| && r == s[|s| - |r|..] &&
      (forall i :: 0 <= i < |s| - |r| ==> IsWhitespace(s[i])) &&
      (r == [] || !IsWhitespace(r[0]))
    decreases |s|
  {
    if |s| > 0 && IsWhitespace(s[0]) {
      TrimStartSpec(s[1..]);
    }
  }

  /** `TrimEnd` drops exactly the longest whitespace suffix. */
  lemma {:induction false} TrimEndSpec(s: string)
    ensures var r := TrimEnd(s);
      |r| <= |s| && r == s[..|r|] &&
      (forall i :: |r| <= i < |s| ==> IsWhitespace(s[i])) &&
      (r == [] || !IsWhitespace(r[|r| - 1]))
    decreases |s|
  {
    if |s| > 0 && IsWhitespace(s[|s| - 1]) {
      TrimEndSpec(s[..|s| - 1]);
    }
  }

  /** Neither end of a trimmed string is whitespace. */
  lemma TrimShape(s: string)
    ensures var r := Trim(s); r == [] || (!IsWhitespace(r[0]) && !IsWhitespace(r[|r| - 1]))
  {
    TrimStartSpec(s);
    TrimEndSpec(TrimStart(s));
  }

  /** `replace(/[\n\r\t]/g, ' ')`. */
  function ReplaceControls(s: string): string {
    if s == [] then [] else [if IsControl(s[0]) then ' ' else s[0]] + ReplaceControls(s[1..])
  }

  /** Each newline, carriage return and tab becomes one space; every other character stays where it is. */
  lemma {:induction false} ReplaceControlsSpec(s: string)
    ensures |ReplaceControls(s)| == |s|
    ensures forall i :: 0 <= i < |s| ==> ReplaceControls(s)[i] == if IsControl(s[i]) then ' ' else s[i]
  {
    if s != [] {
      ReplaceControlsSpec(s[1..]);
    }
  }

  /** `replace(/[ ]+/g, ' ')`: every maximal run of spaces becomes one space. */
  function CollapseSpaces(s: string): string
    decreases |s|
  {
    if |s| < 2 then s
    else if s[0] == ' ' && s[1] == ' ' then CollapseSpaces(s[1..])
    else [s[0]] + CollapseSpaces(s[1..])
  }

  /** Collapsing never lengthens the string and keeps both of its ends. */
  lemma {:induction false} CollapseEnds(s: string)
    ensures var r := CollapseSpaces(s);
      |r| <= |s| && (|s| > 0 ==> |r| > 0 && r[0] == s[0] && r[|r| - 1] == s[|s| - 1])
    decreases |s|
  {
    if |s| >= 2 {
      CollapseEnds(s[1..]);
    }
  }

  /** Collapsing introduces no character. */
  lemma {:induction false} CollapseChars(s: string)
    ensures forall c :: c in CollapseSpaces(s) ==> c in s
    decreases |s|
  {
    if |s| >= 2 {
      CollapseChars(s[1..]);
    }
  }

  /** Collapsing leaves no two adjacent spaces. */
  lemma {:induction false} CollapseNoDouble(s: string)
    ensures NoDoubleSpace(CollapseSpaces(s))
    decreases |s|
  {
    if |s| >= 2 {
      CollapseNoDouble(s[1..]);
      CollapseEnds(s[1..]);
      var t := CollapseSpaces(s[1..]);
      if !(s[0] == ' ' && s[1] == ' ') {
        var r := [s[0]] + t;
        forall i | 0 <= i < |r| - 1 ensures !(r[i] == ' ' && r[i + 1] == ' ') {
          if i > 0 {
            assert r[i] == t[i - 1] && r[i + 1] == t[i];
          }
        }
      }
    }
  }

  /** A string without double spaces is left alone. */
  lemma {:induction false} CollapseFixed(s: string)
    requires NoDoubleSpace(s)
    ensures CollapseSpaces(s) == s
    decreases |s|
  {
    if |s| >= 2 {
      assert !(s[0] == ' ' && s[1] == ' ');
      assert NoDoubleSpace(s[1..]) by {
        forall i | 0 <= i < |s[1..]| - 1 ensures !(s[1..][i] == ' ' && s[1..][i + 1] == ' ') {
          assert s[1..][i] == s[i + 1] && s[1..][i + 1] == s[i + 2];
        }
      }
      CollapseFixed(s[1..]);
      assert s == [s[0]] + s[1..];
    }
  }

  /**
   * Collapsing leaves no double space, keeps both ends, introduces no character,
   * and leaves a string without double spaces alone.
   */
  lemma CollapseSpacesSpec(s: string)
    ensures var r := CollapseSpaces(s);
      |r| <= |s| &&
      (|s| > 0 ==> |r| > 0 && r[0] == s[0] && r[|r| - 1] == s[|s| - 1]) &&
      (forall c :: c in r ==> c in s) &&
      NoDoubleSpace(r) &&
      (NoDoubleSpace(s) ==> r == s)
  {
    CollapseEnds(s);
    CollapseChars(s);
    CollapseNoDouble(s);
    if NoDoubleSpace(s) {
      CollapseFixed(s);
    }
  }

  /** The string after its leading run of spaces. */
  function DropLeadingSpaces(s: string): (r: string)
    ensures |r| <= |s| && (s != [] && s[0] == ' ' ==> |r| < |s|)
    ensures r == [] || r[0] != ' '
  {
    if s != [] && s[0] == ' ' then DropLeadingSpaces(s[1..]) else s
  }

  /**
   * Space collapsing read run by run, the way the pattern `[ ]+` matches: a run of spaces
   * gives one space, any other character is kept, in order.
   */
  function CollapseRuns(s: string): string
    decreases |s|
  {
    if s == [] then []
    else if s[0] == ' ' then " " + CollapseRuns(DropLeadingSpaces(s))
    else [s[0]] + CollapseRuns(s[1..])
  }

  /** Collapsing a string that starts with a space gives one space, then the collapse of what follows the run. */
  lemma {:induction false} CollapseLeadingRun(s: string)
    requires s != [] && s[0] == ' '
    ensures CollapseSpaces(s) == " " + CollapseSpaces(DropLeadingSpaces(s))
    decreases |s|
  {
    if |s| >= 2 {
      if s[1] == ' ' {
        CollapseLeadingRun(s[1..]);
      } else {
        assert DropLeadingSpaces(s[1..]) == s[1..];
      }
    }
  }

  /** `CollapseSpaces` is the run-by-run reading of `replace(/[ ]+/g, ' ')`, for every string. */
  lemma {:induction false} CollapseSpacesIsRuns(s: string)
    ensures CollapseSpaces(s) == CollapseRuns(s)
    decreases |s|
  {
    if s != [] {
      if s[0] == ' ' {
        CollapseLeadingRun(s);
        CollapseSpacesIsRuns(DropLeadingSpaces(s));
      } else if |s| >= 2 {
        CollapseSpacesIsRuns(s[1..]);
      }
    }
  }

  /** The query as the search branch leaves it after its two reassignments. */
  function Normalise(query: string): string {
    CollapseSpaces(ReplaceControls(Trim(query)))
  }

  /** A normalised query has no newline, carriage return or tab, no double space, and no whitespace at either end. */
  lemma NormaliseShape(query: string)
    ensures forall c :: c in Normalise(query) ==> !IsControl(c)
    ensures NoDoubleSpace(Normalise(query))
    ensures var r := Normalise(query); r == [] || (!IsWhitespace(r[0]) && !IsWhitespace(r[|r| - 1]))
  {
    var t := Trim(query);
    var u := ReplaceControls(t);
    TrimShape(query);
    ReplaceControlsSpec(t);
    CollapseSpacesSpec(u);
    forall c | c in u ensures !IsControl(c) {
      var i :| 0 <= i < |u| && u[i] == c;
    }
  }

  /** Trimming a string that has no whitespace at either end changes nothing. */
  lemma TrimTrimmed(s: string)
    requires s == [] || (!IsWhitespace(s[0]) && !IsWhitespace(s[|s| - 1]))
    ensures Trim(s) == s
  {
    assert TrimStart(s) == s;
    assert TrimEnd(s) == s;
  }

  /** Replacing controls in a string without any changes nothing. */
  lemma ReplaceControlsFree(s: string)
    requires forall c :: c in s ==> !IsControl(c)
    ensures ReplaceControls(s) == s
  {
    ReplaceControlsSpec(s);
    assert forall i :: 0 <= i < |s| ==> !IsControl(s[i]);
  }

  /** Normalising a normalised query leaves it unchanged. */
  lemma NormaliseIdempotent(query: string)
    ensures Normalise(Normalise(query)) == Normalise(query)
  {
    var r := Normalise(query);
    NormaliseShape(query);
    TrimTrimmed(r);
    ReplaceControlsFree(r);
    CollapseSpacesSpec(r);
  }

  /** The entity that stands for a double quote in the form's value attribute. */
  const Quot := "&quot;"

  /** The number of occurrences of `c` in `s`. */
  function Count(s: string, c: char): nat {
    if s == [] then 0 else (if s[0] == c then 1 else 0) + Count(s[1..], c)
  }

  /** `query.replace(/"/g, '&quot;')`. */
  function EscapeQuotes(s: string): string {
    if s == [] then []
    else (if s[0] == '"' then Quot else [s[0]]) + EscapeQuotes(s[1..])
  }

  /**
   * The escaped value holds no double quote, is longer by five characters per quote,
   * and a string without quotes is left alone.
   */
  lemma {:induction false} EscapeSpec(s: string)
    ensures '"' !in EscapeQuotes(s)
    ensures |EscapeQuotes(s)| == |s| + 5 * Count(s, '"')
    ensures '"' !in s ==> EscapeQuotes(s) == s
  {
    if s != [] {
      EscapeSpec(s[1..]);
      assert s == [s[0]] + s[1..];
    }
  }

  /** Escaping distributes over concatenation: every character is escaped on its own, in order. */
  lemma {:induction false} EscapeAppend(a: string, b: string)
    ensures EscapeQuotes(a + b) == EscapeQuotes(a) + EscapeQuotes(b)
  {
    if a == [] {
      assert a + b == b;
    } else {
      assert (a + b)[0] == a[0];
      assert (a + b)[1..] == a[1..] + b;
      EscapeAppend(a[1..], b);
    }
  }

  /** Whether `&quot;` occurs somewhere in `s`. */
  predicate HasEntity(s: string) {
    StartsWith(s, Quot) || (s != [] && HasEntity(s[1..]))
  }

  /** The inverse reading of the attribute value: each `&quot;` back to a double quote. */
  function UnescapeQuotes(s: string): string
    decreases |s|
  {
    if s == [] then []
    else if StartsWith(s, Quot) then ['"'] + UnescapeQuotes(s[|Quot|..])
    else [s[0]] + UnescapeQuotes(s[1..])
  }

  /** A prefix without `&` of an escaped string is a prefix of the original string. */
  lemma {:induction false} EscapedPrefix(t: string, w: string)
    requires '&' !in w
    requires StartsWith(EscapeQuotes(t), w)
    ensures StartsWith(t, w)
    decreases |w|
  {
    if w != [] {
      assert EscapeQuotes(t)[0] == w[0];
      assert t != [];
      assert t[0] != '"';
      assert EscapeQuotes(t) == [t[0]] + EscapeQuotes(t[1..]);
      assert EscapeQuotes(t[1..])[..|w| - 1] == w[1..];
      EscapedPrefix(t[1..], w[1..]);
      assert t == [t[0]] + t[1..];
    }
  }

  /** Unescaping the form value gives back the query, unless the query itself spelled out `&quot;`. */
  lemma {:induction false} EscapeRoundTrip(s: string)
    requires !HasEntity(s)
    ensures UnescapeQuotes(EscapeQuotes(s)) == s
  {
    if s != [] {
      var rest := EscapeQuotes(s[1..]);
      assert !HasEntity(s[1..]);
      EscapeRoundTrip(s[1..]);
      if s[0] == '"' {
        assert EscapeQuotes(s) == Quot + rest;
        assert (Quot + rest)[|Quot|..] == rest;
      } else {
        assert EscapeQuotes(s) == [s[0]] + rest;
        if StartsWith([s[0]] + rest, Quot) {
          assert ([s[0]] + rest)[1..6] == rest[..5];
          assert rest[..5] == "quot;";
          EscapedPrefix(s[1..], "quot;");
          assert false;
        }
        assert ([s[0]] + rest)[1..] == rest;
      }
    }
  }

  const GitHubLinks: seq<string> := ["https://github.com/RoyalIcing/Orb", "https://github.com/RoyalIcing/SilverOrb"]
  const SpecLinks: seq<string> := [
    "https://webassembly.org/specs/",
    "https://www.w3.org/TR/wasm-core-1/",
    "https://github.com/WebAssembly/WASI/blob/main/Proposals.md"
  ]

  /** The fixed keyword table, matched exactly and case-sensitively. */
  const Keywords: map<string, seq<string>> := map["github" := GitHubLinks, "spec" := SpecLinks, "specs" := SpecLinks]

  /** The result links for a normalised query. */
  function Links(query: string): seq<string> {
    if query in Keywords then Keywords[query] else []
  }

  /** The search form with `attribute` as the value of its input. */
  function Form(attribute: string): string {
    "<form action=/search><input placeholder=\"Search\" name=q value=\"" + attribute +
    "\" style=\"margin-bottom: 1rem\"></form>"
  }

  /** `results.map(result => "- " + result)`. */
  function Bullets(urls: seq<string>): (lines: seq<string>)
    ensures |lines| == |urls|
    ensures forall i :: 0 <= i < |urls| ==> lines[i] == "- " + urls[i]
  {
    if urls == [] then [] else ["- " + urls[0]] + Bullets(urls[1..])
  }

  /** `lines.join(sep)`. */
  function Join(lines: seq<string>, sep: string): string {
    if lines == [] then ""
    else if |lines| == 1 then lines[0]
    else lines[0] + sep + Join(lines[1..], sep)
  }

  /** The Markdown the search branch returns for a normalised query. */
  function PageFor(query: string): string {
    Form(EscapeQuotes(query)) + "\n\n" + Join(Bullets(Links(query)), "\n")
  }

  /** The Markdown the search branch returns for the raw `q` parameter (absent when not given). */
  function Page(q: Option<string>): string {
    PageFor(Normalise(q.GetOr("")))
  }

  /** The search branch as the source writes it: reassign the query, push the links, build the page. */
  method Markdown(q: Option<string>) returns (md: string)
    ensures md == Page(q)
  {
    var query := q.GetOr("");
    query := CollapseSpaces(ReplaceControls(Trim(query)));
    var queryAttribute := EscapeQuotes(query);
    var results: seq<string> := [];
    if query == "github" {
      results := results + GitHubLinks;
    }
    if query == "spec" || query == "specs" {
      results := results + SpecLinks;
    }
    assert results == Links(query);
    md := Form(queryAttribute) + "\n\n" + Join(Bullets(results), "\n");
  }

  /** The keyword table: `github` gives the two GitHub links, `spec` and `specs` the three spec links, anything else none. */
  lemma LinksCases(query: string)
    ensures query == "github" <==> Links(query) == GitHubLinks
    ensures query == "spec" || query == "specs" <==> Links(query) == SpecLinks
    ensures query !in {"github", "spec", "specs"} <==> Links(query) == []
  {
  }

  /** A missing `q` is the empty query: the page is the empty form and nothing else. */
  lemma PageMissing()
    ensures Page(None) == Form("") + "\n\n"
  {
    assert Trim("") == "";
  }

  /** `github` lists the two GitHub links, one bullet per line, after the form. */
  lemma PageGitHub()
    ensures PageFor("github") == Form("github") + "\n\n" + ("- " + GitHubLinks[0] + "\n" + "- " + GitHubLinks[1])
  {
    calc {
      PageFor("github");
      Form(EscapeQuotes("github")) + "\n\n" + Join(Bullets(Links("github")), "\n");
      { EscapeSpec("github"); assert Links("github") == GitHubLinks; }
      Form("github") + "\n\n" + Join(Bullets(GitHubLinks), "\n");
      { GitHubBullets(); }
      Form("github") + "\n\n" + ("- " + GitHubLinks[0] + "\n" + "- " + GitHubLinks[1]);
    }
  }

  /** The two GitHub links as bullet lines. */
  lemma GitHubBullets()
    ensures Join(Bullets(GitHubLinks), "\n") == "- " + GitHubLinks[0] + "\n" + "- " + GitHubLinks[1]
  {
    var lines := Bullets(GitHubLinks);
    assert lines == ["- " + GitHubLinks[0], "- " + GitHubLinks[1]];
    assert Join(lines, "\n") == lines[0] + "\n" + Join(lines[1..], "\n");
  }

  /** The three spec links as bullet lines. */
  lemma SpecBullets()
    ensures Join(Bullets(SpecLinks), "\n") == "- " + SpecLinks[0] + "\n" + "- " + SpecLinks[1] + "\n" + "- " + SpecLinks[2]
  {
    var lines := Bullets(SpecLinks);
    assert lines == ["- " + SpecLinks[0], "- " + SpecLinks[1], "- " + SpecLinks[2]];
    assert Join(lines[1..], "\n") == lines[1] + "\n" + Join(lines[2..], "\n");
    assert Join(lines, "\n") == lines[0] + "\n" + Join(lines[1..], "\n");
  }

  /** `spec` and `specs` list the three spec links, one bullet per line, after the form. */
  lemma PageSpec(query: string)
    requires query == "spec" || query == "specs"
    ensures PageFor(query) ==
      Form(query) + "\n\n" + ("- " + SpecLinks[0] + "\n" + "- " + SpecLinks[1] + "\n" + "- " + SpecLinks[2])
  {
    calc {
      PageFor(query);
      Form(EscapeQuotes(query)) + "\n\n" + Join(Bullets(Links(query)), "\n");
      { EscapeSpec(query); assert Links(query) == SpecLinks; }
      Form(query) + "\n\n" + Join(Bullets(SpecLinks), "\n");
      { SpecBullets(); }
      Form(query) + "\n\n" + ("- " + SpecLinks[0] + "\n" + "- " + SpecLinks[1] + "\n" + "- " + SpecLinks[2]);
    }
  }

  /** Any other query shows only the form, whose value is the escaped query. */
  lemma PageOther(query: string)
    requires query !in Keywords
    ensures PageFor(query) == Form(EscapeQuotes(query)) + "\n\n"
  {
  }

  /** Surrounding whitespace and tabs are removed before matching. */
  lemma NormaliseExample()
    ensures Normalise("  github \t") == "github"
  {
    assert TrimStart("  github \t") == "github \t";
    assert TrimEnd("github \t") == "github";
    assert ReplaceControls("github") == "github";
    assert CollapseSpaces("github") == "github";
  }
}
