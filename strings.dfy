/** The few JavaScript string operations the gateway relies on. */
module Strings {
  import opened Wrappers

  /** `s.startsWith(p)`. */
  predicate StartsWith(s: string, p: string) {
    |p| <= |s| && s[..|p|] == p
  }

  /** `s.indexOf(pat)`: the first position at which `pat` occurs in `s`. */
  function IndexOf(s: string, pat: string): (r: Option<nat>)
    ensures r.Some? ==> r.value + |pat| <= |s| && StartsWith(s[r.value..], pat)
    ensures r.Some? ==> forall j :: 0 <= j < r.value ==> !StartsWith(s[j..], pat)
    ensures r.None? ==> forall j :: 0 <= j <= |s| ==> !StartsWith(s[j..], pat)
    decreases |s|
  {
    if StartsWith(s, pat) then Some(0)
    else if s == [] then None
    else
      match IndexOf(s[1..], pat)
      case None =>
        assert forall j :: 1 <= j <= |s| ==> s[j..] == s[1..][j - 1..];
        None
      case Some(i) =>
        assert forall j :: 1 <= j <= i + 1 ==> s[j..] == s[1..][j - 1..];
        assert s[i + 1..] == s[1..][i..];
        Some(i + 1)
  }

  /** `pat` occurs in `s` at position `i` and at no earlier position. */
  predicate FirstAt(s: string, pat: string, i: nat) {
    i + |pat| <= |s| && StartsWith(s[i..], pat) && forall j :: 0 <= j < i ==> !StartsWith(s[j..], pat)
  }

  /**
   * `s.replace(pat, rep)` with a string pattern: the first occurrence of `pat` is replaced by
   * `rep` and the rest is kept; without an occurrence the string is unchanged.
   */
  function ReplaceFirst(s: string, pat: string, rep: string): (r: string)
    ensures forall i: nat :: FirstAt(s, pat, i) ==> r == s[..i] + rep + s[i + |pat|..]
    ensures (forall j :: 0 <= j <= |s| ==> !StartsWith(s[j..], pat)) ==> r == s
  {
    match IndexOf(s, pat)
    case None => s
    case Some(i) => s[..i] + rep + s[i + |pat|..]
  }

  /** When `s` starts with `pat`, replacing its first occurrence strips that prefix. */
  lemma ReplacePrefix(s: string, pat: string, rep: string)
    requires StartsWith(s, pat)
    ensures ReplaceFirst(s, pat, rep) == rep + s[|pat|..]
  {
    assert FirstAt(s, pat, 0) by {
      assert s[0..] == s;
    }
    var r := ReplaceFirst(s, pat, rep);
    assert r == s[..0] + rep + s[|pat|..];
    assert s[..0] == [];
  }

  /**
   * Removing the first `c` (`s.replace(c, "")` with a one-character string): when `c` occurs,
   * exactly its first occurrence is dropped and every other character is kept in order;
   * otherwise nothing changes.
   */
  lemma RemoveFirstChar(s: string, c: char)
    ensures c !in s ==> ReplaceFirst(s, [c], "") == s
    ensures c in s ==> exists i :: 0 <= i < |s| && s[i] == c && c !in s[..i] &&
                                   ReplaceFirst(s, [c], "") == s[..i] + s[i + 1..]
  {
    IndexOfChar(s, c);
    var r := IndexOf(s, [c]);
    if r.Some? {
      var i := r.value;
      assert FirstAt(s, [c], i);
      assert ReplaceFirst(s, [c], "") == s[..i] + "" + s[i + 1..];
      assert s[..i] + "" + s[i + 1..] == s[..i] + s[i + 1..];
    } else {
      assert forall j :: 0 <= j <= |s| ==> !StartsWith(s[j..], [c]);
    }
  }

  /** For a one-character pattern, `IndexOf` finds exactly the first occurrence of that character. */
  lemma {:induction false} IndexOfChar(s: string, c: char)
    ensures IndexOf(s, [c]).Some? <==> c in s
    ensures IndexOf(s, [c]).Some? ==>
      var i := IndexOf(s, [c]).value; i < |s| && s[i] == c && c !in s[..i]
    decreases |s|
  {
    if s != [] {
      assert s[..1] == [s[0]];
      if s[0] != c {
        IndexOfChar(s[1..], c);
        assert s == [s[0]] + s[1..];
        if IndexOf(s, [c]).Some? {
          var i := IndexOf(s[1..], [c]).value;
          assert s[..i + 1] == [s[0]] + s[1..][..i];
        }
      }
    }
  }
}
