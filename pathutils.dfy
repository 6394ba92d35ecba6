/** Path string utilities over '/'-separated paths (python/rules/pathutils.py). */
module PathUtilities {
  import opened Wrappers
  import opened Values
  import Strings
  import opened Characters

  /** A '/' at `i` directly followed by another. */
  predicate SlashPairAt(s: string, i: int)
    requires 0 <= i < |s| - 1
  {
    s[i] == '/' && s[i + 1] == '/'
  }

  predicate NoDoubleSlash(s: string) {
    forall i :: 0 <= i < |s| - 1 ==> !SlashPairAt(s, i)
  }

  predicate AllSlashes(s: string) {
    forall i :: 0 <= i < |s| ==> s[i] == '/'
  }

  predicate EndsWithSlash(s: string) {
    |s| > 0 && s[|s| - 1] == '/'
  }

  /** `re.sub('/+', '/', s)`: every run of '/' becomes a single '/'. */
  function Collapse(s: string): (r: string)
    ensures |r| <= |s|
    ensures NoDoubleSlash(r)
    ensures r == "" <==> s == ""
    ensures s != "" ==> r[0] == s[0] && r[|r| - 1] == s[|s| - 1]
    ensures forall c :: c != '/' ==> (c in r <==> c in s)
    ensures NoDoubleSlash(s) ==> r == s
    ensures s != "" && AllSlashes(s) ==> r == "/"
  {
    if |s| <= 1 then s
    else if s[0] == '/' && s[1] == '/' then
      assert SlashPairAt(s, 0);
      Collapse(s[1..])
    else
      var rest := Collapse(s[1..]);
      var r := [s[0]] + rest;
      assert forall c :: c in s <==> c == s[0] || c in s[1..];
      assert forall i :: 1 <= i < |r| - 1 ==> SlashPairAt(r, i) == SlashPairAt(rest, i - 1);
      assert !SlashPairAt(r, 0);
      NoDoubleSlashSuffix(s, 1);
      r
  }

  /** Keeps the non-empty components, each with its runs of '/' collapsed. */
  function CollapseNonEmpty(components: seq<string>): (r: seq<string>)
    ensures |r| <= |components|
    ensures forall k :: 0 <= k < |r| ==> r[k] != ""
  {
    if components == [] then []
    else (if components[0] == "" then [] else [Collapse(components[0])]) + CollapseNonEmpty(components[1..])
  }

  /** Drops the components that are exactly "/". */
  function DropSeparators(components: seq<string>): (r: seq<string>)
    ensures |r| <= |components|
    ensures forall k :: 0 <= k < |r| ==> r[k] != "/"
  {
    if components == [] then []
    else (if components[0] == "/" then [] else [components[0]]) + DropSeparators(components[1..])
  }

  /**
   * `pathWithComponents(components)`: None for None, "" for no components; otherwise
   * the non-empty components, collapsed, without a "/" after the first, joined by '/',
   * a leading "/" component making the path absolute. When every component is empty the
   * source indexes an empty list and raises IndexError.
   */
  function PathWithComponents(components: Option<seq<string>>): (r: Result<Option<string>, Error>)
    ensures components.None? ==> r == Ok(None)
    ensures components == Some([]) ==> r == Ok(Some(""))
    ensures r.Err? <==> components.Some? && components.value != [] && CollapseNonEmpty(components.value) == []
  {
    if components.None? then Ok(None)
    else if components.value == [] then Ok(Some(""))
    else
      var kept := CollapseNonEmpty(components.value);
      if kept == [] then Err(IndexError)
      else
        var first := if kept[0] == "/" then "" else kept[0];
        Ok(Some(Strings.Join([first] + DropSeparators(kept[1..]), '/')))
  }

  /** Components free of '/' are joined by single slashes. */
  lemma PathWithComponentsJoins()
    ensures PathWithComponents(Some(["a", "b", "c"])) == Ok(Some("a/b/c"))
  {
    var cs := ["a", "b", "c"];
    assert Collapse("a") == "a" && Collapse("b") == "b" && Collapse("c") == "c";
    KeepAll(cs);
    assert cs[1..] == ["b", "c"] && ["b", "c"][1..] == ["c"];
    assert DropSeparators(["b", "c"]) == ["b", "c"];
    assert ["a"] + ["b", "c"] == cs;
    JoinThree("a", "b", "c");
    assert "a" + "/" + "b" + "/" + "c" == "a/b/c";
    assert PathWithComponents(Some(cs)) == Ok(Some(Strings.Join(cs, '/')));
  }

  /** A trailing "/" component adds nothing. */
  lemma PathWithComponentsDropsTrailingSeparator()
    ensures PathWithComponents(Some(["a", "b", "/"])) == Ok(Some("a/b"))
  {
    var cs := ["a", "b", "/"];
    assert Collapse("a") == "a" && Collapse("b") == "b" && Collapse("/") == "/";
    KeepAll(cs);
    assert cs[1..] == ["b", "/"] && ["b", "/"][1..] == ["/"];
    assert DropSeparators(["b", "/"]) == ["b"];
    assert ["a"] + ["b"] == ["a", "b"];
    JoinTwo("a", "b");
    assert "a" + "/" + "b" == "a/b";
    assert PathWithComponents(Some(cs)) == Ok(Some(Strings.Join(["a", "b"], '/')));
  }

  /** An empty last component is left out. */
  lemma PathWithComponentsDropsEmptyLast()
    ensures PathWithComponents(Some(["a", "b", ""])) == Ok(Some("a/b"))
  {
    var cs := ["a", "b", ""];
    assert Collapse("a") == "a" && Collapse("b") == "b";
    assert cs[1..] == ["b", ""] && ["b", ""][1..] == [""];
    assert CollapseNonEmpty([""]) == [];
    assert CollapseNonEmpty(["b", ""]) == ["b"];
    assert CollapseNonEmpty(cs) == ["a", "b"];
    assert ["a", "b"][1..] == ["b"];
    assert DropSeparators(["b"]) == ["b"];
    assert ["a"] + ["b"] == ["a", "b"];
    JoinTwo("a", "b");
    assert "a" + "/" + "b" == "a/b";
    assert PathWithComponents(Some(cs)) == Ok(Some(Strings.Join(["a", "b"], '/')));
  }

  /** An empty first component is left out. */
  lemma PathWithComponentsDropsEmptyFirst()
    ensures PathWithComponents(Some(["", "a", "b"])) == Ok(Some("a/b"))
  {
    var cs := ["", "a", "b"];
    assert Collapse("a") == "a" && Collapse("b") == "b";
    KeepAll(["a", "b"]);
    assert cs[1..] == ["a", "b"];
    assert CollapseNonEmpty(cs) == ["a", "b"];
    assert ["a", "b"][1..] == ["b"];
    assert DropSeparators(["b"]) == ["b"];
    assert ["a"] + ["b"] == ["a", "b"];
    JoinTwo("a", "b");
    assert "a" + "/" + "b" == "a/b";
    assert PathWithComponents(Some(cs)) == Ok(Some(Strings.Join(["a", "b"], '/')));
  }

  /** A leading "/" component makes the path absolute. */
  lemma PathWithComponentsLeadingSeparator()
    ensures PathWithComponents(Some(["/", "a", "b"])) == Ok(Some("/a/b"))
  {
    var cs := ["/", "a", "b"];
    assert Collapse("a") == "a" && Collapse("b") == "b" && Collapse("/") == "/";
    KeepAll(cs);
    assert cs[1..] == ["a", "b"] && ["a", "b"][1..] == ["b"];
    assert DropSeparators(["a", "b"]) == ["a", "b"];
    assert [""] + ["a", "b"] == ["", "a", "b"];
    JoinThree("", "a", "b");
    assert "" + "/" + "a" + "/" + "b" == "/a/b";
    assert PathWithComponents(Some(cs)) == Ok(Some(Strings.Join(["", "a", "b"], '/')));
  }

  /** When every component is empty the source raises IndexError. */
  lemma PathWithComponentsAllEmpty()
    ensures PathWithComponents(Some(["", ""])) == Err(IndexError)
  {
    assert ["", ""][1..] == [""];
  }

  lemma JoinTwo(a: string, b: string)
    ensures Strings.Join([a, b], '/') == a + "/" + b
  {
    assert [a, b][1..] == [b];
  }

  lemma JoinThree(a: string, b: string, c: string)
    ensures Strings.Join([a, b, c], '/') == a + "/" + b + "/" + c
  {
    assert [a, b, c][1..] == [b, c];
    JoinTwo(b, c);
  }

  /**
   * `pathComponents(path)`: None for None, [] for ""; otherwise the collapsed path
   * split at '/', an empty first or last piece standing as "/".
   */
  function PathComponents(path: Option<string>): (r: Option<seq<string>>)
    ensures path.None? <==> r.None?
    ensures path == Some("") ==> r == Some([])
  {
    if path.None? then None
    else if path.value == "" then Some([])
    else
      Some(MarkEnds(Strings.Split(Collapse(path.value), '/')))
  }

  /** An empty first or last piece stands as "/". */
  function MarkEnds(pieces: seq<string>): (r: seq<string>)
    requires |pieces| >= 1
    ensures |r| == |pieces|
  {
    var first := if pieces[0] == "" then pieces[0 := "/"] else pieces;
    if first[|first| - 1] == "" then first[|first| - 1 := "/"] else first
  }

  /** The first piece of a split is empty exactly when the text is empty or starts with '/'. */
  lemma SplitFirstPiece(s: string)
    ensures Strings.Split(s, '/')[0] == "" <==> s == "" || s[0] == '/'
  {
    var i := Strings.FindChar(s, '/', 0);
    if i != -1 {
      assert Strings.Split(s, '/')[0] == s[..i];
    }
  }

  /** The last piece of a split is empty exactly when the text is empty or ends with '/'. */
  lemma {:induction false} SplitLastPiece(s: string)
    ensures var parts := Strings.Split(s, '/');
            parts[|parts| - 1] == "" <==> s == "" || EndsWithSlash(s)
    decreases |s|
  {
    var i := Strings.FindChar(s, '/', 0);
    var parts := Strings.Split(s, '/');
    if i != -1 {
      var rest := s[i + 1..];
      SplitLastPiece(rest);
      var tail := Strings.Split(rest, '/');
      assert parts == [s[..i]] + tail;
      assert parts[|parts| - 1] == tail[|tail| - 1];
      if rest != "" {
        assert rest[|rest| - 1] == s[|s| - 1];
      } else {
        assert i == |s| - 1;
      }
    } else {
      assert parts == [s];
    }
  }

  lemma NoDoubleSlashSuffix(s: string, n: nat)
    requires n <= |s|
    ensures NoDoubleSlash(s) ==> NoDoubleSlash(s[n..])
  {
    var rest := s[n..];
    assert forall j :: 0 <= j < |rest| - 1 ==> SlashPairAt(rest, j) == SlashPairAt(s, n + j);
  }

  /** Splitting a text with no "//" at '/' leaves no empty piece between the first and the last. */
  lemma {:induction false} SplitInnerPieces(s: string)
    requires NoDoubleSlash(s)
    ensures var parts := Strings.Split(s, '/');
            forall k :: 1 <= k < |parts| - 1 ==> parts[k] != ""
    decreases |s|
  {
    var i := Strings.FindChar(s, '/', 0);
    if i != -1 {
      var rest := s[i + 1..];
      var tail := Strings.Split(rest, '/');
      var parts := Strings.Split(s, '/');
      assert parts == [s[..i]] + tail;
      NoDoubleSlashSuffix(s, i + 1);
      SplitInnerPieces(rest);
      if rest != "" {
        assert rest[0] == s[i + 1] && !SlashPairAt(s, i);
        SplitFirstPiece(rest);
      }
      forall k | 1 <= k < |parts| - 1
        ensures parts[k] != ""
      {
        assert parts[k] == tail[k - 1];
      }
    }
  }

  /** No component is empty and each one is "/" or free of '/'. */
  predicate WellFormedComponents(parts: seq<string>) {
    forall k :: 0 <= k < |parts| ==> parts[k] != "" && (parts[k] == "/" || '/' !in parts[k])
  }

  /** For a non-empty path, no component is empty and each one is "/" or free of '/'. */
  lemma PathComponentsWellFormed(path: string)
    requires path != ""
    ensures WellFormedComponents(PathComponents(Some(path)).value)
  {
    var p := Collapse(path);
    var parts := MarkEnds(Strings.Split(p, '/'));
    assert PathComponents(Some(path)) == Some(parts);
    SplitPiecesWellFormed(p);
  }

  /** The pieces of a text with no "//", empty ends standing as "/", are "/" or non-empty and free of '/'. */
  lemma SplitPiecesWellFormed(p: string)
    requires NoDoubleSlash(p)
    ensures WellFormedComponents(MarkEnds(Strings.Split(p, '/')))
  {
    var pieces := Strings.Split(p, '/');
    SplitInnerPieces(p);
    forall k | 1 <= k < |pieces| - 1
      ensures pieces[k] != ""
    {
      assert Strings.Split(p, '/')[k] != "";
    }
    EndsMarked(pieces);
  }

  /** Pieces free of '/' and empty only at the ends become components once empty ends stand as "/". */
  lemma EndsMarked(pieces: seq<string>)
    requires |pieces| >= 1
    requires forall k :: 0 <= k < |pieces| ==> '/' !in pieces[k]
    requires forall k :: 1 <= k < |pieces| - 1 ==> pieces[k] != ""
    ensures WellFormedComponents(MarkEnds(pieces))
  {
  }

  /** Splitting a path with no "//" and no trailing '/' into components and joining them again gives it back. */
  lemma ComponentsRoundTrip(path: string)
    requires path != "" && NoDoubleSlash(path) && !EndsWithSlash(path)
    ensures PathWithComponents(PathComponents(Some(path))) == Ok(Some(path))
  {
    var pieces := Strings.Split(path, '/');
    var components := PathComponents(Some(path)).value;
    ComponentsOfCollapsedPath(path);
    Strings.JoinSplit(path, '/');
    assert [if components[0] == "/" then "" else components[0]] + components[1..] == pieces;
  }

  /**
   * The components of a path with no "//" and no trailing '/' are its pieces, the
   * first standing as "/" when empty, and joining them keeps and drops nothing.
   */
  lemma ComponentsOfCollapsedPath(path: string)
    requires path != "" && NoDoubleSlash(path) && !EndsWithSlash(path)
    ensures var pieces := Strings.Split(path, '/');
            var components := PathComponents(Some(path)).value;
            && components == (if pieces[0] == "" then pieces[0 := "/"] else pieces)
            && CollapseNonEmpty(components) == components
            && DropSeparators(components[1..]) == components[1..]
  {
    var pieces := Strings.Split(path, '/');
    SplitLastPiece(path);
    var components := PathComponents(Some(path)).value;
    assert Collapse(path) == path;
    assert components == MarkEnds(pieces);
    MarkFirstOnly(pieces);
    ComponentsKept(path);
    assert components[1..] == pieces[1..];
    NoSeparatorsToDrop(pieces[1..]);
  }

  /** With a non-empty last piece, only an empty first piece is marked. */
  lemma MarkFirstOnly(pieces: seq<string>)
    requires |pieces| >= 1 && pieces[|pieces| - 1] != ""
    ensures MarkEnds(pieces) == if pieces[0] == "" then pieces[0 := "/"] else pieces
  {
  }

  lemma ComponentsKept(path: string)
    requires path != "" && NoDoubleSlash(path)
    ensures var components := PathComponents(Some(path)).value;
            CollapseNonEmpty(components) == components
  {
    PathComponentsWellFormed(path);
    var components := PathComponents(Some(path)).value;
    forall k | 0 <= k < |components|
      ensures components[k] != "" && Collapse(components[k]) == components[k]
    {
      assert NoDoubleSlash(components[k]);
    }
    KeepAll(components);
  }

  lemma {:induction false} KeepAll(components: seq<string>)
    requires forall k :: 0 <= k < |components| ==> components[k] != "" && Collapse(components[k]) == components[k]
    ensures CollapseNonEmpty(components) == components
  {
    if components != [] {
      KeepAll(components[1..]);
    }
  }

  lemma {:induction false} NoSeparatorsToDrop(components: seq<string>)
    requires forall k :: 0 <= k < |components| ==> '/' !in components[k]
    ensures DropSeparators(components) == components
  {
    if components != [] {
      assert '/' in "/";
      NoSeparatorsToDrop(components[1..]);
    }
  }

  /** Collapsing runs of '/' first does not change the components. */
  lemma PathComponentsOfCollapse(path: string)
    ensures PathComponents(Some(path)) == PathComponents(Some(Collapse(path)))
  {
  }

  /** One more trailing '/' adds a last component "/". */
  lemma PathComponentsTrailingSlash(path: string)
    requires path != "" && !EndsWithSlash(path)
    ensures PathComponents(Some(path + "/")) == Some(PathComponents(Some(path)).value + ["/"])
  {
    var p := Collapse(path);
    CollapseAppendSlash(path);
    var pieces := Strings.Split(p, '/');
    Strings.SplitTrailingSeparator(p, '/');
    assert Strings.Split(Collapse(path + "/"), '/') == pieces + [""];
    SplitLastPiece(p);
    MarkEndsTrailing(pieces);
  }

  /** An empty piece added after a non-empty last piece is marked, and nothing else changes. */
  lemma MarkEndsTrailing(pieces: seq<string>)
    requires |pieces| >= 1 && pieces[|pieces| - 1] != ""
    ensures MarkEnds(pieces + [""]) == MarkEnds(pieces) + ["/"]
  {
    MarkFirstOnly(pieces);
  }

  /** `pathComponents('a/b/')` and `pathComponents('a/b//')` are both ['a', 'b', '/']. */
  lemma PathComponentsTrailingExamples()
    ensures PathComponents(Some("a/b/")) == Some(["a", "b", "/"])
    ensures PathComponents(Some("a/b//")) == Some(["a", "b", "/"])
  {
    CollapseExamples();
    PathComponentsExample();
    PathComponentsTrailingSlash("a/b");
    assert "a/b" + "/" == "a/b/";
    assert ["a", "b"] + ["/"] == ["a", "b", "/"];
    PathComponentsOfCollapse("a/b//");
  }

  lemma PathComponentsExample()
    ensures PathComponents(Some("a/b")) == Some(["a", "b"])
  {
    assert Strings.Split("a/b", '/') == ["a", "b"] by {
      assert "a/b"[0] == 'a' && "a/b"[1] == '/';
      assert Strings.FindChar("a/b", '/', 0) == 1;
      assert "a/b"[..1] == "a" && "a/b"[2..] == "b";
      assert "b"[0] == 'b';
      assert Strings.FindChar("b", '/', 0) == -1;
    }
    CollapseExamples();
    assert MarkEnds(["a", "b"]) == ["a", "b"];
  }

  /** `re.sub('/+', '/', ...)` of the test paths 'a/b' and 'a/b//'. */
  lemma CollapseExamples()
    ensures Collapse("a/b") == "a/b"
    ensures Collapse("a/b//") == "a/b/"
  {
    assert !SlashPairAt("a/b", 0) && !SlashPairAt("a/b", 1);
    assert "//"[1..] == "/";
    assert Collapse("//") == "/";
    assert "b//"[1..] == "//";
    assert Collapse("b//") == "b/";
    assert "/b//"[1..] == "b//";
    assert Collapse("/b//") == "/b/";
    assert "a/b//"[1..] == "/b//";
  }

  /**
   * `lastPathComponent(path)`: None for None, "" for ""; for the collapsed path, "/"
   * when that is all it is, otherwise the text after the last '/' that is not the
   * final character (without a trailing '/').
   */
  function LastPathComponent(path: Option<string>): (r: Option<string>)
    ensures path.None? <==> r.None?
    ensures path == Some("") ==> r == Some("")
  {
    if path.None? then None
    else if path.value == "" then Some("")
    else
      var p := Collapse(path.value);
      if p == "/" then Some(p)
      else
        var separator := Strings.RFindChar(p, '/', |p|);
        var last := |p| - 1;
        if separator == last then
          var previous := Strings.RFindChar(p, '/', Strings.Clip(last - 1, |p|));
          if 0 <= previous < last then Some(p[previous + 1..last]) else Some(p[..last])
        else if 0 <= separator < last then Some(p[separator + 1..])
        else Some(p)
  }

  lemma LastPathComponentOfRoot(path: string)
    requires path != "" && AllSlashes(path)
    ensures LastPathComponent(Some(path)) == Some("/")
  {
  }

  /** The last component never holds a '/', unless it is the root "/". */
  lemma LastPathComponentHasNoSeparator(path: string)
    requires path != ""
    ensures var r := LastPathComponent(Some(path)).value;
            r == "/" || '/' !in r
  {
    var p := Collapse(path);
    var last := |p| - 1;
    if p != "/" && Strings.RFindChar(p, '/', |p|) == last {
      assert last >= 1;
      assert !SlashPairAt(p, last - 1);
    }
  }

  /** On a path not ending in '/', one added trailing '/' does not change the last component. */
  lemma LastPathComponentIgnoresTrailingSlash(path: string)
    requires path != "" && !EndsWithSlash(path)
    ensures LastPathComponent(Some(path + "/")) == LastPathComponent(Some(path))
  {
    CollapseAppendSlash(path);
    var p := Collapse(path);
    var q := p + "/";
    assert Collapse(path + "/") == q;
    var last := |q| - 1;
    assert q != "/";
    assert Strings.RFindChar(q, '/', |q|) == last;
    var previous := Strings.RFindChar(q, '/', Strings.Clip(last - 1, |q|));
    assert q[last - 1] == p[|p| - 1] != '/';
    assert previous == Strings.RFindChar(p, '/', |p|) by {
      RFindPrefix(p, q, '/', |p|);
      assert Strings.RFindChar(p, '/', |p|) == Strings.RFindChar(p, '/', |p| - 1);
      RFindPrefix(p, q, '/', |p| - 1);
    }
    assert q[..last] == p;
  }

  lemma CollapseAppendSlash(s: string)
    requires s != "" && !EndsWithSlash(s)
    ensures Collapse(s + "/") == Collapse(s) + "/"
    decreases |s|
  {
    if |s| == 1 {
      assert Collapse(s + "/") == [s[0]] + Collapse("/");
    } else {
      assert (s + "/")[1..] == s[1..] + "/";
      CollapseAppendSlash(s[1..]);
    }
  }

  lemma RFindPrefix(p: string, q: string, c: char, end: nat)
    requires end <= |p| <= |q| && q[..|p|] == p
    ensures Strings.RFindChar(q, c, end) == Strings.RFindChar(p, c, end)
  {
    if end > 0 {
      assert q[end - 1] == p[end - 1];
      RFindPrefix(p, q, c, end - 1);
    }
  }

  /** A path starting with a word character (`re.match('^\w')`; ASCII letters, digits and '_'). */
  predicate StartsWithWordCharacter(p: string) {
    p != "" && (IsAsciiAlnum(p[0]) || p[0] == '_')
  }

  /**
   * `deleteLastPathComponent(path)`: None for None, "" for ""; for the collapsed path,
   * "/" when that is all it is, otherwise what comes before the last '/' that is not
   * the final character, keeping a root "/" or a drive prefix such as "c:/" or "c:".
   */
  function DeleteLastPathComponent(path: Option<string>): (r: Option<string>)
    ensures path.None? <==> r.None?
    ensures path == Some("") ==> r == Some("")
  {
    if path.None? then None
    else if path.value == "" then Some("")
    else Some(DeleteFromCollapsed(Collapse(path.value)))
  }

  /** What deleting the last component leaves of a non-empty collapsed path. */
  function DeleteFromCollapsed(p: string): string
    requires p != ""
  {
    if p == "/" then p
    else
      var separator0 := Strings.RFindChar(p, '/', |p|);
      var last := |p| - 1;
      var drive := StartsWithWordCharacter(p) && (Strings.FindSub(p, ":/") == 1 || Strings.FindSub(p, ":\\") == 1);
      var letterColon := StartsWithWordCharacter(p) && !drive && Strings.FindChar(p, ':', 0) == 1;
      var first := if drive then 2 else if letterColon then 1 else 0;
      var separator1 :=
        if drive && separator0 == -1 then Strings.RFindChar(p, '\\', |p|)
        else if letterColon then 1
        else separator0;
      if separator1 > -1 && separator1 == first then p[..first + 1]
      else
        var separator := if separator1 == last then Strings.RFindChar(p, '/', Strings.Clip(last - 1, |p|)) else separator1;
        if separator > -1 && separator == first then p[..first + 1]
        else if separator > 0 then p[..separator]
        else ""
  }

  lemma DeleteLastPathComponentOfRoot(path: string)
    requires path != "" && AllSlashes(path)
    ensures DeleteLastPathComponent(Some(path)) == Some("/")
  {
  }

  /** Collapsing runs of '/' first does not change what deleting the last component gives. */
  lemma DeleteLastPathComponentOfCollapse(path: string)
    ensures DeleteLastPathComponent(Some(path)) == DeleteLastPathComponent(Some(Collapse(path)))
  {
    assert Collapse(Collapse(path)) == Collapse(path);
  }

  /**
   * On a path without ':' and not ending in '/', one more trailing '/' does not change
   * what deleting the last component gives: the cut is at the last '/' that is not final.
   */
  lemma DeleteLastPathComponentTrailingSlash(path: string)
    requires path != "" && !EndsWithSlash(path) && ':' !in path
    ensures DeleteLastPathComponent(Some(path + "/")) == DeleteLastPathComponent(Some(path))
  {
    var p := Collapse(path);
    CollapseAppendSlash(path);
    assert ':' !in p;
    DeleteFromCollapsedTrailingSlash(p);
  }

  lemma DeleteFromCollapsedTrailingSlash(p: string)
    requires p != "" && !EndsWithSlash(p) && ':' !in p
    ensures DeleteFromCollapsed(p + "/") == DeleteFromCollapsed(p)
  {
    DeleteFromCollapsedCuts(p);
    DeleteFromCollapsedCutsBeforeSlash(p);
  }

  /** Without ':' and a trailing '/', the cut is at the last '/'. */
  lemma DeleteFromCollapsedCuts(p: string)
    requires p != "" && !EndsWithSlash(p) && ':' !in p
    ensures DeleteFromCollapsed(p) == BeforeLastSeparator(p)
  {
    NoDrive(p);
    var separator := Strings.RFindChar(p, '/', |p|);
    if separator == 0 {
      assert p[..1] == "/";
    }
  }

  /** Without ':', one '/' added after a path not ending in '/' leaves the cut at the path's last '/'. */
  lemma DeleteFromCollapsedCutsBeforeSlash(p: string)
    requires p != "" && !EndsWithSlash(p) && ':' !in p
    ensures DeleteFromCollapsed(p + "/") == BeforeLastSeparator(p)
  {
    var q := p + "/";
    assert ':' !in q;
    NoDrive(q);
    assert Strings.RFindChar(q, '/', |q|) == |p|;
    RFindPrefix(p, q, '/', |p| - 1);
    var s := Strings.RFindChar(p, '/', |p|);
    assert s == Strings.RFindChar(p, '/', |p| - 1);
    if s >= 0 {
      assert q[..s] == p[..s] && q[..s + 1] == p[..s + 1];
    }
    if s == 0 {
      assert q[..1] == "/";
    }
  }

  /**
   * With a drive the trailing '/' does matter: `deleteLastPathComponent('c:')` is 'c:'
   * but `deleteLastPathComponent('c:/')` is 'c:/'.
   */
  lemma DeleteLastPathComponentOfDrive()
    ensures DeleteLastPathComponent(Some("c:")) == Some("c:")
    ensures DeleteLastPathComponent(Some("c:/")) == Some("c:/")
  {
    assert "c:"[0] == 'c' && ":/"[0] == ':' && ":\\"[0] == ':';
    assert Strings.FindSub("c:", ":/") == -1 && Strings.FindSub("c:", ":\\") == -1;
    assert "c:/"[1..3] == ":/";
    assert Strings.FindSub("c:/", ":/") == 1;
    assert Collapse("c:") == "c:" by {
      assert !SlashPairAt("c:", 0);
    }
    assert Collapse("c:/") == "c:/" by {
      assert !SlashPairAt("c:/", 0) && !SlashPairAt("c:/", 1);
    }
    assert StartsWithWordCharacter("c:") && StartsWithWordCharacter("c:/");
    assert Strings.FindChar("c:", ':', 0) == 1;
    assert Strings.RFindChar("c:", '/', 2) == -1;
    assert Strings.RFindChar("c:/", '/', 3) == 2;
    assert "c:"[..2] == "c:" && "c:/"[..3] == "c:/";
  }

  /** `deleteLastPathComponent('a/b/')` and `deleteLastPathComponent('a/b//')` are both 'a'. */
  lemma DeleteLastPathComponentTrailingExamples()
    ensures DeleteLastPathComponent(Some("a/b/")) == Some("a")
    ensures DeleteLastPathComponent(Some("a/b//")) == Some("a")
  {
    CollapseExamples();
    DeleteCutsAtLastSeparator("a/b");
    assert Strings.RFindChar("a/b", '/', 3) == 1;
    DeleteLastPathComponentTrailingSlash("a/b");
    assert "a/b" + "/" == "a/b/";
    DeleteLastPathComponentOfCollapse("a/b//");
  }

  /** A path with no ':' has no drive prefix. */
  lemma NoDrive(p: string)
    requires ':' !in p
    ensures Strings.FindSub(p, ":/") != 1 && Strings.FindSub(p, ":\\") != 1 && Strings.FindChar(p, ':', 0) == -1
  {
    assert !Strings.OccursAt(p, ":/", 1) by {
      assert |p| >= 3 ==> p[1..3][0] == p[1];
    }
    assert !Strings.OccursAt(p, ":\\", 1) by {
      assert |p| >= 3 ==> p[1..3][0] == p[1];
    }
  }

  /** A single relative component (no '/', no drive colon) leaves nothing behind. */
  lemma DeleteLastPathComponentOfSingleComponent(path: string)
    requires path != "" && '/' !in path && ':' !in path
    ensures DeleteLastPathComponent(Some(path)) == Some("")
  {
    var p := Collapse(path);
    assert '/' !in p && ':' !in p;
    NoDrive(p);
    assert Strings.RFindChar(p, '/', |p|) == -1;
  }

  /**
   * `appendPathComponent(path, component)`: joins the two with exactly one '/' at the
   * joint; a missing or empty side gives the other side.
   */
  function AppendPathComponent(path: Option<string>, component: Option<string>): (r: string)
    ensures path.None? ==> r == (if component.None? then "" else component.value)
    ensures path.Some? && component.None? ==> r == path.value
  {
    if path.None? then (if component.None? then "" else component.value)
    else if component.None? then path.value
    else
      var p := path.value;
      var c := component.value;
      if p == "" then c
      else if c == "" then p
      else
        var pathEndsWithSeparator := p[|p| - 1] == '/';
        var componentStartsWithSeparator := c[0] == '/';
        if pathEndsWithSeparator && componentStartsWithSeparator then p[..|p| - 1] + c
        else if pathEndsWithSeparator || componentStartsWithSeparator then p + c
        else p + "/" + c
  }

  function DropTrailingSlash(s: string): string {
    if EndsWithSlash(s) then s[..|s| - 1] else s
  }

  function DropLeadingSlash(s: string): string {
    if s != "" && s[0] == '/' then s[1..] else s
  }

  /**
   * Reference definition: the path less one trailing '/', then '/', then the component
   * less one leading '/'. Only one '/' is dropped from each side, so "a//" and "/c" give "a//c".
   */
  lemma AppendPathComponentJoinsWithOneSlash(path: string, component: string)
    requires path != "" && component != ""
    ensures AppendPathComponent(Some(path), Some(component)) ==
            DropTrailingSlash(path) + "/" + DropLeadingSlash(component)
  {
    if EndsWithSlash(path) {
      assert path == path[..|path| - 1] + "/";
    }
    if component[0] == '/' {
      assert component == "/" + component[1..];
    }
  }

  /** The text after the last '/' of `p` (all of it when there is none). */
  function AfterLastSeparator(p: string): string {
    p[Strings.RFindChar(p, '/', |p|) + 1..]
  }

  /** The text before the last '/' of `p`: "" when there is none, "/" when it is the first character. */
  function BeforeLastSeparator(p: string): string {
    var separator := Strings.RFindChar(p, '/', |p|);
    if separator == -1 then "" else if separator == 0 then "/" else p[..separator]
  }

  /** On a path without a trailing '/', the last component is what follows the last '/'. */
  lemma LastComponentAfterLastSeparator(path: string)
    requires path != "" && !EndsWithSlash(path)
    ensures LastPathComponent(Some(path)) == Some(AfterLastSeparator(Collapse(path)))
  {
    var p := Collapse(path);
    assert p[|p| - 1] != '/';
  }

  /** On a path without ':' and without a trailing '/', deleting the last component cuts at the last '/'. */
  lemma DeleteCutsAtLastSeparator(path: string)
    requires path != "" && !EndsWithSlash(path) && ':' !in path
    ensures DeleteLastPathComponent(Some(path)) == Some(BeforeLastSeparator(Collapse(path)))
  {
    var p := Collapse(path);
    assert ':' !in p && !EndsWithSlash(p);
    DeleteFromCollapsedCuts(p);
  }

  /** Re-joining the two sides of a cut at the last '/' of a path with no "//" and no trailing '/'. */
  lemma RejoinAtLastSeparator(p: string)
    requires p != "" && NoDoubleSlash(p) && !EndsWithSlash(p)
    ensures AppendPathComponent(Some(BeforeLastSeparator(p)), Some(AfterLastSeparator(p))) == p
  {
    var separator := Strings.RFindChar(p, '/', |p|);
    if separator == 0 {
      assert !SlashPairAt(p, 0);
      RejoinAtRoot(p);
    } else if separator > 0 {
      assert !SlashPairAt(p, separator - 1);
      RejoinAt(p, separator);
    }
  }

  lemma RejoinAtRoot(p: string)
    requires |p| >= 2 && p[0] == '/' && p[1] != '/'
    ensures AppendPathComponent(Some("/"), Some(p[1..])) == p
  {
    assert p == "/" + p[1..];
  }

  lemma RejoinAt(p: string, i: nat)
    requires 0 < i < |p| - 1 && p[i] == '/' && p[i - 1] != '/' && p[i + 1] != '/'
    ensures AppendPathComponent(Some(p[..i]), Some(p[i + 1..])) == p
  {
    assert p == p[..i] + "/" + p[i + 1..];
  }

  /** Deleting and re-appending the last component gives back the collapsed path. */
  lemma DeleteThenAppendLastComponent(path: string)
    requires path != "" && !EndsWithSlash(path) && ':' !in path
    ensures AppendPathComponent(DeleteLastPathComponent(Some(path)), LastPathComponent(Some(path))) == Collapse(path)
  {
    var p := Collapse(path);
    assert !EndsWithSlash(p);
    LastComponentAfterLastSeparator(path);
    DeleteCutsAtLastSeparator(path);
    RejoinAtLastSeparator(p);
  }

  /**
   * `pathExtension(path)`: None for None; the text after the last '.' when that dot
   * comes after the last '/' that is not the final character and is not itself the
   * final character (a trailing '/' is not part of it); otherwise "".
   */
  function PathExtension(path: Option<string>): (r: Option<string>)
    ensures path.None? <==> r.None?
    ensures path.Some? && '.' !in path.value ==> r == Some("")
    ensures r.Some? ==> '.' !in r.value
  {
    if path.None? then None
    else
      var p := path.value;
      if p == "" then Some("")
      else
        var extension := Strings.RFindChar(p, '.', |p|);
        if extension < 0 then
          assert forall i :: 0 <= i < |p| ==> p[i] != '.';
          Some("")
        else
          var separator0 := Strings.RFindChar(p, '/', |p|);
          var last := |p| - 1;
          var separator := if separator0 == last then Strings.RFindChar(p, '/', Strings.Clip(last - 1, |p|)) else separator0;
          var end := if separator0 == last then last else |p|;
          if (separator < 0 || extension > separator) && extension < |p| - 1 then
            assert forall i :: extension + 1 <= i < end ==> p[i] != '.';
            Some(p[extension + 1..end])
          else Some("")
  }

  /**
   * Without a trailing '/', when the last '.' is not the final character and no '/'
   * follows it, the extension is the text after that dot.
   */
  lemma PathExtensionAfterLastDot(p: string, e: nat)
    requires e < |p| - 1 && p[e] == '.' && p[|p| - 1] != '/'
    requires forall i :: e < i < |p| ==> p[i] != '.' && p[i] != '/'
    ensures PathExtension(Some(p)) == Some(p[e + 1..])
  {
    assert Strings.RFindChar(p, '.', |p|) == e;
    var separator := Strings.RFindChar(p, '/', |p|);
    assert separator < e && separator != |p| - 1;
    assert p != "";
    assert p[e + 1..|p|] == p[e + 1..];
  }

  /**
   * With a trailing '/', the same holds of the text before it: the extension is the
   * text from after the last '.' up to the trailing '/'.
   */
  lemma PathExtensionBeforeTrailingSlash(p: string, e: nat)
    requires e < |p| - 1 && p[e] == '.' && p[|p| - 1] == '/'
    requires forall i :: e < i < |p| - 1 ==> p[i] != '.' && p[i] != '/'
    ensures PathExtension(Some(p)) == Some(p[e + 1..|p| - 1])
  {
    assert Strings.RFindChar(p, '.', |p|) == e;
    assert Strings.RFindChar(p, '/', |p|) == |p| - 1;
    var separator := Strings.RFindChar(p, '/', Strings.Clip(|p| - 2, |p|));
    assert separator < e + 1;
  }

  /**
   * The extension is "" when the last '.' is the final character, and when a '/'
   * that the search sees comes after the last '.': any '/' but a trailing one, and
   * with a trailing '/' any '/' but the one just before it.
   */
  lemma PathExtensionEmpty(p: string, e: nat, s: nat)
    requires e < |p| && p[e] == '.'
    requires forall i :: e < i < |p| ==> p[i] != '.'
    requires e == |p| - 1 || (e < s < |p| && p[s] == '/' && (p[|p| - 1] == '/' ==> s < |p| - 2))
    ensures PathExtension(Some(p)) == Some("")
  {
    assert Strings.RFindChar(p, '.', |p|) == e;
  }

  /**
   * Conversely, a non-empty extension is always the text after the last '.', up to
   * the end or up to a trailing '/'.
   */
  lemma PathExtensionIsAfterLastDot(p: string)
    requires PathExtension(Some(p)) != Some("")
    ensures exists e :: 0 <= e < |p| - 1 && p[e] == '.' && (forall i :: e < i < |p| ==> p[i] != '.') &&
                        (PathExtension(Some(p)) == Some(p[e + 1..]) ||
                         (p[|p| - 1] == '/' && PathExtension(Some(p)) == Some(p[e + 1..|p| - 1])))
  {
    var e := Strings.RFindChar(p, '.', |p|);
    assert 0 <= e < |p| - 1 && p[e] == '.';
    if p[|p| - 1] == '/' {
      assert PathExtension(Some(p)) == Some(p[e + 1..|p| - 1]);
    } else {
      assert Strings.RFindChar(p, '/', |p|) != |p| - 1;
      assert p[e + 1..|p|] == p[e + 1..];
    }
  }

  /** The source's anchored regular expression for "only slashes": it also accepts one final newline. */
  predicate OnlySlashesForRegex(path: string) {
    AllSlashes(path) || (EndsWithNewline(path) && AllSlashes(path[..|path| - 1]))
  }

  predicate EndsWithNewline(s: string) {
    |s| > 0 && s[|s| - 1] == '\n'
  }

  /**
   * `deletePathExtension(path)` as the source writes it. The dot is searched from the
   * last '/' itself (from the last character when there is no '/'), and when none is
   * found the text after the last '/' is dropped.
   */
  function DeletePathExtensionAsWritten(path: string): (r: string)
    ensures !OnlySlashesForRegex(path) ==> |r| <= |path| && r == path[..|r|]
  {
    if OnlySlashesForRegex(path) then (if path == "" then "" else "/")
    else
      var lastSlash := Strings.RFindChar(path, '/', |path|);
      var dot := Strings.FindChar(path, '.', Strings.Clip(lastSlash, |path|));
      if dot == -1 then path[..lastSlash + 1] else path[..dot]
  }

  /** Without an extension the last component is lost; a name with no '/' loses everything. */
  lemma DeletePathExtensionAsWrittenLosesText()
    ensures DeletePathExtensionAsWritten("a/b") == "a/"
    ensures DeletePathExtensionAsWritten("abc.txt") == ""
  {
    assert !OnlySlashesForRegex("a/b") by { assert "a/b"[0] != '/'; }
    assert !OnlySlashesForRegex("abc.txt") by { assert "abc.txt"[0] != '/'; }
    assert Strings.RFindChar("a/b", '/', 3) == 1;
    assert Strings.FindChar("a/b", '.', 1) == -1;
    assert Strings.RFindChar("abc.txt", '/', 7) == -1;
    assert Strings.FindChar("abc.txt", '.', 6) == -1;
  }

  /**
   * `deletePathExtension(path)` as evidently intended: everything before the first '.'
   * of the last component, or the whole path when that component has no '.'.
   */
  function DeletePathExtension(path: string): (r: string)
    ensures OnlySlashesForRegex(path) ==> r == (if path == "" then "" else "/")
    ensures !OnlySlashesForRegex(path) ==> |r| <= |path| && r == path[..|r|]
    ensures !OnlySlashesForRegex(path) ==>
              r == path || (path[|r|] == '.' && forall i :: |r| <= i < |path| ==> path[i] != '/')
    ensures !OnlySlashesForRegex(path) ==>
              forall i :: Strings.RFindChar(path, '/', |path|) < i < |r| ==> path[i] != '.'
  {
    if OnlySlashesForRegex(path) then (if path == "" then "" else "/")
    else
      var lastSlash := Strings.RFindChar(path, '/', |path|);
      var dot := Strings.FindChar(path, '.', lastSlash + 1);
      if dot == -1 then path else path[..dot]
  }

  lemma DeletePathExtensionExamples()
    ensures DeletePathExtension("a/b") == "a/b"
    ensures DeletePathExtension("abc.txt") == "abc"
    ensures DeletePathExtension("a/b.txt") == "a/b"
  {
    assert !OnlySlashesForRegex("a/b") by { assert "a/b"[0] != '/'; }
    assert !OnlySlashesForRegex("abc.txt") by { assert "abc.txt"[0] != '/'; }
    assert !OnlySlashesForRegex("a/b.txt") by { assert "a/b.txt"[0] != '/'; }
    assert Strings.RFindChar("a/b", '/', 3) == 1;
    assert Strings.FindChar("a/b", '.', 2) == -1;
    assert Strings.RFindChar("abc.txt", '/', 7) == -1;
    assert Strings.FindChar("abc.txt", '.', 0) == 3;
    assert Strings.RFindChar("a/b.txt", '/', 7) == 1;
    assert Strings.FindChar("a/b.txt", '.', 2) == 3;
  }
}
