/**
 * The rules the start pages' scripts apply: what a key press in the search
 * box navigates to, and the tiles drawn for the bookmarks. The GTK start page
 * sends the raw query to the search engine; the Cocoa start page trims it,
 * opens it directly when it is already an http(s) address, and otherwise
 * searches for its URI-component encoding.
 */
module StartPageScript {
  import opened Wrappers
  import opened Addresses
  import opened Bookmarks

  const EnterKey: string := "Enter"
  const GoogleSearch: string := "https://www.google.com/search?q="

  /** ECMAScript WhiteSpace and LineTerminator: the characters String.prototype.trim removes. */
  predicate IsJsSpace(c: char) {
    || c == '\t' || c == '\n' || c == '\U{B}' || c == '\U{C}' || c == '\r' || c == ' '
    || c == '\U{A0}' || c == '\U{1680}' || ('\U{2000}' <= c <= '\U{200A}')
    || c == '\U{2028}' || c == '\U{2029}' || c == '\U{202F}' || c == '\U{205F}'
    || c == '\U{3000}' || c == '\U{FEFF}'
  }

  /** Every character of `s` is white space (the empty string included). */
  predicate IsBlank(s: string) {
    forall i :: 0 <= i < |s| ==> IsJsSpace(s[i])
  }

  /** `s` without its leading white space. */
  function TrimStart(s: string): (r: string)
    ensures |r| <= |s| && r == s[|s| - |r|..]
    ensures IsBlank(s[..|s| - |r|])
    ensures r == [] || !IsJsSpace(r[0])
  {
    if s == [] then []
    else if IsJsSpace(s[0]) then
      var r := TrimStart(s[1..]);
      assert s[..|s| - |r|] == [s[0]] + s[1..][..|s[1..]| - |r|];
      r
    else s
  }

  /** `s` without its trailing white space. */
  function TrimEnd(s: string): (r: string)
    ensures |r| <= |s| && r == s[..|r|]
    ensures IsBlank(s[|r|..])
    ensures r == [] || !IsJsSpace(r[|r| - 1])
  {
    if s == [] then []
    else if IsJsSpace(s[|s| - 1]) then
      var r := TrimEnd(s[..|s| - 1]);
      assert s[|r|..] == s[..|s| - 1][|r|..] + [s[|s| - 1]];
      r
    else s
  }

  /**
   * String.prototype.trim: the result is empty exactly when the query is all
   * white space, and otherwise neither starts nor ends with white space.
   */
  function Trim(s: string): (r: string)
    ensures r == [] <==> IsBlank(s)
    ensures r == [] || (!IsJsSpace(r[0]) && !IsJsSpace(r[|r| - 1]))
  {
    var m := TrimStart(s);
    var r := TrimEnd(m);
    assert r != [] ==> r[0] == m[0];
    assert r == [] ==> m[|r|..] == m && m == [] && s[..|s| - |m|] == s;
    r
  }

  /**
   * Trim cuts white space only, from both ends: its result is a slice of `s`
   * surrounded by white space, and neither starts nor ends with white space.
   */
  lemma TrimIsSlice(s: string)
    ensures exists i, j :: 0 <= i <= j <= |s| && Trim(s) == s[i..j] && IsBlank(s[..i]) && IsBlank(s[j..])
    ensures Trim(s) == [] || (!IsJsSpace(Trim(s)[0]) && !IsJsSpace(Trim(s)[|Trim(s)| - 1]))
  {
    var m := TrimStart(s);
    var r := TrimEnd(m);
    var i := |s| - |m|;
    var j := i + |r|;
    assert r == s[i..j];
    assert s[j..] == m[|r|..];
    if r != [] {
      assert r[0] == m[0];
    }
  }

  /**
   * The GTK start page, on a key press: only Enter navigates, and the query
   * reaches the search address exactly as typed, unencoded and whole.
   */
  function StartPageSearch(key: string, query: string): (target: Option<string>)
    ensures target.Some? <==> key == EnterKey
    ensures target.Some? ==> GoogleSearch <= target.value && target.value[|GoogleSearch|..] == query
  {
    if key == EnterKey then Some(GoogleSearch + query) else None
  }

  /** The search address determines the typed query: different queries lead to different addresses. */
  lemma StartPageSearchInjective(a: string, b: string)
    requires StartPageSearch(EnterKey, a) == StartPageSearch(EnterKey, b)
    ensures a == b
  {
    var t := GoogleSearch + a;
    assert t[|GoogleSearch|..] == a;
    assert (GoogleSearch + b)[|GoogleSearch|..] == b;
  }

  /**
   * The Cocoa start page, on a key press, with `encode` standing for
   * encodeURIComponent. It navigates exactly on Enter with a query that is
   * not all white space: to the trimmed query if that is an http(s)
   * address, and otherwise to the search for its encoding.
   */
  function SearchOrNavigate(key: string, value: string, encode: string -> string): (target: Option<string>)
    ensures target.Some? <==> key == EnterKey && !IsBlank(value)
    ensures target.Some? && (HttpScheme <= Trim(value) || HttpsScheme <= Trim(value)) ==>
      target.value == Trim(value)
    ensures target.Some? && !(HttpScheme <= Trim(value)) && !(HttpsScheme <= Trim(value)) ==>
      target.value == GoogleSearch + encode(Trim(value))
  {
    if key != EnterKey then None
    else
      var query := Trim(value);
      if query == "" then None
      else if HttpScheme <= query || HttpsScheme <= query then Some(query)
      else Some(GoogleSearch + encode(query))
  }

  /** A bookmark tile: the text shown and the address a click opens. */
  datatype Tile = Tile(text: string, href: string)

  /**
   * `bookmark.title || bookmark.url`: an empty string is falsy in
   * JavaScript, so the tile shows the title unless it is empty, and the
   * label is empty only when both fields are.
   */
  function Label(b: Bookmark): (text: string)
    ensures b.title != "" ==> text == b.title
    ensures b.title == "" ==> text == b.url
    ensures text == "" <==> b.title == "" && b.url == ""
  {
    if b.title != "" then b.title else b.url
  }

  /** The tiles loadBookmarks appends, one per bookmark in list order. */
  function Tiles(bs: seq<Bookmark>): (ts: seq<Tile>)
    ensures |ts| == |bs|
    ensures forall i :: 0 <= i < |bs| ==> ts[i].href == bs[i].url
    ensures forall i :: 0 <= i < |bs| && bs[i].title != "" ==> ts[i].text == bs[i].title
    ensures forall i :: 0 <= i < |bs| && bs[i].title == "" ==> ts[i].text == bs[i].url
  {
    if bs == [] then []
    else Tiles(bs[..|bs| - 1]) + [Tile(Label(bs[|bs| - 1]), bs[|bs| - 1].url)]
  }

  /** Tiles keep the list's order: the tiles of a concatenation are the concatenated tiles. */
  lemma TilesAppend(a: seq<Bookmark>, b: seq<Bookmark>)
    ensures Tiles(a + b) == Tiles(a) + Tiles(b)
  {
    var l, r := Tiles(a + b), Tiles(a) + Tiles(b);
    assert |l| == |r|;
    forall i | 0 <= i < |l| ensures l[i] == r[i] {
      if i < |a| {
        assert (a + b)[i] == a[i];
      } else {
        assert (a + b)[i] == b[i - |a|];
      }
    }
  }
}
