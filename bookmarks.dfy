/**
 * The bookmark store: an ordered list of {title, url} records kept in memory
 * and mirrored to bookmarks.json, a JSON array of objects with the members
 * "title" and "url". The file is modelled as the array of objects it holds,
 * or None when it does not exist.
 */
module Bookmarks {
  import opened Wrappers

  datatype Bookmark = Bookmark(title: string, url: string)

  /** A JSON object whose members are all strings: member name to value. */
  type JsonObject = map<string, string>

  const TitleKey: string := "title"
  const UrlKey: string := "url"

  /** An object load_bookmarks can read: it has both members it asks for. */
  predicate IsBookmarkObject(o: JsonObject) {
    TitleKey in o && UrlKey in o
  }

  /** The object save_bookmarks writes for one bookmark. */
  function ToJsonObject(b: Bookmark): (o: JsonObject)
    ensures o.Keys == {TitleKey, UrlKey}
    ensures IsBookmarkObject(o) && o[TitleKey] == b.title && o[UrlKey] == b.url
  {
    map[TitleKey := b.title, UrlKey := b.url]
  }

  /**
   * The bookmark load_bookmarks builds from one object: its title and url
   * members. Any other member is ignored, and an object with exactly those
   * two members is the one save_bookmarks writes for that bookmark.
   */
  function FromJsonObject(o: JsonObject): (b: Bookmark)
    requires IsBookmarkObject(o)
    ensures b.title == o[TitleKey] && b.url == o[UrlKey]
    ensures o.Keys == {TitleKey, UrlKey} ==> ToJsonObject(b) == o
  {
    Bookmark(o[TitleKey], o[UrlKey])
  }

  /** The array save_bookmarks writes: one object per bookmark, in list order. */
  function ToJson(bs: seq<Bookmark>): (arr: seq<JsonObject>)
    ensures |arr| == |bs|
    ensures forall i :: 0 <= i < |bs| ==> arr[i].Keys == {TitleKey, UrlKey}
    ensures forall i :: 0 <= i < |bs| ==> arr[i][TitleKey] == bs[i].title && arr[i][UrlKey] == bs[i].url
  {
    if bs == [] then [] else ToJson(bs[..|bs| - 1]) + [ToJsonObject(bs[|bs| - 1])]
  }

  /** The bookmarks load_bookmarks reads from an array, in array order. */
  function FromJson(arr: seq<JsonObject>): (bs: seq<Bookmark>)
    requires forall i :: 0 <= i < |arr| ==> IsBookmarkObject(arr[i])
    ensures |bs| == |arr|
    ensures forall i :: 0 <= i < |arr| ==> bs[i] == FromJsonObject(arr[i])
  {
    if arr == [] then [] else FromJson(arr[..|arr| - 1]) + [FromJsonObject(arr[|arr| - 1])]
  }

  /** Saving and then loading into an empty list gives back the list. */
  lemma {:induction false} LoadAfterSave(bs: seq<Bookmark>)
    ensures forall i :: 0 <= i < |bs| ==> IsBookmarkObject(ToJson(bs)[i])
    ensures [] + FromJson(ToJson(bs)) == bs
  {
    var arr := ToJson(bs);
    forall i | 0 <= i < |arr| ensures IsBookmarkObject(arr[i]) {
      assert arr[i].Keys == {TitleKey, UrlKey};
    }
    var back := FromJson(arr);
    assert |back| == |bs|;
    forall i | 0 <= i < |bs| ensures back[i] == bs[i] {
      assert back[i] == FromJsonObject(arr[i]);
    }
  }

  /** Some bookmark has title `t`. */
  ghost predicate HasTitle(bs: seq<Bookmark>, t: string) {
    exists i :: 0 <= i < |bs| && bs[i].title == t
  }

  /** What std::find_if on the title returns: the first index with title `t`, or |bs| (end). */
  function FirstWithTitle(bs: seq<Bookmark>, t: string): (i: nat)
    ensures i <= |bs|
    ensures i < |bs| ==> bs[i].title == t
    ensures forall j :: 0 <= j < i ==> bs[j].title != t
    ensures i < |bs| <==> HasTitle(bs, t)
  {
    if bs == [] then 0
    else if bs[0].title == t then 0
    else
      var k := FirstWithTitle(bs[1..], t);
      assert forall j :: 1 <= j < |bs| ==> bs[j] == bs[1..][j - 1];
      1 + k
  }

  /**
   * The list edit_bookmark leaves. It keeps the length. Without a record
   * titled `oldTitle` it is unchanged; otherwise exactly the first such
   * record becomes {newTitle, url} and every other record stays.
   */
  function Edited(bs: seq<Bookmark>, oldTitle: string, newTitle: string, url: string): (r: seq<Bookmark>)
    ensures |r| == |bs|
    ensures !HasTitle(bs, oldTitle) ==> r == bs
    ensures HasTitle(bs, oldTitle) ==>
      exists k :: 0 <= k < |bs| && bs[k].title == oldTitle
        && (forall j :: 0 <= j < k ==> bs[j].title != oldTitle)
        && r[k] == Bookmark(newTitle, url)
        && (forall j :: 0 <= j < |bs| && j != k ==> r[j] == bs[j])
  {
    var i := FirstWithTitle(bs, oldTitle);
    if i < |bs| then
      var r := bs[i := Bookmark(newTitle, url)];
      assert r[i] == Bookmark(newTitle, url);
      r
    else bs
  }

  /** How many records have title `t`. */
  function CountTitle(bs: seq<Bookmark>, t: string): nat {
    if bs == [] then 0
    else CountTitle(bs[..|bs| - 1], t) + (if bs[|bs| - 1].title == t then 1 else 0)
  }

  /** The list erase(remove_if(...)) leaves: the records not titled `t`, in their original order. */
  function WithoutTitle(bs: seq<Bookmark>, t: string): (r: seq<Bookmark>)
    ensures |r| == |bs| - CountTitle(bs, t)
    ensures forall b :: b in r ==> b in bs && b.title != t
  {
    if bs == [] then []
    else
      var last := bs[|bs| - 1];
      WithoutTitle(bs[..|bs| - 1], t) + (if last.title == t then [] else [last])
  }

  /** Every record not titled `t` survives deletion; none titled `t` does. */
  lemma {:induction false} WithoutTitleMembers(bs: seq<Bookmark>, t: string, b: Bookmark)
    ensures b in WithoutTitle(bs, t) <==> b in bs && b.title != t
  {
    if bs != [] {
      var init := bs[..|bs| - 1];
      WithoutTitleMembers(init, t, b);
      assert bs == init + [bs[|bs| - 1]];
    }
  }

  /** Deletion works piecewise: the relative order of the surviving records is kept. */
  lemma {:induction false} WithoutTitleAppend(a: seq<Bookmark>, b: seq<Bookmark>, t: string)
    ensures WithoutTitle(a + b, t) == WithoutTitle(a, t) + WithoutTitle(b, t)
    decreases |b|
  {
    if b == [] {
      assert a + b == a;
    } else {
      var init, last := b[..|b| - 1], b[|b| - 1];
      var tail := if last.title == t then [] else [last];
      assert (a + b)[..|a + b| - 1] == a + init;
      assert (a + b)[|a + b| - 1] == last;
      calc {
        WithoutTitle(a + b, t);
        WithoutTitle(a + init, t) + tail;
        { WithoutTitleAppend(a, init, t); }
        WithoutTitle(a, t) + WithoutTitle(init, t) + tail;
        WithoutTitle(a, t) + WithoutTitle(b, t);
      }
    }
  }

  /** Deleting a title that no record has leaves the list as it was. */
  lemma {:induction false} WithoutAbsentTitle(bs: seq<Bookmark>, t: string)
    requires !HasTitle(bs, t)
    ensures WithoutTitle(bs, t) == bs
  {
    if bs != [] {
      var init, last := bs[..|bs| - 1], bs[|bs| - 1];
      assert last.title != t;
      assert !HasTitle(init, t) by {
        forall i | 0 <= i < |init| ensures init[i].title != t {
          assert init[i] == bs[i];
        }
      }
      calc {
        WithoutTitle(bs, t);
        WithoutTitle(init, t) + [last];
        { WithoutAbsentTitle(init, t); }
        init + [last];
        bs;
      }
    }
  }

  /** std::find_if over the titles. */
  method FindTitle(bs: seq<Bookmark>, t: string) returns (i: nat)
    ensures i == FirstWithTitle(bs, t)
  {
    i := 0;
    while i < |bs| && bs[i].title != t
      invariant i <= |bs|
      invariant forall j :: 0 <= j < i ==> bs[j].title != t
    {
      i := i + 1;
    }
  }

  /** erase(remove_if(begin, end, title == t), end), on the value of the vector. */
  method RemoveTitle(bs: seq<Bookmark>, t: string) returns (r: seq<Bookmark>)
    ensures r == WithoutTitle(bs, t)
  {
    r := [];
    var i := 0;
    while i < |bs|
      invariant i <= |bs|
      invariant r == WithoutTitle(bs[..i], t)
    {
      assert bs[..i + 1][..i] == bs[..i];
      if bs[i].title != t {
        r := r + [bs[i]];
      }
      i := i + 1;
    }
    assert bs[..i] == bs;
  }

  /** The global `bookmarks` vector together with the file it is mirrored to. */
  class BookmarkStore {
    var bookmarks: seq<Bookmark>
    /** bookmarks.json: the array it holds, None while the file does not exist. */
    var file: Option<seq<JsonObject>>
    /** How many times save_bookmarks has run. */
    var saves: nat

    constructor (onDisk: Option<seq<JsonObject>>)
      ensures bookmarks == [] && file == onDisk && saves == 0
    {
      bookmarks := [];
      file := onDisk;
      saves := 0;
    }

    /** load_bookmarks: appends the file's records, in file order, to what is already in memory. */
    method Load()
      requires file.Some? ==> forall i :: 0 <= i < |file.value| ==> IsBookmarkObject(file.value[i])
      modifies this`bookmarks
      ensures bookmarks == old(bookmarks) + (if file.Some? then FromJson(file.value) else [])
    {
      if file.Some? {
        var arr := file.value;
        var i := 0;
        while i < |arr|
          invariant i <= |arr|
          invariant bookmarks == old(bookmarks) + FromJson(arr[..i])
        {
          assert arr[..i + 1][..i] == arr[..i];
          bookmarks := bookmarks + [FromJsonObject(arr[i])];
          i := i + 1;
        }
        assert arr[..i] == arr;
      }
    }

    /** save_bookmarks: rewrites the whole file from the list. */
    method Save()
      modifies this`file, this`saves
      ensures file == Some(ToJson(bookmarks))
      ensures saves == old(saves) + 1
    {
      var arr: seq<JsonObject> := [];
      var i := 0;
      while i < |bookmarks|
        invariant i <= |bookmarks|
        invariant arr == ToJson(bookmarks[..i])
      {
        assert bookmarks[..i + 1][..i] == bookmarks[..i];
        arr := arr + [ToJsonObject(bookmarks[i])];
        i := i + 1;
      }
      assert bookmarks[..i] == bookmarks;
      file := Some(arr);
      saves := saves + 1;
    }

    /** add_bookmark: appends without looking for an equal title, then saves. */
    method Add(title: string, url: string)
      modifies this
      ensures bookmarks == old(bookmarks) + [Bookmark(title, url)]
      ensures file == Some(ToJson(bookmarks)) && saves == old(saves) + 1
    {
      bookmarks := bookmarks + [Bookmark(title, url)];
      Save();
    }

    /** edit_bookmark: rewrites the first record titled `oldTitle` and saves; with no such record, does nothing. */
    method Edit(oldTitle: string, newTitle: string, url: string)
      modifies this
      ensures bookmarks == Edited(old(bookmarks), oldTitle, newTitle, url)
      ensures HasTitle(old(bookmarks), oldTitle) ==> file == Some(ToJson(bookmarks)) && saves == old(saves) + 1
      ensures !HasTitle(old(bookmarks), oldTitle) ==> file == old(file) && saves == old(saves)
    {
      var it := FindTitle(bookmarks, oldTitle);
      if it != |bookmarks| {
        bookmarks := bookmarks[it := Bookmark(newTitle, url)];
        Save();
      }
    }

    /** delete_bookmark: removes every record titled `t` and saves, whether or not one matched. */
    method Delete(t: string)
      modifies this
      ensures bookmarks == WithoutTitle(old(bookmarks), t)
      ensures file == Some(ToJson(bookmarks)) && saves == old(saves) + 1
    {
      bookmarks := RemoveTitle(bookmarks, t);
      Save();
    }
  }
}
