/**
 * The Cocoa shell: a window controller with one web view and a bookmark
 * list kept in UserDefaults. Loading replaces the list (it does not append),
 * and every change calls the start page's loadBookmarks script with the
 * encoded list.
 */
module SwiftBrowser {
  import opened Wrappers
  import opened Bookmarks

  /** The start page the view loads first; only its opening characters are kept. */
  const StartPageHtml: string := "<!DOCTYPE html>\n<html lang=\"en\">"

  /**
   * What UserDefaults holds under "bookmarks": data JSONEncoder wrote for a
   * list, or data JSONDecoder rejects. The encoders themselves are not
   * modelled: that decoding returns what was encoded is assumed by this
   * abstraction, not proved about JSONEncoder and JSONDecoder.
   */
  datatype StoredData = EncodedList(items: seq<Bookmark>) | Undecodable

  /** JSONEncoder on a list of bookmarks, which always succeeds for string fields; the decoder reads it back whole. */
  function Encode(bs: seq<Bookmark>): (d: StoredData)
    ensures Decode(d) == Some(bs)
  {
    EncodedList(bs)
  }

  /** JSONDecoder for [Bookmark]: the encoded list, or None exactly when the data is not such a list. */
  function Decode(d: StoredData): (bs: Option<seq<Bookmark>>)
    ensures bs.None? <==> d.Undecodable?
    ensures d.EncodedList? ==> bs == Some(d.items)
  {
    match d
    case EncodedList(items) => Some(items)
    case Undecodable => None
  }

  /** The list loadBookmarks leaves: the decoded list when there is data and it decodes, else the current one. */
  function Loaded(current: seq<Bookmark>, stored: Option<StoredData>): (bs: seq<Bookmark>)
    ensures stored.None? ==> bs == current
    ensures stored.Some? && stored.value.Undecodable? ==> bs == current
  {
    if stored.Some? && Decode(stored.value).Some? then Decode(stored.value).value else current
  }

  /**
   * What saveBookmarks stores is what loadBookmarks brings back, whatever was
   * in memory before. This rests on the encoder round trip that StoredData
   * assumes, together with Loaded replacing rather than appending.
   */
  lemma {:induction false} LoadAfterSave(bs: seq<Bookmark>, current: seq<Bookmark>)
    ensures Loaded(current, Some(Encode(bs))) == bs
  {
  }

  /** bookmarksToJSON: the encoder's UTF-8 text, or "[]" when encoding or the conversion fails. */
  function BookmarksJson(text: Option<string>): (json: string)
    ensures text.None? ==> json == "[]"
    ensures text.Some? ==> json == text.value
  {
    match text
    case Some(s) => s
    case None => "[]"
  }

  /** The call into the start page's loadBookmarks script, with the encoded list. */
  function LoadScript(json: string): string {
    "loadBookmarks(" + json + ");"
  }

  const Apple: Bookmark := Bookmark("Apple", "https://www.apple.com")
  const Google: Bookmark := Bookmark("Google", "https://www.google.com")

  class AlphaSurfBrowser {
    var bookmarks: seq<Bookmark>
    /** The "bookmarks" entry of UserDefaults, None while it is absent. */
    var defaults: Option<StoredData>
    /** The HTML strings loaded into the view, in order. */
    var pages: seq<string>
    /** The scripts evaluated in the view, in order. */
    var scripts: seq<string>
    /** JSONEncoder followed by the UTF-8 conversion, both foreign; None when either fails. */
    const jsonText: seq<Bookmark> -> Option<string>

    /** init(window:): set up the view, load the start page, then load the bookmarks. */
    constructor (stored: Option<StoredData>, jsonText: seq<Bookmark> -> Option<string>)
      ensures this.jsonText == jsonText
      ensures bookmarks == Loaded([], stored) && defaults == stored && pages == [StartPageHtml]
      ensures scripts == if stored.Some? && Decode(stored.value).Some?
        then [LoadScript(BookmarksJson(jsonText(bookmarks)))] else []
    {
      bookmarks := [];
      defaults := stored;
      pages := [];
      scripts := [];
      this.jsonText := jsonText;
      new;
      pages := pages + [StartPageHtml];
      LoadBookmarks();
    }

    /** addBookmark: appends, saves, and calls loadBookmarks with the encoded list. */
    method AddBookmark(url: string, title: string)
      modifies this`bookmarks, this`defaults, this`scripts
      ensures bookmarks == old(bookmarks) + [Bookmark(title, url)]
      ensures defaults == Some(Encode(bookmarks))
      ensures scripts == old(scripts) + [LoadScript(BookmarksJson(jsonText(bookmarks)))]
    {
      bookmarks := bookmarks + [Bookmark(title, url)];
      SaveBookmarks();
      scripts := scripts + [LoadScript(BookmarksJson(jsonText(bookmarks)))];
    }

    /** loadBookmarks: replaces the list only when there is stored data and it decodes. */
    method LoadBookmarks()
      modifies this`bookmarks, this`scripts
      ensures bookmarks == Loaded(old(bookmarks), defaults)
      ensures scripts == old(scripts) + if defaults.Some? && Decode(defaults.value).Some?
        then [LoadScript(BookmarksJson(jsonText(bookmarks)))] else []
    {
      if defaults.Some? {
        var loaded := Decode(defaults.value);
        if loaded.Some? {
          bookmarks := loaded.value;
          scripts := scripts + [LoadScript(BookmarksJson(jsonText(bookmarks)))];
        }
      }
    }

    /** saveBookmarks: stores the encoded list. */
    method SaveBookmarks()
      modifies this`defaults
      ensures defaults == Some(Encode(bookmarks))
    {
      defaults := Some(Encode(bookmarks));
    }
  }

  /** The program's entry point: open the browser, then add the two example bookmarks. */
  method Launch(stored: Option<StoredData>, jsonText: seq<Bookmark> -> Option<string>)
    returns (browser: AlphaSurfBrowser)
    ensures fresh(browser)
    ensures browser.bookmarks == Loaded([], stored) + [Apple, Google]
    ensures browser.defaults == Some(Encode(browser.bookmarks))
    ensures browser.pages == [StartPageHtml]
  {
    browser := new AlphaSurfBrowser(stored, jsonText);
    browser.AddBookmark("https://www.apple.com", "Apple");
    browser.AddBookmark("https://www.google.com", "Google");
  }
}
