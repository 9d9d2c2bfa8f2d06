/**
 * The tabbed GTK window: each new tab appends a notebook page, and the
 * tab's address is either loaded by the engine or, for alpha:// addresses,
 * routed to the internal-page handler, which may open one more tab.
 */
module Tabs {
  import opened Wrappers
  import opened Strings
  import opened Addresses
  import opened Bookmarks
  import opened History
  import MainWindow

  /**
   * The start page handle_alpha_scheme opens. Only its opening characters are
   * kept; its markup and style are not modelled, and its search script is
   * StartPageScript.StartPageSearch.
   */
  const StartPageHtml: string := "\n" + "            <!DOCTYPE html>\n            <html lang=\"en\">"

  /** A notebook page, with the address its view was asked to load_uri, if any. */
  datatype Page = Page(requested: Option<string>)

  /** WebKit's load events. */
  datatype LoadEvent = LoadStarted | LoadRedirected | LoadCommitted | LoadFinished

  /** create_new_tab's routing test: `find("alpha://") == 0`. */
  predicate IsInternal(address: string)
    ensures IsInternal(address) <==> AlphaScheme <= address
  {
    FindZeroIffPrefix(address, AlphaScheme);
    Find(address, AlphaScheme) == Some(0)
  }

  /** The start page is not an alpha:// address, so routing it reaches load_uri. */
  lemma StartPageIsExternal()
    ensures !IsInternal(StartPageHtml)
  {
    assert StartPageHtml[0] == '\n';
    NotPrefixByFirstChar(StartPageHtml, AlphaScheme);
  }

  /** The rank that makes the create_new_tab / handle_alpha_scheme recursion terminate. */
  function Rank(address: string): nat {
    if IsInternal(address) then 1 else 0
  }

  /** The pages create_new_tab(address) appends, following the same recursion as the source. */
  function NewTabPages(address: string): (pages: seq<Page>)
    ensures |pages| >= 1
    ensures pages[0] == if IsInternal(address) then Page(None) else Page(Some(address))
    decreases Rank(address)
  {
    if !IsInternal(address) then [Page(Some(address))]
    else if address == NewTabUrl then
      StartPageIsExternal();
      [Page(None)] + NewTabPages(StartPageHtml)
    else [Page(None)]
  }

  /** The addresses the new pages were asked to load, in page order. */
  function Requests(pages: seq<Page>): (r: seq<string>)
    ensures |r| <= |pages|
  {
    if pages == [] then []
    else
      var last := pages[|pages| - 1];
      Requests(pages[..|pages| - 1]) + (if last.requested.Some? then [last.requested.value] else [])
  }

  /**
   * create_new_tab calls load_uri with the address exactly when the address
   * does not start with alpha://, and for alpha://newtab the one nested call
   * asks load_uri to open the start page's HTML text as an address.
   */
  lemma {:induction false} NewTabRouting(address: string)
    ensures Requests(NewTabPages(address)) ==
      if !IsInternal(address) then [address]
      else if address == NewTabUrl then [StartPageHtml]
      else []
    ensures |NewTabPages(address)| == if IsInternal(address) && address == NewTabUrl then 2 else 1
  {
    var pages := NewTabPages(address);
    if IsInternal(address) && address == NewTabUrl {
      StartPageIsExternal();
      assert pages == [Page(None), Page(Some(StartPageHtml))];
      assert pages[..1] == [Page(None)];
      assert Requests(pages[..1]) == [] by {
        assert pages[..1][..0] == [];
      }
    } else if !IsInternal(address) {
      assert pages[..0] == [];
    } else {
      assert pages[..0] == [];
    }
  }

  /** The new-tab button appends exactly two pages and makes one load_uri call, with the start page's HTML text. */
  lemma NewTabButtonPages()
    ensures NewTabPages(NewTabUrl) == [Page(None), Page(Some(StartPageHtml))]
    ensures Requests(NewTabPages(NewTabUrl)) == [StartPageHtml]
  {
    FindZeroIffPrefix(NewTabUrl, AlphaScheme);
    assert AlphaScheme <= NewTabUrl;
    NewTabRouting(NewTabUrl);
    StartPageIsExternal();
  }

  class TabbedWindow {
    const store: BookmarkStore
    const history: HistoryLog
    /** The notebook's pages, in order. */
    var pages: seq<Page>

    constructor (store: BookmarkStore, history: HistoryLog)
      ensures this.store == store && this.history == history && pages == []
    {
      this.store := store;
      this.history := history;
      pages := [];
    }

    /** create_new_tab: appends a page, then routes the address. */
    method CreateNewTab(address: string)
      modifies this`pages
      ensures pages == old(pages) + NewTabPages(address)
      decreases Rank(address), 1
    {
      pages := pages + [Page(None)];
      var tab := |pages| - 1;
      if Find(address, AlphaScheme) == Some(0) {
        HandleAlphaScheme(address);
      } else {
        pages := pages[tab := Page(Some(address))];
      }
    }

    /** handle_alpha_scheme: only the exact address alpha://newtab opens a tab, for the start page's HTML text. */
    method HandleAlphaScheme(url: string)
      modifies this`pages
      ensures pages == old(pages) + (if url == NewTabUrl then NewTabPages(StartPageHtml) else [])
      decreases if url == NewTabUrl then 1 else 0, 0
    {
      if url == NewTabUrl {
        StartPageIsExternal();
        CreateNewTab(StartPageHtml);
      }
    }

    /** on_new_tab_button_clicked: opens alpha://newtab. */
    method OnNewTabButtonClicked()
      modifies this`pages
      ensures pages == old(pages) + [Page(None), Page(Some(StartPageHtml))]
    {
      NewTabButtonPages();
      CreateNewTab(NewTabUrl);
    }

    /**
     * The load-changed callback of every tab's view: on a finished load it
     * records the view's URI in history and bookmarks it if the view has a
     * title; other load events change nothing.
     */
    method OnLoadChanged(event: LoadEvent, uri: string, title: Option<string>)
      modifies history, store
      ensures event != LoadFinished ==> unchanged(history) && unchanged(store)
      ensures event == LoadFinished ==> history.entries == old(history.entries) + [uri]
      ensures event == LoadFinished && title.Some? ==>
        && store.bookmarks == old(store.bookmarks) + [Bookmark(title.value, uri)]
        && store.file == Some(ToJson(store.bookmarks))
        && store.saves == old(store.saves) + 1
      ensures event == LoadFinished && title.None? ==> unchanged(store)
    {
      if event == LoadFinished {
        history.Add(uri);
        MainWindow.FetchPageTitle(store, title, uri);
      }
    }
  }
}
