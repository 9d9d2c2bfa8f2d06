/**
 * The single-file GTK shell: the notebook's current page as the engine
 * reports it, the dialogs the shell opens, and the bookmark store it
 * shares with the rest of the program.
 */
module MainWindow {
  import opened Wrappers
  import opened Strings
  import opened Addresses
  import opened Bookmarks

  /** What the engine reports for a web view; None where it returns NULL. */
  datatype WebView = WebView(uri: Option<string>, title: Option<string>)

  /** The modal dialogs the shell can open. */
  datatype Dialog = SettingsDialog | HistoryDialog

  /** get_current_tab_url: the current view's URI, or "" without a page or without a URI. */
  function CurrentTabUrl(current: Option<WebView>): (url: string)
    ensures current.Some? && current.value.uri.Some? ==> url == current.value.uri.value
    ensures current.None? || current.value.uri.None? ==> url == ""
  {
    match current
    case None => ""
    case Some(view) => if view.uri.Some? then view.uri.value else ""
  }

  /** get_current_tab_title: the current view's title, or "" without a page or without a title. */
  function CurrentTabTitle(current: Option<WebView>): (title: string)
    ensures current.Some? && current.value.title.Some? ==> title == current.value.title.value
    ensures current.None? || current.value.title.None? ==> title == ""
  {
    match current
    case None => ""
    case Some(view) => if view.title.Some? then view.title.value else ""
  }

  /**
   * The dialog handle_alpha_scheme opens. The tests are `find(...) == 0`,
   * that is prefix tests, and the settings test comes first.
   */
  function AlphaDialog(url: string): (d: Option<Dialog>)
    ensures d == Some(SettingsDialog) <==> SettingsUrl <= url
    ensures d == Some(HistoryDialog) <==> !(SettingsUrl <= url) && HistoryUrl <= url
    ensures d == None <==> !(SettingsUrl <= url) && !(HistoryUrl <= url)
  {
    FindZeroIffPrefix(url, SettingsUrl);
    FindZeroIffPrefix(url, HistoryUrl);
    if Find(url, SettingsUrl) == Some(0) then Some(SettingsDialog)
    else if Find(url, HistoryUrl) == Some(0) then Some(HistoryDialog)
    else None
  }

  /** A URL that merely contains an internal address further on, rather than at its start, opens nothing. */
  lemma AlphaDialogNeedsPrefix(pre: string)
    requires |pre| > 0 && pre[0] != 'a'
    ensures AlphaDialog(pre + SettingsUrl) == None
    ensures AlphaDialog(pre + HistoryUrl) == None
  {
    assert SettingsUrl[0] == 'a' && HistoryUrl[0] == 'a';
    assert (pre + SettingsUrl)[0] == pre[0];
    assert (pre + HistoryUrl)[0] == pre[0];
  }

  /** fetch_page_title: bookmarks the page only when the engine reports a title. */
  method FetchPageTitle(store: BookmarkStore, title: Option<string>, url: string)
    modifies store
    ensures title.Some? ==>
      && store.bookmarks == old(store.bookmarks) + [Bookmark(title.value, url)]
      && store.file == Some(ToJson(store.bookmarks))
      && store.saves == old(store.saves) + 1
    ensures title.None? ==> unchanged(store)
  {
    if title.Some? {
      store.Add(title.value, url);
    }
  }

  class Shell {
    const store: BookmarkStore
    /** The notebook's current page, None when there is none. */
    var current: Option<WebView>
    /** Every dialog opened so far, in order. */
    var dialogs: seq<Dialog>

    constructor (store: BookmarkStore)
      ensures this.store == store
      ensures current == None && dialogs == []
    {
      this.store := store;
      current := None;
      dialogs := [];
    }

    /** add_bookmark_from_current_tab: one bookmark when both title and URL are non-empty, otherwise nothing. */
    method AddBookmarkFromCurrentTab()
      modifies store
      ensures var title, url := CurrentTabTitle(current), CurrentTabUrl(current);
        if title != "" && url != "" then
          store.bookmarks == old(store.bookmarks) + [Bookmark(title, url)]
          && store.file == Some(ToJson(store.bookmarks)) && store.saves == old(store.saves) + 1
        else unchanged(store)
    {
      var title := CurrentTabTitle(current);
      var url := CurrentTabUrl(current);
      if title != "" && url != "" {
        store.Add(title, url);
      }
    }

    /** handle_alpha_scheme: opens the dialog AlphaDialog names, if any. */
    method HandleAlphaScheme(url: string)
      modifies this`dialogs
      ensures dialogs == old(dialogs) + (if AlphaDialog(url).Some? then [AlphaDialog(url).value] else [])
    {
      if Find(url, SettingsUrl) == Some(0) {
        dialogs := dialogs + [SettingsDialog];
      } else if Find(url, HistoryUrl) == Some(0) {
        dialogs := dialogs + [HistoryDialog];
      }
    }
  }
}
