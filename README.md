# AlphaSurf: the stateful core of a browser shell

AlphaSurf is a desktop browser shell around an embedded web engine (WebKitGTK,
CEF, or WKWebView on macOS). Almost all of it is toolkit and engine calls. This
project models in Dafny the small amount of sequential logic underneath, file by
file:

- `bookmarks.dfy` (module `Bookmarks`): the bookmark store of `src/bookmarks.cpp`.
  It is an ordered list of `{title, url}` records mirrored to `bookmarks.json`.
  `add` appends and saves. `edit` rewrites the first record with a matching title
  and saves only if one matched. `delete` removes every matching record and always
  saves. `load` appends the file's records to the list. The JSON file is modelled
  as the array of objects it holds (each object a map from member name to string),
  or `None` when the file does not exist. `src/main.cpp:86-159` repeats this code
  line for line (only the `try` around loading is missing), so the same members
  model both copies. Some rows below cite the `main.cpp` copy.
- `history.dfy` (module `History`): the append-only history list of
  `src/history.cpp:5-7`, also repeated at `src/main.cpp:297-299`.
- `main_window.dfy` (module `MainWindow`): the rest of `src/main.cpp`. This covers
  the current-tab getters with their `""` fallbacks, bookmarking the current tab,
  `fetch_page_title`, and the prefix dispatch of `handle_alpha_scheme`. Opening a
  dialog is recorded as an effect in a list of dialogs.
- `tabs.dfy` (module `Tabs`): `src/ui.cpp`. `create_new_tab` appends a notebook
  page and then either calls `load_uri` or routes an `alpha://` address to
  `handle_alpha_scheme`. That handler reacts only to the exact address
  `alpha://newtab`, by opening one more tab whose view is asked to `load_uri` the
  start page's HTML text as if it were an address (rendering HTML would need
  `load_html`). The model keeps this mutual recursion and proves it stops after
  one level. Each page records the address its view was asked to load. The load-finished callback updates history
  and bookmarks.
- `start_page_script.dfy` (module `StartPageScript`): the JavaScript rules of the
  two start pages. The GTK page (`src/ui.cpp:218-222`) searches for the raw query.
  The Cocoa page (`src/main.swift:95-106`) trims the query, opens an `http(s)`
  address directly, and otherwise searches for the encoded query. The module also
  has the bookmark-tile label rule (`src/main.swift:111-116`). `trim` is defined
  with the ECMAScript white-space and line-terminator characters.
  `encodeURIComponent` is a function parameter.
- `cef_browser.dfy` (module `CefBrowser`): `src/browser.cpp`. It covers the list of
  open browsers, which triggers a quit when it becomes empty, and the
  Secure / Not Secure label. It also covers the `alpha://` scheme handler: it
  chooses a page by substring match, reports headers, and `ReadResponse` copies
  a bounded prefix into an array without advancing through the page.
- `swift_browser.dfy` (module `SwiftBrowser`): `src/main.swift`. Here loading
  bookmarks from UserDefaults *replaces* the list, and only when data exists and
  decodes. `bookmarksToJSON` falls back to `"[]"`. Startup leaves the loaded list
  followed by the Apple and Google example bookmarks.
- `strings.dfy` (module `Strings`): `std::string::find`, which the C++ code uses
  in two ways. As `find(p) == 0` it is a prefix test, and as `find(p) != npos` it
  is a substring test. Two lemmas prove each reading.
- `addresses.dfy` (module `Addresses`): the `alpha://` addresses and the
  `http://` and `https://` prefixes the shells test URLs against.
- `wrappers.dfy` (module `Wrappers`): the `Option` datatype. `None` stands for a
  NULL from the engine, a missing file, or npos.

Engine and toolkit calls become recorded effects or inputs. A web view's URI and
title are inputs. Dialogs opened, pages appended, `load_uri` requests, scripts
executed, saves and quit requests are fields that the methods extend.

## Model

| member | source | states |
|---|---|---|
| `Strings.FindFrom` | src/main.cpp:334 | `find` returns the first index at or after the start where the pattern occurs, or None (npos) when it occurs nowhere there |
| `Strings.FindZeroIffPrefix` | src/main.cpp:334-336 | `find(p) == 0` holds exactly when `p` is a prefix of the string |
| `Strings.FindFoundIffContains` | src/browser.cpp:122-124 | `find(p) != npos` holds exactly when `p` occurs somewhere in the string |
| `Bookmarks.ToJsonObject` | src/bookmarks.cpp:35-39 | the object written for a bookmark has exactly the members title and url, holding the bookmark's fields |
| `Bookmarks.FromJsonObject` | src/bookmarks.cpp:18-20 | a record is read from the object's title and url members, other members are ignored, and an object with exactly those two members is the one saving writes for that record |
| `Bookmarks.ToJson` | src/bookmarks.cpp:34-41 | the saved array has one object per bookmark, in list order, each with exactly the members title and url and the bookmark's values |
| `Bookmarks.FromJson` | src/bookmarks.cpp:15-22 | loading reads one bookmark per array element, in array order, from its title and url members |
| `Bookmarks.LoadAfterSave` | src/bookmarks.cpp:7-22 | every saved object can be read back, and loading a saved array into an empty list reproduces the list |
| `Bookmarks.FirstWithTitle` | src/bookmarks.cpp:63-65 | `find_if` gives the first index whose title matches, with no match before it, or the end exactly when no record matches |
| `Bookmarks.FindTitle` | src/main.cpp:143-145 | the search loop returns exactly the index `find_if` denotes |
| `Bookmarks.Edited` | src/bookmarks.cpp:62-71 | editing keeps the length; without a match the list is unchanged; with one, exactly the first match becomes `{new_title, url}` and every other record stays |
| `Bookmarks.WithoutTitle` | src/bookmarks.cpp:74-76 | after removal no record has the title, every survivor was in the list, and the length drops by the number of matches |
| `Bookmarks.WithoutTitleMembers` | src/main.cpp:154-159 | a record survives deletion exactly when it was in the list and its title differs |
| `Bookmarks.WithoutTitleAppend` | src/main.cpp:155-157 | removal works piecewise on a concatenation, so the survivors keep their relative order |
| `Bookmarks.WithoutAbsentTitle` | src/bookmarks.cpp:73-77 | deleting a title no record has leaves the list unchanged (the save still happens) |
| `Bookmarks.RemoveTitle` | src/main.cpp:155-157 | the erase/remove_if loop yields exactly the records without the title, in order |
| `Bookmarks.BookmarkStore.constructor` | src/bookmarks.cpp:3 | the list starts empty, the file is whatever is on disk, and nothing has been saved |
| `Bookmarks.BookmarkStore.Load` | src/bookmarks.cpp:5-28 | the file's records are appended in file order after the existing ones; with no file the list is unchanged |
| `Bookmarks.BookmarkStore.Save` | src/bookmarks.cpp:30-55 | the file becomes the encoding of the whole list, and one more save is recorded |
| `Bookmarks.BookmarkStore.Add` | src/bookmarks.cpp:57-60 | the record is appended at the end with no duplicate check, earlier records are kept, and the list is saved |
| `Bookmarks.BookmarkStore.Edit` | src/bookmarks.cpp:62-71 | the list becomes the first-match edit; it saves iff some title matched, and otherwise the file and the save count are unchanged |
| `Bookmarks.BookmarkStore.Delete` | src/bookmarks.cpp:73-78 | the list loses every record with the title, and the file equals the new list even when nothing matched |
| `History.HistoryLog.constructor` | src/history.cpp:3 | history starts empty |
| `History.HistoryLog.Add` | src/history.cpp:5-7 | the URL is appended as the last entry, the length grows by one, earlier entries keep their positions, and a URL already present is counted once more (no dedup) |
| `MainWindow.CurrentTabUrl` | src/main.cpp:311-319 | the current view's URI, or `""` when there is no current page or the engine returns NULL |
| `MainWindow.CurrentTabTitle` | src/main.cpp:322-330 | the current view's title, or `""` when there is no current page or the engine returns NULL |
| `MainWindow.AlphaDialog` | src/main.cpp:333-339 | settings opens iff the URL starts with `alpha://settings`, history iff it does not and starts with `alpha://history`, and nothing otherwise |
| `MainWindow.AlphaDialogNeedsPrefix` | src/main.cpp:334-336 | for every non-empty prefix not starting with `a`, `alpha://settings` or `alpha://history` placed after it opens nothing: the address must be at the start |
| `MainWindow.FetchPageTitle` | src/main.cpp:302-308 | a bookmark `{title, url}` is added and saved only when the view's title is non-null; otherwise the store is unchanged |
| `MainWindow.Shell.constructor` | src/main.cpp:15-18 | the shell shares the given bookmark store and starts with no current page and no dialogs |
| `MainWindow.Shell.AddBookmarkFromCurrentTab` | src/main.cpp:288-294 | exactly one bookmark of the current title and URL is added when both are non-empty; otherwise the store is unchanged |
| `MainWindow.Shell.HandleAlphaScheme` | src/main.cpp:333-339 | the dialog the prefix dispatch names is opened, and nothing for other URLs |
| `Tabs.StartPageIsExternal` | src/ui.cpp:174 | the start-page HTML does not start with `alpha://`, so routing it goes to `load_uri` |
| `Tabs.IsInternal` | src/ui.cpp:149 | the routing test holds exactly when the address starts with `alpha://` |
| `Tabs.NewTabPages` | src/ui.cpp:145-153 | a new tab always appends at least one page, and its first page is asked to load the address iff the address does not start with `alpha://`, otherwise nothing |
| `Tabs.NewTabRouting` | src/ui.cpp:145-153 | `load_uri` gets the argument iff it does not start with `alpha://`. Only `alpha://newtab` adds a second page, whose view is asked to `load_uri` the start page's HTML text as an address. |
| `Tabs.NewTabButtonPages` | src/ui.cpp:156-158 | the new-tab button appends exactly two pages, a blank one and one whose view is asked to `load_uri` the start page's HTML text as an address, and makes one `load_uri` call |
| `Tabs.TabbedWindow.constructor` | src/ui.cpp:8-9 | the notebook starts with no pages and shares the given stores |
| `Tabs.TabbedWindow.CreateNewTab` | src/ui.cpp:133-154 | the notebook gains exactly the pages the routing rule gives for the argument, after the existing ones |
| `Tabs.TabbedWindow.HandleAlphaScheme` | src/ui.cpp:172-232 | only the exact address `alpha://newtab` opens a tab, which asks `load_uri` to open the start page's HTML text as an address; other `alpha://` addresses change nothing |
| `Tabs.TabbedWindow.OnNewTabButtonClicked` | src/ui.cpp:156-158 | the button click appends a blank page and a page whose view is asked to `load_uri` the start page's HTML text |
| `Tabs.TabbedWindow.OnLoadChanged` | src/ui.cpp:137-143 | only a finished load acts: it appends the (non-NULL) URI to history and bookmarks it when the title is non-null; other events change nothing |
| `StartPageScript.TrimStart` | src/main.swift:97 | the result is a suffix of the input that starts with no white space, and everything cut was white space |
| `StartPageScript.TrimEnd` | src/main.swift:97 | the result is a prefix of the input that ends with no white space, and everything cut was white space |
| `StartPageScript.Trim` | src/main.swift:97-98 | the trimmed query is empty exactly when the query is all white space, and otherwise neither starts nor ends with white space |
| `StartPageScript.TrimIsSlice` | src/main.swift:97 | trimming yields a slice of the query surrounded only by white space, neither starting nor ending with white space |
| `StartPageScript.StartPageSearch` | src/ui.cpp:218-222 | only Enter navigates, to the Google search prefix followed by the query exactly as typed |
| `StartPageScript.StartPageSearchInjective` | src/ui.cpp:221 | the search address determines the typed query, so different queries give different addresses |
| `StartPageScript.SearchOrNavigate` | src/main.swift:95-104 | a key press navigates exactly when it is Enter on a query that is not all white space; a trimmed query starting with `http://` or `https://` is opened as it is, and any other becomes the Google search address of its encoding |
| `StartPageScript.Label` | src/main.swift:114 | a tile shows the title unless it is empty, and then the URL; the label is empty only when both are |
| `StartPageScript.Tiles` | src/main.swift:111-116 | one tile per bookmark in list order, showing the title when non-empty and the URL otherwise, and linking to the URL |
| `StartPageScript.TilesAppend` | src/main.swift:111 | the tiles of a concatenation are the concatenated tiles, so list order is kept |
| `CefBrowser.PageFor` | src/browser.cpp:122-131 | the start page is chosen iff the URL contains `alpha://start` anywhere; settings iff the URL does not but contains `alpha://settings`; otherwise nothing |
| `CefBrowser.PageForMatchesEmbedded` | src/browser.cpp:122 | an address with `alpha://start` after any prefix still selects the start page |
| `CefBrowser.LockStatus` | src/browser.cpp:54-55 | the label is Secure iff the main-frame URL starts with `https://`, Not Secure otherwise |
| `CefBrowser.LockScript` | src/browser.cpp:56-57 | the script sets the lock icon's text to exactly the label, between the fixed assignment head and the closing quote |
| `CefBrowser.Without` | src/browser.cpp:35 | after removal the browser is absent, every survivor was present, and the length drops by its number of occurrences |
| `CefBrowser.WithoutAppend` | src/browser.cpp:35 | removal works piecewise on a concatenation, so the other browsers keep their order |
| `CefBrowser.WithoutKeepsOthers` | src/browser.cpp:35 | every other browser keeps its number of occurrences |
| `CefBrowser.Remove` | src/browser.cpp:35 | the erase/remove loop yields exactly the list without the browser |
| `CefBrowser.SimpleClient.constructor` | src/browser.cpp:14 | no browsers, no quit requests, no scripts |
| `CefBrowser.SimpleClient.OnAfterCreated` | src/browser.cpp:21-24 | the browser is appended to the list |
| `CefBrowser.SimpleClient.OnBeforeClose` | src/browser.cpp:33-39 | every occurrence of the browser is removed with the rest in order, and a quit is requested iff the list is then empty |
| `CefBrowser.SimpleClient.OnLoadEnd` | src/browser.cpp:53-59 | the script setting the lock label of the main-frame URL is run |
| `CefBrowser.AlphaSchemeHandler.constructor` | src/browser.cpp:150 | the page buffer starts empty |
| `CefBrowser.AlphaSchemeHandler.ProcessRequest` | src/browser.cpp:120-134 | the buffer becomes the start page or the settings page by the substring rule, keeps its old value for any other URL, the callback continues, and the result is always true |
| `CefBrowser.AlphaSchemeHandler.GetResponseHeaders` | src/browser.cpp:136-140 | status 200, MIME type text/html, and length equal to the buffer's length |
| `CefBrowser.AlphaSchemeHandler.ReadResponse` | src/browser.cpp:142-147 | `bytes_read = min(|data_|, bytes_to_read)`, that prefix of the buffer is copied and the rest of the output is untouched, and the result is true iff something was read |
| `CefBrowser.RereadIsSame` | src/browser.cpp:143-146 | two reads with no request between them, into the same buffer or two buffers, deliver the same prefix, and the buffer is not consumed |
| `SwiftBrowser.Loaded` | src/main.swift:168-171 | with no stored data, or data that does not decode, the list is unchanged |
| `SwiftBrowser.Decode` | src/main.swift:169-170 | decoding gives the encoded list, and fails exactly on data that is not an encoded list |
| `SwiftBrowser.Encode` | src/main.swift:180-181 | what the encoder writes decodes to the same list (an assumption of the stored-data abstraction) |
| `SwiftBrowser.BookmarksJson` | src/main.swift:187-194 | the encoder's text, or `"[]"` when encoding or the UTF-8 conversion fails |
| `SwiftBrowser.AlphaSurfBrowser.constructor` | src/main.swift:135-140 | the start page is loaded first, then the list is whatever loading gives from an empty list, and the `loadBookmarks` script is evaluated with the encoded list iff loading succeeded |
| `SwiftBrowser.AlphaSurfBrowser.AddBookmark` | src/main.swift:156-164 | `Bookmark(url, title)` is appended at the end, the list is saved, and the `loadBookmarks` script is evaluated with the encoded new list |
| `SwiftBrowser.AlphaSurfBrowser.LoadBookmarks` | src/main.swift:167-176 | the whole list is replaced by the decoded data only when data exists and decodes, and only then the `loadBookmarks` script is evaluated with the encoded list |
| `SwiftBrowser.AlphaSurfBrowser.SaveBookmarks` | src/main.swift:179-184 | UserDefaults holds the encoding of the current list |
| `SwiftBrowser.LoadAfterSave` | src/main.swift:167-184 | under the encoder round trip the stored-data abstraction assumes, loading what was saved gives back the saved list, whatever was in memory |
| `SwiftBrowser.Launch` | src/main.swift:213-217 | after startup the list is the loaded list followed by Apple then Google, and it is saved |

## Left out

- GTK widget, dialog, toolbar and splash-screen construction (`src/main.cpp:58-83, 162-263`, `src/ui.cpp:4-131`): this is toolkit plumbing. Opening a dialog is recorded as an effect, and its contents are not modelled.
- The right-click edit and delete callbacks (`src/main.cpp:177-226`, `src/ui.cpp:46-95`): they pass pointers into the vector and are callback wiring, not stateable logic.
- `create_new_tab` and `on_new_tab_button_clicked` of `src/main.cpp:266-275`: they build a widget and load fixed HTML, with no routing. The routed version of `src/ui.cpp` is the one modelled.
- `display_history_ui` and `display_bookmarks_ui`: these are GTK list dialogs.
- json-glib, JSONEncoder/JSONDecoder and UserDefaults internals are foreign libraries. The file is an array of string-valued objects. UserDefaults data is either an encoded list or undecodable. The text `bookmarksToJSON` gets from the encoder is a function parameter.
- Bookmarks.BookmarkStore.Load: requires every object in the file to have the title and url members. For a missing member, json-glib returns NULL, and assigning that to a `std::string` is undefined behaviour. Malformed JSON and a non-array root are not modelled either.
- Bookmarks.BookmarkStore.Save: a failed write (`json_generator_to_file` returning false) is not modelled. The model always writes the file.
- SwiftBrowser.AlphaSurfBrowser.SaveBookmarks: encoding failure is not modelled, because JSONEncoder cannot fail on a list of string pairs.
- CefBrowser.AlphaSchemeHandler.ReadResponse: requires `0 <= bytes_to_read <= ` the output buffer's size, which is what CEF passes. The `size_t` conversion of a negative count is therefore not modelled.
- Engine behaviour is an input or a recorded effect, not a model: page loading, title and URI retrieval, JavaScript execution, `CefInitialize`, the message loop, the `DoClose` and `OnLoadError` handlers, and `CEF_REQUIRE_UI_THREAD` (a threading assertion).
- The clock text of `GetStartPageHTML` (`src/browser.cpp:67-115`) depends on wall-clock time. The start page is a parameter of `ProcessRequest`.
- The start pages and the settings page are kept only as their opening characters. Their CSS and HTML are not modelled.
- `encodeURIComponent` is a function parameter, because its UTF-8 percent-encoding is not modelled.
- The page side of the Cocoa `loadBookmarks` script, which appends tiles to the page on every call, is not modelled. The model records each call and defines the tiles one call draws.
- A C++ `char` is modelled as one Dafny `char`. Byte encodings are not modelled.
- Bookmarks.LoadAfterSave: a Dafny string may contain `'\0'`, but `c_str()` (`src/bookmarks.cpp:37-38`) cuts a string at its first NUL, so for such strings the source would not round-trip. Every title and URL in the program comes from a C string, so none contains a NUL.
- Tabs.TabbedWindow.OnLoadChanged: the view's URI is taken to be non-NULL. `src/ui.cpp:139` assigns `webkit_web_view_get_uri` to a `std::string`, which is undefined behaviour for NULL, so that case is not modelled.
- The page side of `ui.cpp`'s new-tab routing is modelled as written: the start page's HTML text is handed to `load_uri` as an address (`src/ui.cpp:152, 228`), and what the engine then shows is not modelled.
