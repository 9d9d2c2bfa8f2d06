/**
 * The CEF shell: a client that keeps the list of open browsers and quits the
 * message loop when the last one closes, labels pages by their scheme, and a
 * handler that serves the internal alpha:// pages from a string buffer.
 * Strings stand for C++ std::string, one Dafny char per C++ char.
 */
module CefBrowser {
  import opened Wrappers
  import opened Strings
  import opened Addresses

  /** The settings page the handler serves; only its opening characters are kept. */
  const SettingsPageHtml: string := "\n" + "                <html><body>\n                <h1>Settings Page</h1>"

  const SecureLabel: string := "\U{1F512} Secure"
  const NotSecureLabel: string := "\U{1F513} Not Secure"

  /** The internal pages the handler knows. */
  datatype InternalPage = StartPage | SettingsPage

  /**
   * ProcessRequest's choice. The tests are `find(...) != npos`, that is
   * substring tests anywhere in the URL, and the start page comes first.
   */
  function PageFor(url: string): (p: Option<InternalPage>)
    ensures p == Some(StartPage) <==> Contains(url, StartUrl)
    ensures p == Some(SettingsPage) <==> !Contains(url, StartUrl) && Contains(url, SettingsUrl)
    ensures p == None <==> !Contains(url, StartUrl) && !Contains(url, SettingsUrl)
  {
    FindFoundIffContains(url, StartUrl);
    FindFoundIffContains(url, SettingsUrl);
    if Find(url, StartUrl).Some? then Some(StartPage)
    else if Find(url, SettingsUrl).Some? then Some(SettingsPage)
    else None
  }

  /** Unlike a prefix test, the substring test also matches an address embedded further on. */
  lemma PageForMatchesEmbedded(prefix: string)
    ensures PageFor(prefix + StartUrl) == Some(StartPage)
  {
    var url := prefix + StartUrl;
    assert OccursAt(url, StartUrl, |prefix|) by {
      assert url[|prefix|..|prefix| + |StartUrl|] == StartUrl;
    }
  }

  /**
   * OnLoadEnd's label. The test is `find("https://") == 0`, so a page is
   * labelled Secure exactly when its main-frame URL starts with https://.
   */
  function LockStatus(url: string): (status: string)
    ensures status == SecureLabel <==> HttpsScheme <= url
    ensures status == NotSecureLabel <==> !(HttpsScheme <= url)
  {
    FindZeroIffPrefix(url, HttpsScheme);
    assert SecureLabel[2] != NotSecureLabel[2];
    if Find(url, HttpsScheme) == Some(0) then SecureLabel else NotSecureLabel
  }

  const LockScriptHead: string := "document.getElementById('lock-icon').innerText = '"
  const LockScriptTail: string := "';"

  /** The script OnLoadEnd runs in the main frame: it sets the lock icon's text to exactly the label. */
  function LockScript(url: string): (script: string)
    ensures |script| == |LockScriptHead| + |LockStatus(url)| + |LockScriptTail|
    ensures LockScriptHead <= script
    ensures script[|LockScriptHead|..|script| - |LockScriptTail|] == LockStatus(url)
    ensures script[|script| - |LockScriptTail|..] == LockScriptTail
  {
    var script := LockScriptHead + LockStatus(url) + LockScriptTail;
    assert script[|LockScriptHead|..|script| - |LockScriptTail|] == LockStatus(url);
    script
  }

  /** std::min on the two sizes. */
  function Min(a: nat, b: nat): nat {
    if a <= b then a else b
  }

  /** std::remove followed by erase: the list without any occurrence of `x`, in order. */
  function Without<T(==)>(s: seq<T>, x: T): (r: seq<T>)
    ensures x !in r
    ensures forall y :: y in r ==> y in s
    ensures |r| == |s| - multiset(s)[x]
  {
    if s == [] then []
    else
      var init := s[..|s| - 1];
      assert s == init + [s[|s| - 1]];
      Without(init, x) + (if s[|s| - 1] == x then [] else [s[|s| - 1]])
  }

  /** Removal keeps the others in order: it works piecewise on a concatenation. */
  lemma {:induction false} WithoutAppend<T>(a: seq<T>, b: seq<T>, x: T)
    ensures Without(a + b, x) == Without(a, x) + Without(b, x)
    decreases |b|
  {
    if b == [] {
      assert a + b == a;
    } else {
      var init, last := b[..|b| - 1], b[|b| - 1];
      var tail := if last == x then [] else [last];
      calc {
        Without(a + b, x);
        == { assert (a + b)[..|a + b| - 1] == a + init; assert (a + b)[|a + b| - 1] == last; }
        Without(a + init, x) + tail;
        == { WithoutAppend(a, init, x); }
        (Without(a, x) + Without(init, x)) + tail;
        ==
        Without(a, x) + (Without(init, x) + tail);
        ==
        Without(a, x) + Without(b, x);
      }
    }
  }

  /** Every element other than `x` keeps its number of occurrences. */
  lemma {:induction false} WithoutKeepsOthers<T>(s: seq<T>, x: T, y: T)
    requires y != x
    ensures multiset(Without(s, x))[y] == multiset(s)[y]
  {
    if s != [] {
      var init := s[..|s| - 1];
      WithoutKeepsOthers(init, x, y);
      assert s == init + [s[|s| - 1]];
    }
  }

  /** The loop std::remove runs, on the value of the vector. */
  method Remove<T(==)>(s: seq<T>, x: T) returns (r: seq<T>)
    ensures r == Without(s, x)
  {
    r := [];
    var i := 0;
    while i < |s|
      invariant i <= |s|
      invariant r == Without(s[..i], x)
    {
      assert s[..i + 1][..i] == s[..i];
      if s[i] != x {
        r := r + [s[i]];
      }
      i := i + 1;
    }
    assert s[..i] == s;
  }

  /** A browser, by the identity of its CefRefPtr. */
  type BrowserId = nat

  class SimpleClient {
    /** browsers_: the open browsers, in creation order. */
    var browsers: seq<BrowserId>
    /** How many times CefQuitMessageLoop has been called. */
    var quitRequests: nat
    /** The scripts run in main frames, in order. */
    var scripts: seq<string>

    constructor ()
      ensures browsers == [] && quitRequests == 0 && scripts == []
    {
      browsers := [];
      quitRequests := 0;
      scripts := [];
    }

    /** OnAfterCreated: the new browser joins the end of the list. */
    method OnAfterCreated(browser: BrowserId)
      modifies this`browsers
      ensures browsers == old(browsers) + [browser]
    {
      browsers := browsers + [browser];
    }

    /** OnBeforeClose: drops every occurrence of the browser and quits once none is left. */
    method OnBeforeClose(browser: BrowserId)
      modifies this`browsers, this`quitRequests
      ensures browsers == Without(old(browsers), browser)
      ensures quitRequests == old(quitRequests) + (if browsers == [] then 1 else 0)
    {
      browsers := Remove(browsers, browser);
      if browsers == [] {
        quitRequests := quitRequests + 1;
      }
    }

    /** OnLoadEnd: shows the lock label of the main frame's URL. */
    method OnLoadEnd(mainFrameUrl: string)
      modifies this`scripts
      ensures scripts == old(scripts) + [LockScript(mainFrameUrl)]
    {
      scripts := scripts + [LockScript(mainFrameUrl)];
    }
  }

  class AlphaSchemeHandler {
    /** data_: the page being served. */
    var data: string
    /** How many times the request callback has been told to continue. */
    var continues: nat

    constructor ()
      ensures data == "" && continues == 0
    {
      data := "";
      continues := 0;
    }

    /**
     * ProcessRequest: serves the start page (`startPageHtml`, built from the
     * clock by GetStartPageHTML) or the settings page, and keeps the previous
     * page for any other URL; the request is always accepted.
     */
    method ProcessRequest(url: string, startPageHtml: string) returns (handled: bool)
      modifies this
      ensures handled
      ensures PageFor(url) == Some(StartPage) ==> data == startPageHtml
      ensures PageFor(url) == Some(SettingsPage) ==> data == SettingsPageHtml
      ensures PageFor(url) == None ==> data == old(data)
      ensures continues == old(continues) + 1
    {
      if Find(url, StartUrl).Some? {
        data := startPageHtml;
      } else if Find(url, SettingsUrl).Some? {
        data := SettingsPageHtml;
      }
      continues := continues + 1;
      handled := true;
    }

    /** GetResponseHeaders: 200, text/html, and the length of the page. */
    method GetResponseHeaders() returns (status: int, mimeType: string, responseLength: int)
      ensures status == 200 && mimeType == "text/html" && responseLength == |data|
    {
      mimeType := "text/html";
      status := 200;
      responseLength := |data|;
    }

    /**
     * ReadResponse: copies the first min(|data|, bytesToRead) characters of
     * the page into `out` and reports that count; it never advances through
     * the page, so every call starts again from its beginning.
     */
    method ReadResponse(out: array<char>, bytesToRead: int) returns (more: bool, bytesRead: int)
      requires 0 <= bytesToRead <= out.Length
      modifies out
      ensures bytesRead == Min(|data|, bytesToRead)
      ensures out[..bytesRead] == data[..bytesRead]
      ensures out[bytesRead..] == old(out[bytesRead..])
      ensures more <==> bytesRead > 0
    {
      var size := Min(|data|, bytesToRead);
      for i := 0 to size
        invariant out[..i] == data[..i]
        invariant out[i..] == old(out[i..])
      {
        out[i] := data[i];
      }
      bytesRead := size;
      more := size > 0;
    }
  }

  /**
   * Two reads of the same size, with no request between them, deliver the
   * same prefix of the page; `first` and `second` may be the same buffer,
   * as when CEF reads again into the one it passed before.
   */
  method RereadIsSame(handler: AlphaSchemeHandler, first: array<char>, second: array<char>, n: int)
    returns (read1: int, read2: int)
    requires 0 <= n <= first.Length && n <= second.Length
    modifies first, second
    ensures unchanged(handler)
    ensures read1 == read2 == Min(|handler.data|, n)
    ensures first[..read1] == second[..read2] == handler.data[..read1]
  {
    var more1, more2;
    more1, read1 := handler.ReadResponse(first, n);
    more2, read2 := handler.ReadResponse(second, n);
  }
}
