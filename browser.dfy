/**
 * The main window (`WebBrowser`) as a session object, and the two dialogs
 * that share its database connection. Widgets are reduced to the state the
 * browser reads back: the address bar text, the selected search provider,
 * the incognito checkbox and the star on the bookmark button.
 */
module Browser {
  import opened Optional
  import opened Tabs
  import Text
  import Navigation
  import opened Storage

  class Session {
    /** The tab widget: its tabs in order and the selected index. */
    var tabs: seq<Tab>
    var current: nat
    /** `closed_tabs`, most recently closed last. */
    var closedTabs: seq<ClosedTab>
    /** Whether the "Incognito" checkbox is checked. */
    var incognito: bool
    /** The search provider selected in the combo box. */
    var searchEngine: string
    /** The address bar text. */
    var urlBar: string
    /** Whether the bookmark button shows the filled star. */
    var starred: bool
    /** The connection to `browser_data.db`. */
    const store: Store

    function State(): TabStrip
      reads this
    {
      TabStrip(tabs, current, closedTabs)
    }

    predicate Valid()
      reads this, store
    {
      State().Valid() && store.Ready()
    }

    /**
     * `WebBrowser.__init__`: creates the tables, starts with an empty stack,
     * the checkbox unchecked and the first provider selected, then opens
     * one default tab.
     */
    constructor (db: Store)
      modifies db`tables
      ensures Valid() && store == db
      ensures State() == Open(TabStrip([], 0, []), None, false)
      ensures !incognito && searchEngine == Navigation.SearchEngines[0] && urlBar == "" && !starred
    {
      db.EnsureSchema();
      store := db;
      tabs, current, closedTabs := [], 0, [];
      incognito, searchEngine, urlBar, starred := false, Navigation.SearchEngines[0], "", false;
      new;
      var _ := AddNewTab(None);
    }

    /** A click on tab `index` of the tab widget selects it; nothing else changes. */
    method SelectTab(index: nat)
      requires Valid() && index < |tabs|
      modifies this`current
      ensures Valid() && current == index
    {
      current := index;
    }

    /** Typing in the address bar: only its text changes. */
    method TypeUrl(text: string)
      modifies this`urlBar
      ensures urlBar == text
    {
      urlBar := text;
    }

    /** Picking a provider in the combo box, which offers only its three items. */
    method SelectSearchEngine(choice: nat)
      requires choice < |Navigation.SearchEngines|
      modifies this`searchEngine
      ensures searchEngine == Navigation.SearchEngines[choice]
      ensures searchEngine in Navigation.SearchEngines
    {
      searchEngine := Navigation.SearchEngines[choice];
    }

    /** `add_new_tab(url)`; returns the new tab's index. */
    method AddNewTab(url: Option<string>) returns (index: nat)
      modifies this`tabs, this`current
      ensures State() == Open(old(State()), url, incognito)
      ensures index == current
    {
      var tab := NewTab(url, incognito);
      tabs := tabs + [tab];
      index := |tabs| - 1;
      current := index;
    }

    /** `close_tab(index)`; pausing the page's media is not modelled. */
    method CloseTab(index: nat)
      requires Valid() && index < |tabs|
      modifies this`tabs, this`current, this`closedTabs
      ensures Valid()
      ensures State() == Close(old(State()), index, incognito)
    {
      var tab := tabs[index];
      if !tab.offTheRecord {
        closedTabs := closedTabs + [ClosedTab(tab.url, tab.title)];
      }
      var count := |tabs|;
      tabs := tabs[..index] + tabs[index + 1..];
      if |tabs| == 0 {
        current := 0;
        var _ := AddNewTab(None);
      } else {
        current := SelectAfterRemove(current, index, count);
      }
    }

    /** `reopen_last_tab`. */
    method ReopenLastTab()
      requires Valid()
      modifies this`tabs, this`current, this`closedTabs
      ensures Valid()
      ensures State() == Reopen(old(State()), incognito)
    {
      if closedTabs != [] {
        var last := closedTabs[|closedTabs| - 1];
        closedTabs := closedTabs[..|closedTabs| - 1];
        var index := AddNewTab(Some(last.url));
        tabs := tabs[index := tabs[index].(windowTitle := last.title)];
      }
    }

    /** `on_incognito_state_changed`: the checkbox now reads `checked` and the selected tab follows it. */
    method OnIncognitoStateChanged(checked: bool)
      requires Valid()
      modifies this`tabs, this`incognito
      ensures Valid() && incognito == checked
      ensures State() == SetPrivate(old(State()), checked)
    {
      incognito := checked;
      tabs := tabs[current := tabs[current].(offTheRecord := checked)];
    }

    /** `navigate_to_url` (the later of its two identical definitions): the selected tab loads the rewritten address bar text. */
    method NavigateToUrl()
      requires Valid()
      modifies this`tabs
      ensures Valid()
      ensures State() == Load(old(State()), current, Navigation.RewriteUrl(urlBar, searchEngine))
    {
      var url := Navigation.RewriteUrl(urlBar, searchEngine);
      tabs := tabs[current := tabs[current].(url := url)];
    }

    /**
     * The engine reports that tab `index` now shows `url`, and its
     * `urlChanged` signal runs `update_url_bar`.
     */
    method PageUrlChanged(index: nat, url: string)
      requires Valid() && index < |tabs|
      modifies this`tabs, this`urlBar, this`starred, store`history
      ensures Valid()
      ensures State() == Load(old(State()), index, url)
      ensures urlBar == url
      ensures starred <==> tabs[current].url in store.bookmarks
      ensures store.history == Record(old(store.history), incognito, tabs[current].title, url)
    {
      tabs := tabs[index := tabs[index].(url := url)];
      UpdateUrlBar(url);
    }

    /**
     * `update_url_bar(url)`: shows `url`, refreshes the star for the
     * SELECTED tab's url, and records a visit titled with the SELECTED tab's
     * title, whichever tab changed.
     */
    method UpdateUrlBar(url: string)
      requires Valid()
      modifies this`urlBar, this`starred, store`history
      ensures Valid() && urlBar == url
      ensures starred <==> tabs[current].url in store.bookmarks
      ensures store.history == Record(old(store.history), incognito, tabs[current].title, url)
    {
      urlBar := url;
      UpdateBookmarkButton();
      AddToHistory(tabs[current].title, url);
    }

    /**
     * The engine reports a new page title for tab `index`, and its
     * `titleChanged` signal runs `update_tab_title`.
     */
    method PageTitleChanged(index: nat, title: string)
      requires Valid() && index < |tabs|
      modifies this`tabs
      ensures Valid()
      ensures State() == Relabel(Retitle(old(State()), index, title), title)
    {
      tabs := tabs[index := tabs[index].(title := title)];
      UpdateTabTitle(title);
    }

    /** `update_tab_title(title)`: relabels the selected tab. */
    method UpdateTabTitle(title: string)
      requires Valid()
      modifies this`tabs
      ensures Valid()
      ensures State() == Relabel(old(State()), title)
    {
      tabs := tabs[current := tabs[current].(text := Text.TabLabel(title))];
    }

    /** `update_bookmark_button`: the star shows whether the selected tab's url has a row. */
    method UpdateBookmarkButton()
      requires Valid()
      modifies this`starred
      ensures starred <==> tabs[current].url in store.bookmarks
    {
      starred := store.FindBookmark(tabs[current].url);
    }

    /**
     * `toggle_bookmark`: removes the selected page's bookmark or adds one
     * titled with its page title; the star, also returned, shows the new
     * state.
     */
    method ToggleBookmark() returns (star: bool)
      requires Valid()
      modifies this`starred, store`bookmarks
      ensures Valid()
      ensures store.bookmarks == Toggle(old(store.bookmarks), tabs[current].url, tabs[current].title)
      ensures star == starred && (star <==> tabs[current].url in store.bookmarks)
    {
      var url, title := tabs[current].url, tabs[current].title;
      var existing := store.FindBookmark(url);
      if existing {
        store.DeleteBookmark(url);
        starred := false;
      } else {
        store.UpsertBookmark(url, Some(title));
        starred := true;
      }
      star := starred;
    }

    /** `add_to_history(title, url)`: gated on the checkbox, not on the profile of any tab. */
    method AddToHistory(title: string, url: string)
      requires Valid()
      modifies store`history
      ensures Valid()
      ensures store.history == Record(old(store.history), incognito, title, url)
    {
      if !incognito {
        store.InsertHistory(title, url);
      }
    }
  }

  /** What the Bookmark Manager makes of its two inputs. */
  datatype Submission = Rejected | Accepted(url: string, title: Option<string>)

  /**
   * `add_bookmark`'s reading of the inputs: a url that is empty once
   * stripped is refused ("URL cannot be empty"); otherwise the stripped url
   * is stored with the stripped title, or with no title when that is empty.
   */
  function Submit(urlText: string, titleText: string): (r: Submission)
    ensures r.Rejected? <==> Text.AllSpace(urlText)
    ensures r.Accepted? ==> r.url == Text.Strip(urlText) && r.url != ""
    ensures r.Accepted? ==> (r.title == None <==> Text.AllSpace(titleText))
    ensures r.Accepted? && r.title.Some? ==> r.title.value == Text.Strip(titleText) && r.title.value != ""
  {
    Text.StripEmptyIffAllSpace(urlText);
    Text.StripEmptyIffAllSpace(titleText);
    var url, title := Text.Strip(urlText), Text.Strip(titleText);
    if url == "" then Rejected else Accepted(url, if title == "" then None else Some(title))
  }

  /** The Bookmark Manager dialog. */
  class BookmarkManager {
    const conn: Store
    /** The "Enter URL" and "Enter Title (Optional)" inputs. */
    var urlInput: string
    var titleInput: string

    constructor (conn: Store)
      ensures this.conn == conn && urlInput == "" && titleInput == ""
    {
      this.conn := conn;
      urlInput, titleInput := "", "";
    }

    /**
     * `add_bookmark`: a refused url leaves the table and the inputs as they
     * were; an accepted one is upserted and both inputs are cleared.
     */
    method AddBookmark() returns (outcome: Submission)
      requires conn.Ready()
      modifies this`urlInput, this`titleInput, conn`bookmarks
      ensures outcome == Submit(old(urlInput), old(titleInput))
      ensures outcome.Rejected? ==>
                conn.bookmarks == old(conn.bookmarks) && urlInput == old(urlInput) && titleInput == old(titleInput)
      ensures outcome.Accepted? ==>
                conn.bookmarks == Upsert(old(conn.bookmarks), outcome.url, outcome.title)
                && urlInput == "" && titleInput == ""
    {
      var url := Text.Strip(urlInput);
      var title: Option<string> := if Text.Strip(titleInput) == "" then None else Some(Text.Strip(titleInput));
      if url == "" {
        outcome := Rejected;
        return;
      }
      conn.UpsertBookmark(url, title);
      urlInput, titleInput := "", "";
      outcome := Accepted(url, title);
    }

    /** `delete_bookmark(url)`. */
    method DeleteBookmark(url: string)
      requires conn.Ready()
      modifies conn`bookmarks
      ensures conn.bookmarks == Delete(old(conn.bookmarks), url)
    {
      conn.DeleteBookmark(url);
    }
  }

  /** The Browsing History dialog. */
  class HistoryViewer {
    const conn: Store

    constructor (conn: Store)
      ensures this.conn == conn
    {
      this.conn := conn;
    }

    /** `clear_history`: every row goes; bookmarks are untouched. */
    method ClearHistory()
      requires conn.Ready()
      modifies conn`history
      ensures conn.history == []
    {
      conn.DeleteHistory();
    }
  }
}
