# homiBrowser session model

A Dafny model of the bookkeeping inside homiBrowser, a PyQt5 tabbed web
browser: the tabs of the main window and the selected one, the stack of
closed tabs that "↩ Reopen Tab" pops, the incognito checkbox, the
`bookmarks` and `history` tables of `browser_data.db`, the address-bar
rewriting, the tab label, and the download progress bar's guard.

The page engine (QtWebEngine) is abstract. Loading a url sets the tab's
`url`. A url or title the engine reports arrives as a method parameter.

Modules:

- `Text`: Python's `str.strip()` and the tab label `title[:20] + "..."`.
- `Navigation`: what `navigate_to_url` does to the address-bar text.
- `Storage`: the two tables as a map (url is `UNIQUE`) and an append-only
  sequence, their updates as functions, and `Store`, the connection the main
  window and both dialogs share.
- `Tabs`: the tab strip as a value (`TabStrip`), with one function per
  thing the browser does to it: open, close, reopen, switch profile, load,
  retitle, relabel.
- `Downloads`: the percentage a progress report shows, and `DownloadItem`.
- `Browser`: `Session` (the `WebBrowser` window), `BookmarkManager` and
  `HistoryViewer`. Each `Session` method states its new state as a
  `Tabs`/`Storage` function of the old one. `Session` keeps `Valid()`: at
  least one tab is open, a valid index is selected, and the tables exist.
  The two dialogs have no invariant of their own; their methods require
  only that the shared connection's tables exist.

Predicates and small helpers have no row of their own below; each is part
of the rows that use it. `Text.IsSpace` is Python's whitespace set, and
`Text.AllSpace`, `Text.LeadingSpace`, `Text.TrailingSpace` and
`Text.LabelHead` belong to `Text.Strip` and `Text.TabLabel`.
`Navigation.StartsWith` and `Navigation.HasScheme` are the
`startswith(('http://', 'https://'))` test of `Navigation.RewriteUrl`.
`Tabs.Falsy` is the `if url:` test of `Tabs.NewTab` and `Tabs.Open`.

Quirks of the source that the model keeps:

- History recording depends on the incognito checkbox, not on the profile
  of the tab that navigated.
- The history title is the selected tab's title.
- `update_tab_title` relabels the selected tab, whichever tab's title
  changed.
- The tab label always ends in "...", even for a short title.
- `reopen_last_tab` passes the saved title to `setWindowTitle` of the new
  view. The tab text and the page title do not change. A closed tab with a
  blank url reopens at the home page, because `add_new_tab` treats `""` as
  no url.
- A reopened tab is off the record when the checkbox is checked at reopen
  time.
- `on_incognito_state_changed` switches the profile of an existing tab. So
  whether a tab is private is not fixed when the tab is created.
- A provider name outside the three combo-box items leaves the typed text
  unchanged. No `https://` prefix is added.
- After `removeTab`, the selected index follows the tab widget's default
  rule. The selected tab stays selected. If the selected tab was removed,
  its right neighbour is selected, or its left one when it was last.

## Model

| member | source | states |
|---|---|---|
| `Text.Strip` | homiBrowser.py:137-138 | the result is the input with only leading and trailing whitespace removed, and it neither starts nor ends with whitespace |
| `Text.StripEmptyIffAllSpace` | homiBrowser.py:140 | a stripped input is empty exactly when the input is all whitespace |
| `Text.StripIdempotent` | homiBrowser.py:137-138 | stripping twice equals stripping once |
| `Text.TabLabel` | homiBrowser.py:519 | the label is at most 20 code points of the title plus "..."; a title of 20 or fewer is shown whole and still gets "..." |
| `Text.SameLabelIffSameHead` | homiBrowser.py:519 | two titles get the same label exactly when their first 20 code points agree |
| `Navigation.SearchPrefix` | homiBrowser.py:501-506 | exactly the three combo-box providers have a query template, and each template is an https url |
| `Navigation.RewriteUrl` | homiBrowser.py:499-506 | text starting with `http://` or `https://` is kept; otherwise each of the three providers puts its query prefix before it; any other provider keeps it |
| `Navigation.RewriteHasScheme` | homiBrowser.py:499-506 | with one of the combo-box providers the loaded url always has an http(s) scheme |
| `Navigation.RewriteIdempotent` | homiBrowser.py:499-506 | rewriting an already rewritten url changes nothing |
| `Navigation.SearchQueryRoundTrip` | homiBrowser.py:501-506 | the typed text is recovered verbatim from the search url |
| `Storage.Upsert` | homiBrowser.py:146-147 | `INSERT OR REPLACE`: the url's row carries the new title, the other rows are unchanged |
| `Storage.Delete` | homiBrowser.py:161 | only the url's row is removed, if present |
| `Storage.Toggle` | homiBrowser.py:556-565 | a bookmarked url is removed, any other is inserted with the page title, and rows for other urls are untouched |
| `Storage.UpsertLastWriteWins` | homiBrowser.py:564-565 | two upserts of one url leave the second title |
| `Storage.UpsertRowCount` | homiBrowser.py:441-444 | an upsert adds a row only for a url that had none, so there is one row per url |
| `Storage.DeleteAbsent` | homiBrowser.py:159-162 | deleting an absent url is a no-op |
| `Storage.ToggleTwice` | homiBrowser.py:549-569 | toggling twice restores membership; an unbookmarked url leaves the table exactly as it was |
| `Storage.Record` | homiBrowser.py:586-592 | one `(title, url)` row is appended when the checkbox is unchecked and none when it is checked; old rows are kept |
| `Storage.RecordAllAppends` | homiBrowser.py:586-592 | after any run of visits the old rows are a prefix, followed by exactly the unchecked visits in order |
| `Storage.Store.Connect` | homiBrowser.py:438 | opening the file gives the tables and rows it already holds |
| `Storage.Store.EnsureSchema` | homiBrowser.py:441-451 | missing tables are created and existing rows are kept |
| `Storage.Store.FindBookmark` | homiBrowser.py:576-577 | the lookup is true exactly when the url has a row |
| `Storage.Store.UpsertBookmark` | homiBrowser.py:146-147 | the table becomes `Upsert` of the old one |
| `Storage.Store.DeleteBookmark` | homiBrowser.py:161 | the table becomes `Delete` of the old one |
| `Storage.Store.InsertHistory` | homiBrowser.py:590-591 | one row is appended |
| `Storage.Store.DeleteHistory` | homiBrowser.py:231 | the history is empty |
| `Tabs.RemoveAt` | homiBrowser.py:544 | one element fewer; those before the index are kept in place and those after it shift down by one |
| `Tabs.SelectAfterRemove` | homiBrowser.py:544 | the selected tab stays selected; a removed selected tab passes the selection to its right neighbour, or to its left one if it was last |
| `Tabs.NewTab` | homiBrowser.py:474-479 | a new tab is never blank: it shows the url, or the home page when the url is falsy; its text is "New Tab" and it has no title yet |
| `Tabs.Open` | homiBrowser.py:458-482 | one tab more, last and selected, equal to `NewTab` of the url: at the url or the home page when the url is falsy, off the record iff the checkbox is checked |
| `Tabs.Close` | homiBrowser.py:533-547 | removes exactly the tab at the index and keeps the others in order; the selected index becomes `SelectAfterRemove`; pushes its url and title iff it is not off the record; opens a default tab when none remain |
| `Tabs.Reopen` | homiBrowser.py:431-435 | an empty stack changes nothing; otherwise the last entry is popped and a new selected tab opens at its url, with its title as window title |
| `Tabs.WithTab` | homiBrowser.py:359-363 | only the given tab is replaced |
| `Tabs.SetPrivate` | homiBrowser.py:356-363 | only the selected tab's profile changes, to off the record iff checked |
| `Tabs.Load` | homiBrowser.py:508 | only that tab's url changes |
| `Tabs.Retitle` | homiBrowser.py:465 | only that tab's page title changes |
| `Tabs.Relabel` | homiBrowser.py:517-519 | only the selected tab's text changes, to the truncated title |
| `Tabs.CloseThenReopen` | homiBrowser.py:431-435 | closing a non-private tab and reopening restores the stack and opens its url with its title as window title |
| `Tabs.PrivateTabNotRecoverable` | homiBrowser.py:536-540 | closing a private tab leaves the stack as it was, so a later reopen cannot bring it back |
| `Tabs.TitleLabelsSelectedTab` | homiBrowser.py:517-519 | a title from a tab that is not selected relabels the selected tab, not the reporting one |
| `Downloads.Percent` | homiBrowser.py:257 | the percentage is `received*100/total` truncated, characterised by `p*total <= received*100 < (p+1)*total` |
| `Downloads.SetValue` | homiBrowser.py:257 | a value in 0..100 is shown; any other leaves the bar as it was |
| `Downloads.AfterProgress` | homiBrowser.py:255-257 | a total of zero or less leaves the bar unchanged; a report within the total shows its percentage; the bar never leaves 0..100 |
| `Downloads.PercentInRange` | homiBrowser.py:257 | the percentage is in 0..100 and reaches 100 only when all bytes are received |
| `Downloads.PercentMonotone` | homiBrowser.py:257 | more bytes received never show a smaller percentage |
| `Downloads.DownloadItem.constructor` | homiBrowser.py:249-250 | a new item's bar shows nothing yet |
| `Downloads.DownloadItem.UpdateProgress` | homiBrowser.py:255-257 | the bar becomes `AfterProgress` of its old value |
| `Downloads.DownloadItem.DownloadFinished` | homiBrowser.py:259-260 | the bar shows 100 |
| `Browser.Session.constructor` | homiBrowser.py:278-354 | tables exist, the stack is empty, the checkbox is unchecked, Google is selected and exactly one default tab is open |
| `Browser.Session.SelectTab` | homiBrowser.py:340-344 | a click on a tab of the tab widget selects that index and keeps the session valid |
| `Browser.Session.TypeUrl` | homiBrowser.py:312-314 | typing sets the address bar text |
| `Browser.Session.SelectSearchEngine` | homiBrowser.py:306-310 | the selected provider is one of the combo box's three items |
| `Browser.Session.AddNewTab` | homiBrowser.py:458-482 | the tab strip becomes `Open` of the old one and the new index is returned |
| `Browser.Session.CloseTab` | homiBrowser.py:533-547 | the tab strip becomes `Close` of the old one and at least one tab stays open |
| `Browser.Session.ReopenLastTab` | homiBrowser.py:431-435 | the tab strip becomes `Reopen` of the old one |
| `Browser.Session.OnIncognitoStateChanged` | homiBrowser.py:356-363 | the checkbox takes the new state and the strip becomes `SetPrivate` of the old one |
| `Browser.Session.NavigateToUrl` | homiBrowser.py:495-508 | the selected tab loads `RewriteUrl` of the address bar text and provider |
| `Browser.Session.PageUrlChanged` | homiBrowser.py:464 | the reporting tab's url changes, then `update_url_bar` runs |
| `Browser.Session.UpdateUrlBar` | homiBrowser.py:510-514 | the bar shows the url, the star tracks the selected tab's url, and a visit titled with the selected tab's title is recorded as `Record` says |
| `Browser.Session.PageTitleChanged` | homiBrowser.py:465 | the reporting tab's title changes and the selected tab is relabelled |
| `Browser.Session.UpdateTabTitle` | homiBrowser.py:517-519 | the strip becomes `Relabel` of the old one |
| `Browser.Session.UpdateBookmarkButton` | homiBrowser.py:571-579 | the star is on iff the selected tab's url is bookmarked |
| `Browser.Session.ToggleBookmark` | homiBrowser.py:549-569 | the table becomes `Toggle` of the old one at the selected tab's url and title; the returned star is the new membership |
| `Browser.Session.AddToHistory` | homiBrowser.py:586-594 | the history becomes `Record` of the old one under the checkbox state |
| `Browser.Submit` | homiBrowser.py:137-142 | an all-whitespace url is refused; otherwise the stripped url is kept with the stripped title, or no title when it is blank |
| `Browser.BookmarkManager.constructor` | homiBrowser.py:75-87 | the dialog shares the connection and starts with empty inputs |
| `Browser.BookmarkManager.AddBookmark` | homiBrowser.py:136-153 | a refused url changes nothing; an accepted one is upserted and both inputs are cleared |
| `Browser.BookmarkManager.DeleteBookmark` | homiBrowser.py:159-162 | the table becomes `Delete` of the old one |
| `Browser.HistoryViewer.constructor` | homiBrowser.py:171-173 | the dialog shares the connection |
| `Browser.HistoryViewer.ClearHistory` | homiBrowser.py:229-232 | the history is empty |

## Left out

- Widgets, layouts, menus, message boxes and table rendering are not modelled. This covers `load_bookmarks`, `load_history` and their `ORDER BY`, and the title-or-"Untitled" display.
- The context menu is not modelled: the JavaScript link lookup, `copy_link` and the clipboard. Its "Open Link in New Tab", `open_bookmark` and `open_history_item` only call `add_new_tab` with a url, which is `Browser.Session.AddNewTab`. Closing the dialog afterwards is not modelled.
- Widget input is modelled only by the state it changes. `Browser.Session.SelectTab`, `Browser.Session.TypeUrl` and `Browser.Session.SelectSearchEngine` stand for a tab click, typing in the address bar and a combo-box choice. Qt's own signals for them are not modelled.
- Back, forward and reload are not modelled. They are engine calls.
- Pausing media before a close is not modelled. It is a JavaScript call into the page.
- `visited_at` timestamps are not modelled. A row's position in the sequence gives insertion order.
- Profiles are not modelled. Cache type, storage path and off-the-record profile creation become one boolean on each tab.
- SQLite is not modelled: the connection, cursors, commits and error paths. No statement fails in the model. So the `sqlite3.Error` branches of `add_bookmark` and `add_to_history` are not modelled.
- Url normalisation is not modelled. The model assumes the engine reports the same string it was given to load; `QUrl` could normalise it.
- A closed view is removed from the tab widget but not deleted, so its page could still emit `urlChanged` or `titleChanged`. `Browser.Session.PageUrlChanged` and `Browser.Session.PageTitleChanged` model only signals from open tabs. `Browser.Session.UpdateUrlBar` and `Browser.Session.UpdateTabTitle` take any url or title.
- `handle_download`, download acceptance, the `~/Downloads` directory and `DownloadManager` are not modelled. The later `handle_download` never registers an item, so `DownloadManager` is not reached.
- Downloads.Percent: computes the percentage exactly, where Python divides in floating point. The results can differ by one: received 29 of total 100 gives 28 in Python and 29 here.
- Dead code is not modelled: `toggle_dark_mode`, `toggle_incognito_mode`, `create_new_tab_button`, the first `handle_download` and `navigate_to_url`, and the duplicate `back`, `forward`, `reload` and `mousePressEvent`.
- Popups (`CustomWebPage.createWindow`) are not modelled. Neither are the repeated `downloadRequested` connections on the shared default profile. Both are engine dispatch.
