/**
 * The tab strip of the main window as a value: the open tabs in widget
 * order, the selected index, and the closed-tab stack (most recent last).
 * Each function is one thing the browser does to it; the `Session` class
 * applies them in place. The page engine is abstract: loading a url sets the
 * tab's `url`, and a page title arrives as a parameter.
 */
module Tabs {
  import opened Optional
  import Text

  /** What `add_new_tab` loads when it is given no url. */
  const HomePage: string := "https://www.google.com"

  /** The text `addTab` gives a new tab. */
  const NewTabLabel: string := "New Tab"

  /**
   * One open tab: the page url and title as the engine reports them, the
   * text on the tab, the widget's window title (only `reopen_last_tab` sets
   * it) and whether its profile is off the record.
   */
  datatype Tab = Tab(url: string, title: string, text: string, windowTitle: string, offTheRecord: bool)

  /** An entry of `closed_tabs`: the `{'url', 'title'}` of a closed tab. */
  datatype ClosedTab = ClosedTab(url: string, title: string)

  datatype TabStrip = TabStrip(tabs: seq<Tab>, current: nat, closed: seq<ClosedTab>) {
    /** At least one tab is open and one of them is selected. */
    predicate Valid() {
      current < |tabs|
    }
  }

  /** Python truthiness of `add_new_tab`'s argument: `None`, `False` and `""` are all falsy. */
  predicate Falsy(url: Option<string>) {
    url == None || url == Some("")
  }

  /**
   * The tab `add_new_tab` creates, before the engine reports a title: it is
   * never blank, shows the given url unless that is falsy, and carries the
   * text "New Tab".
   */
  function NewTab(url: Option<string>, offTheRecord: bool): (t: Tab)
    ensures t.url != "" && (t.url == HomePage || Some(t.url) == url)
    ensures !Falsy(url) ==> t.url == url.value
    ensures t.title == "" && t.windowTitle == "" && t.text == NewTabLabel
    ensures t.offTheRecord == offTheRecord
  {
    Tab(if Falsy(url) then HomePage else url.value, "", NewTabLabel, "", offTheRecord)
  }

  /** `s` without its element at `i`, the others kept in order. */
  function RemoveAt<T>(s: seq<T>, i: nat): (r: seq<T>)
    requires i < |s|
    ensures |r| == |s| - 1
    ensures forall j :: 0 <= j < i ==> r[j] == s[j]
    ensures forall j :: i <= j < |r| ==> r[j] == s[j + 1]
  {
    s[..i] + s[i + 1..]
  }

  /**
   * The index the tab widget selects after `removeTab(index)` out of `count`
   * tabs: the selected tab keeps its selection, and when it is the one
   * removed its right neighbour takes over, or its left one if it was last.
   */
  function SelectAfterRemove(current: nat, index: nat, count: nat): (r: nat)
    requires current < count && index < count && 1 < count
    ensures r < count - 1
    ensures index < current ==> r == current - 1
    ensures current < index ==> r == current
    ensures index == current ==> r == if index < count - 1 then index else index - 1
  {
    if index < current then current - 1
    else if index == current then (if index < count - 1 then index else index - 1)
    else current
  }

  /**
   * `add_new_tab(url)`: one tab more, appended last and selected, showing
   * `url` or the home page when `url` is falsy, off the record exactly when
   * the incognito checkbox is checked. Nothing else changes.
   */
  function Open(s: TabStrip, url: Option<string>, incognito: bool): (r: TabStrip)
    ensures r.Valid()
    ensures |r.tabs| == |s.tabs| + 1 && r.tabs[..|s.tabs|] == s.tabs
    ensures r.current == |r.tabs| - 1
    ensures r.tabs[r.current] == NewTab(url, incognito)
    ensures r.tabs[r.current].url == if Falsy(url) then HomePage else url.value
    ensures r.tabs[r.current].offTheRecord == incognito
    ensures r.closed == s.closed
  {
    TabStrip(s.tabs + [NewTab(url, incognito)], |s.tabs|, s.closed)
  }

  /**
   * `close_tab(index)`: the tab at `index` goes and the others keep their
   * order; its url and title are pushed on the closed-tab stack exactly when
   * it is not off the record; when it was the last tab a default tab is
   * reopened, so a tab is always open afterwards.
   */
  function Close(s: TabStrip, index: nat, incognito: bool): (r: TabStrip)
    requires s.Valid() && index < |s.tabs|
    ensures r.Valid()
    ensures !s.tabs[index].offTheRecord ==> r.closed == s.closed + [ClosedTab(s.tabs[index].url, s.tabs[index].title)]
    ensures s.tabs[index].offTheRecord ==> r.closed == s.closed
    ensures 1 < |s.tabs| ==> r.tabs == RemoveAt(s.tabs, index)
    ensures 1 < |s.tabs| ==> r.current == SelectAfterRemove(s.current, index, |s.tabs|)
    ensures 1 < |s.tabs| && index != s.current ==> r.tabs[r.current] == s.tabs[s.current]
    ensures 1 < |s.tabs| && index == s.current ==>
              r.tabs[r.current] == s.tabs[if index + 1 < |s.tabs| then index + 1 else index - 1]
    ensures |s.tabs| == 1 ==> r.tabs == [NewTab(None, incognito)] && r.current == 0
  {
    var t := s.tabs[index];
    var closed := if t.offTheRecord then s.closed else s.closed + [ClosedTab(t.url, t.title)];
    var rest := RemoveAt(s.tabs, index);
    if rest == [] then Open(TabStrip([], 0, closed), None, incognito)
    else TabStrip(rest, SelectAfterRemove(s.current, index, |s.tabs|), closed)
  }

  /**
   * `reopen_last_tab`: with an empty stack nothing changes. Otherwise the
   * last entry is popped and a new selected tab is reopened at its url (as
   * `add_new_tab` does, so a blank url opens the home page and the tab is
   * off the record when the checkbox is checked); the entry's title becomes
   * that tab's window title.
   */
  function Reopen(s: TabStrip, incognito: bool): (r: TabStrip)
    ensures s.closed == [] ==> r == s
    ensures s.closed != [] ==> r.Valid()
    ensures s.closed != [] ==> r.closed == s.closed[..|s.closed| - 1]
    ensures s.closed != [] ==>
              var last := s.closed[|s.closed| - 1];
              && |r.tabs| == |s.tabs| + 1 && r.tabs[..|s.tabs|] == s.tabs
              && r.current == |s.tabs|
              && r.tabs[r.current] == NewTab(Some(last.url), incognito).(windowTitle := last.title)
  {
    if s.closed == [] then s
    else
      var last := s.closed[|s.closed| - 1];
      var reopened := Open(TabStrip(s.tabs, s.current, s.closed[..|s.closed| - 1]), Some(last.url), incognito);
      reopened.(tabs := reopened.tabs[reopened.current := reopened.tabs[reopened.current].(windowTitle := last.title)])
  }

  /** `s` with tab `i` replaced by `t`. */
  function WithTab(s: TabStrip, i: nat, t: Tab): (r: TabStrip)
    requires i < |s.tabs|
    ensures |r.tabs| == |s.tabs| && r.current == s.current && r.closed == s.closed
    ensures r.tabs[i] == t
    ensures forall j :: 0 <= j < |s.tabs| && j != i ==> r.tabs[j] == s.tabs[j]
  {
    TabStrip(s.tabs[i := t], s.current, s.closed)
  }

  /**
   * `on_incognito_state_changed`: the selected tab, and only it, switches
   * to an off-the-record profile when the box is checked and back to the
   * default one when it is unchecked; the page it shows is kept.
   */
  function SetPrivate(s: TabStrip, checked: bool): (r: TabStrip)
    requires s.Valid()
    ensures r.Valid() && r.current == s.current && r.closed == s.closed && |r.tabs| == |s.tabs|
    ensures r.tabs[r.current].offTheRecord == checked
    ensures r.tabs[r.current].(offTheRecord := s.tabs[s.current].offTheRecord) == s.tabs[s.current]
    ensures forall j :: 0 <= j < |s.tabs| && j != s.current ==> r.tabs[j] == s.tabs[j]
  {
    WithTab(s, s.current, s.tabs[s.current].(offTheRecord := checked))
  }

  /** The engine loads `url` in tab `i`: only that tab's url changes. */
  function Load(s: TabStrip, i: nat, url: string): (r: TabStrip)
    requires s.Valid() && i < |s.tabs|
    ensures r.Valid() && r.current == s.current && r.closed == s.closed && |r.tabs| == |s.tabs|
    ensures r.tabs[i].url == url && r.tabs[i].(url := s.tabs[i].url) == s.tabs[i]
    ensures forall j :: 0 <= j < |s.tabs| && j != i ==> r.tabs[j] == s.tabs[j]
  {
    WithTab(s, i, s.tabs[i].(url := url))
  }

  /** The engine reports a new page title for tab `i`: only that tab's title changes. */
  function Retitle(s: TabStrip, i: nat, title: string): (r: TabStrip)
    requires s.Valid() && i < |s.tabs|
    ensures r.Valid() && r.current == s.current && r.closed == s.closed && |r.tabs| == |s.tabs|
    ensures r.tabs[i].title == title && r.tabs[i].(title := s.tabs[i].title) == s.tabs[i]
    ensures forall j :: 0 <= j < |s.tabs| && j != i ==> r.tabs[j] == s.tabs[j]
  {
    WithTab(s, i, s.tabs[i].(title := title))
  }

  /**
   * `update_tab_title(title)`: the SELECTED tab's text becomes the
   * truncated title, whichever tab the title came from.
   */
  function Relabel(s: TabStrip, title: string): (r: TabStrip)
    requires s.Valid()
    ensures r.Valid() && r.current == s.current && r.closed == s.closed && |r.tabs| == |s.tabs|
    ensures r.tabs[r.current].text == Text.TabLabel(title)
    ensures r.tabs[r.current].(text := s.tabs[s.current].text) == s.tabs[s.current]
    ensures forall j :: 0 <= j < |s.tabs| && j != s.current ==> r.tabs[j] == s.tabs[j]
  {
    WithTab(s, s.current, s.tabs[s.current].(text := Text.TabLabel(title)))
  }

  /**
   * Closing a tab that is not off the record and then reopening restores
   * the stack as it was and opens a selected tab at the closed tab's url
   * (the home page when that url was blank), with its title as window title.
   */
  lemma CloseThenReopen(s: TabStrip, index: nat, incognito: bool, laterIncognito: bool)
    requires s.Valid() && index < |s.tabs| && !s.tabs[index].offTheRecord
    ensures var r := Reopen(Close(s, index, incognito), laterIncognito);
            && r.closed == s.closed
            && r.tabs[r.current].url == (if s.tabs[index].url == "" then HomePage else s.tabs[index].url)
            && r.tabs[r.current].windowTitle == s.tabs[index].title
            && r.tabs[r.current].offTheRecord == laterIncognito
  {
  }

  /**
   * A tab that is off the record cannot be brought back: closing it leaves
   * the stack as it was, so a reopen right after it reopens exactly what it
   * would have reopened before the close.
   */
  lemma PrivateTabNotRecoverable(s: TabStrip, index: nat, incognito: bool, laterIncognito: bool)
    requires s.Valid() && index < |s.tabs| && s.tabs[index].offTheRecord
    ensures Reopen(Close(s, index, incognito), laterIncognito).closed == Reopen(s, laterIncognito).closed
    ensures s.closed != [] ==>
              var r := Reopen(Close(s, index, incognito), laterIncognito);
              r.tabs[r.current] == Reopen(s, laterIncognito).tabs[Reopen(s, laterIncognito).current]
  {
  }

  /**
   * A title reported by a tab that is not selected relabels the selected
   * tab; the reporting tab keeps its old text.
   */
  lemma TitleLabelsSelectedTab(s: TabStrip, i: nat, title: string)
    requires s.Valid() && i < |s.tabs| && i != s.current
    ensures var r := Relabel(Retitle(s, i, title), title);
            && r.tabs[i].text == s.tabs[i].text
            && r.tabs[s.current].text == Text.TabLabel(title)
  {
  }
}
