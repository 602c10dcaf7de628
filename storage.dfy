/**
 * The SQLite file `browser_data.db` as the browser uses it: a `bookmarks`
 * table whose `url` column is UNIQUE (so, a map from url to an optional
 * title) and an append-only `history` table (a sequence of visits in
 * insertion order). One `Store` object is the connection that the main
 * window and its dialogs share.
 */
module Storage {
  import opened Optional

  datatype Table = BookmarksTable | HistoryTable

  /** The tables `init_database` creates when they are missing. */
  const Schema: set<Table> := {BookmarksTable, HistoryTable}

  /** The `bookmarks` table: at most one row per url, the title may be NULL. */
  type BookmarkTable = map<string, Option<string>>

  /** `INSERT OR REPLACE INTO bookmarks (title, url)`: the row for `url` now carries `title`. */
  function Upsert(b: BookmarkTable, url: string, title: Option<string>): (r: BookmarkTable)
    ensures r.Keys == b.Keys + {url} && r[url] == title
    ensures forall u :: u in b && u != url ==> r[u] == b[u]
  {
    b[url := title]
  }

  /** `DELETE FROM bookmarks WHERE url = ?`: only the row for `url` goes, if there is one. */
  function Delete(b: BookmarkTable, url: string): (r: BookmarkTable)
    ensures r.Keys == b.Keys - {url}
    ensures forall u :: u in r ==> r[u] == b[u]
  {
    b - {url}
  }

  /**
   * The star button's read-modify-write: a bookmarked url loses its row,
   * any other url gains one titled with the page title. Rows for other urls
   * stay as they were.
   */
  function Toggle(b: BookmarkTable, url: string, title: string): (r: BookmarkTable)
    ensures url in r <==> url !in b
    ensures url in r ==> r[url] == Some(title)
    ensures forall u :: u != url ==> (u in r <==> u in b)
    ensures forall u :: u in r && u != url ==> r[u] == b[u]
  {
    if url in b then Delete(b, url) else Upsert(b, url, Some(title))
  }

  /** Two upserts of one url leave one row, carrying the second title. */
  lemma UpsertLastWriteWins(b: BookmarkTable, url: string, first: Option<string>, second: Option<string>)
    ensures Upsert(Upsert(b, url, first), url, second) == Upsert(b, url, second)
  {
  }

  /** An upsert adds a row only for a url that had none: the table never holds two rows for one url. */
  lemma UpsertRowCount(b: BookmarkTable, url: string, title: Option<string>)
    ensures |Upsert(b, url, title)| == if url in b then |b| else |b| + 1
  {
  }

  /** Deleting a url that has no row changes nothing. */
  lemma DeleteAbsent(b: BookmarkTable, url: string)
    requires url !in b
    ensures Delete(b, url) == b
  {
  }

  /**
   * Toggling twice restores whether the url is bookmarked. A url that was
   * not bookmarked leaves the table exactly as it was; one that was comes
   * back with the page title of the second toggle.
   */
  lemma ToggleTwice(b: BookmarkTable, url: string, first: string, second: string)
    ensures url in Toggle(Toggle(b, url, first), url, second) <==> url in b
    ensures url !in b ==> Toggle(Toggle(b, url, first), url, second) == b
    ensures url in b ==> Toggle(Toggle(b, url, first), url, second) == Upsert(b, url, Some(second))
  {
  }

  /** One row of the `history` table; `visited_at` is not modelled, the position in the sequence gives the order. */
  datatype HistoryEntry = HistoryEntry(title: string, url: string)

  /**
   * `add_to_history`: one row is appended unless the incognito checkbox is
   * checked, in which case nothing is recorded. Earlier rows are kept.
   */
  function Record(h: seq<HistoryEntry>, incognito: bool, title: string, url: string): (r: seq<HistoryEntry>)
    ensures |r| == if incognito then |h| else |h| + 1
    ensures r[..|h|] == h
    ensures !incognito ==> r[|h|] == HistoryEntry(title, url)
  {
    if incognito then h else h + [HistoryEntry(title, url)]
  }

  /** One url change as `add_to_history` sees it: the checkbox state, the title and the url. */
  datatype Visit = Visit(incognito: bool, title: string, url: string)

  /** The history after a run of url changes, oldest first. */
  function RecordAll(h: seq<HistoryEntry>, visits: seq<Visit>): seq<HistoryEntry>
    decreases |visits|
  {
    if visits == [] then h
    else
      var v := visits[|visits| - 1];
      Record(RecordAll(h, visits[..|visits| - 1]), v.incognito, v.title, v.url)
  }

  /** The entries the visits made with the checkbox unchecked, in order. */
  function PublicEntries(visits: seq<Visit>): seq<HistoryEntry>
    decreases |visits|
  {
    if visits == [] then []
    else
      var v := visits[|visits| - 1];
      PublicEntries(visits[..|visits| - 1]) + if v.incognito then [] else [HistoryEntry(v.title, v.url)]
  }

  /**
   * History is append-only: after any run of url changes the old rows are
   * untouched and exactly the visits made with the checkbox unchecked
   * follow them, in the order they happened.
   */
  lemma {:induction false} RecordAllAppends(h: seq<HistoryEntry>, visits: seq<Visit>)
    ensures RecordAll(h, visits) == h + PublicEntries(visits)
    decreases |visits|
  {
    if visits != [] {
      var prefix := visits[..|visits| - 1];
      RecordAllAppends(h, prefix);
      var v := visits[|visits| - 1];
      var tail := if v.incognito then [] else [HistoryEntry(v.title, v.url)];
      assert RecordAll(h, visits) == h + PublicEntries(prefix) + tail;
      assert PublicEntries(visits) == PublicEntries(prefix) + tail;
    }
  }

  /**
   * The connection: which tables exist and what they hold. `bookmarks` and
   * `history` are only read or written once `Ready()` holds, as the browser
   * creates the tables before anything else.
   */
  class Store {
    var tables: set<Table>
    var bookmarks: BookmarkTable
    var history: seq<HistoryEntry>

    predicate Ready()
      reads this
    {
      Schema <= tables
    }

    /** `sqlite3.connect(...)`: opens a file holding these tables and rows (a new file holds none). */
    constructor Connect(existing: set<Table>, bookmarks: BookmarkTable, history: seq<HistoryEntry>)
      requires BookmarksTable !in existing ==> bookmarks == map[]
      requires HistoryTable !in existing ==> history == []
      ensures tables == existing && this.bookmarks == bookmarks && this.history == history
    {
      tables := existing;
      this.bookmarks := bookmarks;
      this.history := history;
    }

    /** `CREATE TABLE IF NOT EXISTS` for both tables: creates what is missing and keeps every existing row. */
    method EnsureSchema()
      modifies this`tables
      ensures Ready() && tables == old(tables) + Schema
    {
      tables := tables + Schema;
    }

    /** `SELECT * FROM bookmarks WHERE url = ?` followed by `fetchone()`: is there a row for `url`. */
    method FindBookmark(url: string) returns (found: bool)
      requires Ready()
      ensures found <==> url in bookmarks
    {
      found := url in bookmarks;
    }

    method UpsertBookmark(url: string, title: Option<string>)
      requires Ready()
      modifies this`bookmarks
      ensures bookmarks == Upsert(old(bookmarks), url, title)
    {
      bookmarks := bookmarks[url := title];
    }

    method DeleteBookmark(url: string)
      requires Ready()
      modifies this`bookmarks
      ensures bookmarks == Delete(old(bookmarks), url)
    {
      bookmarks := bookmarks - {url};
    }

    /** `INSERT INTO history (title, url)`. */
    method InsertHistory(title: string, url: string)
      requires Ready()
      modifies this`history
      ensures history == old(history) + [HistoryEntry(title, url)]
    {
      history := history + [HistoryEntry(title, url)];
    }

    /** `DELETE FROM history`. */
    method DeleteHistory()
      requires Ready()
      modifies this`history
      ensures history == []
    {
      history := [];
    }
  }
}
