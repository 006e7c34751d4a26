/** Which rows a worker of the hash database touches: those of the one table named by its prefix. */
module WorkerTables {
  import opened Strconv
  import opened Types
  import opened OffsetText
  import opened HistoryFile
  import opened HexPrefixes
  import opened Sharding
  import Dispatch
  import IndexedHistory

  /** Table and row of a hash: its first three characters and the seven behind them. */
  function RowOf(hash: string): (string, string)
    requires |hash| >= 10
  {
    ("s" + hash[..3], hash[3..10])
  }

  /** A request is served from the row of its hash, and a lowercase hex hash is sent to the worker whose
      prefix names the table of that row. */
  lemma OwnRow(hash: string)
    requires |hash| >= 10
    ensures Slot(IndexedHistory.Key(hash)) == RowOf(hash)
    ensures IsHash(hash) ==> Dispatch.OwnsPrefix(Dispatch.Route(hash), hash)
  {
    hide Dispatch.Route, Dispatch.OwnsPrefix, IsHex;
    var key := IndexedHistory.Key(hash);
    assert key[..3] == hash[..3] && key[3..] == hash[3..10];
    if IsHash(hash) {
      Dispatch.RouteOwnsPrefix(hash);
    }
  }

  /** An insert appends the decimal offset and a comma to the row of the hash and changes no other row. */
  lemma InsertTouchesOwnRow(rows: Rows, hash: string, offset: int, row: (string, string))
    requires |hash| >= 10
    ensures var rows' := Inserted(rows, IndexedHistory.Key(hash), offset);
      if row == RowOf(hash) then
        row in rows' && rows'[row] == (if row in rows then rows[row] else "") + (FormatInt(offset, Dec) + ",")
      else (row in rows' <==> row in rows) && (row in rows ==> rows'[row] == rows[row])
  {
    hide FormatInt;
    OwnRow(hash);
  }

  /** A search reads the row of the hash and no other. */
  lemma SearchReadsOwnRow(rows: Rows, rows': Rows, hash: string)
    requires |hash| >= 10
    requires RowOf(hash) in rows <==> RowOf(hash) in rows'
    requires RowOf(hash) in rows ==> rows[RowOf(hash)] == rows'[RowOf(hash)]
    ensures OffsetsOf(rows, IndexedHistory.Key(hash)) == OffsetsOf(rows', IndexedHistory.Key(hash))
  {
    hide Positives, Split;
    OwnRow(hash);
  }

  /** The table with the worker's number among those created for a single database. */
  ghost predicate TableOfWorker(tables: seq<string>, w: nat, table: string) {
    w < |tables| && tables[w] == table
  }

  /** Every worker has a table of its own, created under its number, and two hashes share a table exactly
      when they are sent to the same worker. */
  lemma WorkersApart(a: string, b: string)
    requires IsHash(a) && IsHash(b)
    ensures TableOfWorker(CreatedTables(SHARD_SINGLE_DB), Dispatch.Route(a), RowOf(a).0)
    ensures Dispatch.Route(a) == Dispatch.Route(b) <==> RowOf(a).0 == RowOf(b).0
    ensures Dispatch.Route(a) != Dispatch.Route(b) ==> RowOf(a) != RowOf(b)
  {
    hide CreatedTables, Dispatch.Route, IsHex;
    WorkerTable(a);
    WorkerTable(b);
    if Dispatch.Route(a) < Dispatch.Route(b) {
      TablesDistinct(SHARD_SINGLE_DB, Dispatch.Route(a), Dispatch.Route(b));
    } else if Dispatch.Route(b) < Dispatch.Route(a) {
      TablesDistinct(SHARD_SINGLE_DB, Dispatch.Route(b), Dispatch.Route(a));
    }
  }

  lemma WorkerTable(hash: string)
    requires IsHash(hash)
    ensures TableOfWorker(CreatedTables(SHARD_SINGLE_DB), Dispatch.Route(hash), RowOf(hash).0)
  {
    hide CharIndex, CreatedTables, GetTableNameFromHash, GetDBIndexFromHash;
    assert Dispatch.ToLower(hash[..3]) == hash[..3];
    AddressIsQuotient(SHARD_SINGLE_DB, hash);
    SingleTable(hash);
  }

  lemma SingleTable(hash: string)
    requires |hash| >= 10
    ensures GetTableNameFromHash(SHARD_SINGLE_DB, hash) == RowOf(hash).0
    ensures forall v: nat :: v < NUM_CACHE_DBS ==> TableOf(SHARD_SINGLE_DB, v) == v
  {
    hide HexToInt;
  }
}
