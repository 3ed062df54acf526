/**
 * The `agencies` table of server_with_sql.js as an in-memory sequence of
 * rows: `saveToDatabase` looks the record up by its unique key
 * (name, contact) and inserts it with the next AUTOINCREMENT id only when
 * the key is absent; the `/` route reads one page of 100 rows at an offset.
 */
module AgencyStore {
  import opened Details
  import opened Numbers

  /** A row of `agencies` (server_with_sql.js:17-24). */
  datatype Row = Row(id: nat, name: string, representative: string, address: string, contact: string)

  /** The key of the table's UNIQUE(name, contact) constraint. */
  predicate SameKey(r: Row, d: Details)
  {
    r.name == d.name && r.contact == d.contact
  }

  /** `SELECT id FROM agencies WHERE name = ? AND contact = ?` returns a row. */
  predicate HasKey(rows: seq<Row>, d: Details)
  {
    exists k :: 0 <= k < |rows| && SameKey(rows[k], d)
  }

  /** No two rows share (name, contact). */
  predicate UniqueKeys(rows: seq<Row>)
  {
    forall a, b :: 0 <= a < b < |rows| ==> !(rows[a].name == rows[b].name && rows[a].contact == rows[b].contact)
  }

  /** Ids start at 1, increase in insertion order, and stay below the next id to hand out. */
  predicate IdsBelow(rows: seq<Row>, nextId: nat)
  {
    && 1 <= nextId
    && (forall a, b :: 0 <= a < b < |rows| ==> rows[a].id < rows[b].id)
    && (forall k :: 0 <= k < |rows| ==> 1 <= rows[k].id < nextId)
  }

  predicate TableValid(rows: seq<Row>, nextId: nat)
  {
    UniqueKeys(rows) && IdsBelow(rows, nextId)
  }

  /** The row that `INSERT INTO agencies (name, representative, address, contact)` adds. */
  function RowOf(id: nat, d: Details): Row
  {
    Row(id, d.name, d.representative, d.address, d.contact)
  }

  /**
   * `saveToDatabase` (server_with_sql.js:81-99) on the rows and the next
   * AUTOINCREMENT id: a record whose key is present is skipped, any other is
   * appended with the next id.
   */
  function Insert(rows: seq<Row>, nextId: nat, d: Details): (seq<Row>, nat)
  {
    if HasKey(rows, d) then (rows, nextId) else (rows + [RowOf(nextId, d)], nextId + 1)
  }

  /** A record whose key is already stored leaves the table as it was. */
  lemma InsertDuplicate(rows: seq<Row>, nextId: nat, d: Details)
    requires HasKey(rows, d)
    ensures Insert(rows, nextId, d) == (rows, nextId)
  {
  }

  /**
   * A record with a new key adds exactly one row, holding its four fields and
   * an id larger than every existing one; the existing rows are untouched.
   */
  lemma InsertNew(rows: seq<Row>, nextId: nat, d: Details)
    requires TableValid(rows, nextId) && !HasKey(rows, d)
    ensures var (rows', _) := Insert(rows, nextId, d);
      && |rows'| == |rows| + 1
      && rows'[..|rows|] == rows
      && rows'[|rows|] == RowOf(nextId, d)
      && forall k :: 0 <= k < |rows| ==> rows[k].id < rows'[|rows|].id
  {
    var (rows', _) := Insert(rows, nextId, d);
    assert rows'[..|rows|] == rows;
  }

  /** Saving keeps the keys unique and the ids ordered. */
  lemma InsertKeepsValid(rows: seq<Row>, nextId: nat, d: Details)
    requires TableValid(rows, nextId)
    ensures TableValid(Insert(rows, nextId, d).0, Insert(rows, nextId, d).1)
  {
    if !HasKey(rows, d) {
      var rows' := rows + [RowOf(nextId, d)];
      forall a, b | 0 <= a < b < |rows'|
        ensures !(rows'[a].name == rows'[b].name && rows'[a].contact == rows'[b].contact)
      {
        if b == |rows| {
          assert !SameKey(rows[a], d);
        }
      }
    }
  }

  /** After saving, the record's key is in the table. */
  lemma InsertStoresKey(rows: seq<Row>, nextId: nat, d: Details)
    ensures HasKey(Insert(rows, nextId, d).0, d)
  {
    if !HasKey(rows, d) {
      assert SameKey(Insert(rows, nextId, d).0[|rows|], d);
    }
  }

  /** Saving the same record twice adds at most one row: exactly one when its key was new. */
  lemma InsertTwice(rows: seq<Row>, nextId: nat, d: Details)
    ensures var once := Insert(rows, nextId, d);
      && Insert(once.0, once.1, d) == once
      && |once.0| == |rows| + (if HasKey(rows, d) then 0 else 1)
  {
    InsertStoresKey(rows, nextId, d);
  }

  /** Rows on one page of the `/` route (server_with_sql.js:120). */
  const PageSize: nat := 100

  /**
   * `SELECT * FROM agencies LIMIT 100 OFFSET offset` in insertion order; a
   * negative offset reads from the start, as SQLite does.
   */
  function Page(rows: seq<Row>, offset: int): seq<Row>
  {
    var start := if offset < 0 then 0 else MinNat(offset, |rows|);
    rows[start..MinNat(start + PageSize, |rows|)]
  }

  /** A page is the slice of at most 100 rows starting at the offset. */
  lemma PageIsSlice(rows: seq<Row>, offset: int)
    requires 0 <= offset
    ensures |Page(rows, offset)| <= PageSize
    ensures offset <= |rows| ==> Page(rows, offset) == rows[offset..MinNat(offset + PageSize, |rows|)]
    ensures offset >= |rows| ==> Page(rows, offset) == []
    ensures forall k :: 0 <= k < |Page(rows, offset)| ==> Page(rows, offset)[k] == rows[offset + k]
  {
  }

  /** A negative offset gives the first page. */
  lemma NegativeOffsetIsFirstPage(rows: seq<Row>, offset: int)
    requires offset < 0
    ensures Page(rows, offset) == Page(rows, 0)
  {
  }

  /** The pages at offsets `from`, `from + 100`, ... up to the end of the table. */
  function PagesFrom(rows: seq<Row>, from: nat): seq<Row>
    decreases |rows| - from
  {
    if from >= |rows| then [] else Page(rows, from) + PagesFrom(rows, from + PageSize)
  }

  /** Paging through the table from offset 0 in steps of 100 reads every row once, in order. */
  lemma {:induction false} PagesCoverTable(rows: seq<Row>, from: nat)
    requires from <= |rows|
    ensures PagesFrom(rows, from) == rows[from..]
    decreases |rows| - from
  {
    if from < |rows| {
      var next := MinNat(from + PageSize, |rows|);
      PagesCoverTable(rows, next);
      if from + PageSize < |rows| {
        assert rows[from..] == rows[from..next] + rows[next..];
      } else {
        assert PagesFrom(rows, from + PageSize) == [];
      }
    }
  }

  /** The `agencies` table with the AUTOINCREMENT counter. */
  class Store {
    var rows: seq<Row>
    var nextId: nat

    predicate Valid()
      reads this
    {
      TableValid(rows, nextId)
    }

    /** `CREATE TABLE IF NOT EXISTS agencies` on a new database. */
    constructor ()
      ensures rows == [] && nextId == 1 && Valid()
    {
      rows := [];
      nextId := 1;
    }

    /** `saveToDatabase` (server_with_sql.js:81-99): check, then insert when the key is absent. */
    method SaveToDatabase(d: Details)
      modifies this
      ensures (rows, nextId) == Insert(old(rows), old(nextId), d)
      ensures old(Valid()) ==> Valid()
    {
      if !HasKey(rows, d) {
        rows := rows + [RowOf(nextId, d)];
        nextId := nextId + 1;
      }
      if old(Valid()) {
        InsertKeepsValid(old(rows), old(nextId), d);
      }
    }
  }
}
