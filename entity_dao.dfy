/**
 * `EntityDAOImpl` over the `entity` table, held in memory as a sequence of
 * rows in insertion order.
 *
 * The table is declared as `id INT PRIMARY KEY AUTO_INCREMENT, name
 * VARCHAR(50), description VARCHAR(255)`: ids come from a counter that
 * starts at 1 and is never reused, and a statement that would store a
 * longer name or description fails inside the database. The DAO catches
 * every `SQLException` and only prints it, so such a statement changes
 * nothing and the caller is not told.
 */
module EntityDao {
  import opened Wrappers
  import opened EntityModel
  import opened Paging
  import Validation

  /** One row of the `entity` table. */
  datatype Row = Row(id: int, name: Option<string>, description: Option<string>)

  const NAME_COLUMN_WIDTH: nat := 50
  const DESCRIPTION_COLUMN_WIDTH: nat := 255

  /** Whether the values fit `VARCHAR(50)` and `VARCHAR(255)`; both columns take null. */
  predicate FitsColumns(name: Option<string>, description: Option<string>) {
    (name.None? || |name.value| <= NAME_COLUMN_WIDTH)
    && (description.None? || |description.value| <= DESCRIPTION_COLUMN_WIDTH)
  }

  /** The primary key: no two rows share an id. */
  ghost predicate IdsUnique(rows: seq<Row>) {
    forall i, j :: 0 <= i < j < |rows| ==> rows[i].id != rows[j].id
  }

  predicate HasId(rows: seq<Row>, id: int) {
    exists k :: 0 <= k < |rows| && rows[k].id == id
  }

  /** `SELECT * FROM entity WHERE id = ?`, first row of the result or null. */
  function Lookup(rows: seq<Row>, id: int): (r: Option<Row>)
    ensures r.None? <==> !HasId(rows, id)
    ensures r.Some? ==> r.value in rows && r.value.id == id
    ensures r.Some? && IdsUnique(rows) ==> forall k :: 0 <= k < |rows| && rows[k].id == id ==> rows[k] == r.value
  {
    if rows == [] then None
    else if rows[0].id == id then Some(rows[0])
    else Lookup(rows[1..], id)
  }

  /** `UPDATE entity SET name = ?, description = ? WHERE id = ?` on rows that fit. */
  function Updated(rows: seq<Row>, id: int, name: Option<string>, description: Option<string>): (r: seq<Row>)
    ensures |r| == |rows|
    ensures forall k :: 0 <= k < |rows| ==> r[k] == if rows[k].id == id then Row(id, name, description) else rows[k]
  {
    if rows == [] then []
    else [if rows[0].id == id then Row(id, name, description) else rows[0]]
         + Updated(rows[1..], id, name, description)
  }

  /** `DELETE FROM entity WHERE id = ?`. */
  function Deleted(rows: seq<Row>, id: int): (r: seq<Row>)
    ensures |r| <= |rows|
    ensures forall x :: x in r ==> x in rows && x.id != id
    ensures forall x :: x in rows && x.id != id ==> x in r
  {
    if rows == [] then []
    else if rows[0].id == id then Deleted(rows[1..], id)
    else [rows[0]] + Deleted(rows[1..], id)
  }

  /** `f` occurs in `s` starting at index `k`. */
  predicate OccursAt(s: string, f: string, k: nat) {
    k + |f| <= |s| && s[k..k + |f|] == f
  }

  /** Whether `f` occurs in `s` as a contiguous substring: what `LIKE '%f%'` tests. */
  function Contains(s: string, f: string): (r: bool)
    ensures r <==> exists k: nat :: OccursAt(s, f, k)
  {
    if f <= s then
      assert OccursAt(s, f, 0);
      true
    else if s == [] then
      false
    else
      var r := Contains(s[1..], f);
      OccursAtShift(s, f);
      assert r ==> exists k: nat :: OccursAt(s, f, k) by {
        if r {
          var k: nat :| OccursAt(s[1..], f, k);
          assert OccursAt(s, f, k + 1);
        }
      }
      r
  }

  /** Past the first index, an occurrence in `s` is an occurrence in `s[1..]`. */
  lemma OccursAtShift(s: string, f: string)
    requires s != [] && !(f <= s)
    ensures forall k: nat :: OccursAt(s, f, k) <==> k >= 1 && OccursAt(s[1..], f, k - 1)
  {
    forall k: nat | k >= 1
      ensures OccursAt(s, f, k) <==> OccursAt(s[1..], f, k - 1)
    {
      if k + |f| <= |s| {
        assert s[k..k + |f|] == s[1..][k - 1..k - 1 + |f|];
      }
    }
    assert !OccursAt(s, f, 0);
  }

  /**
   * The WHERE clause of `getAll`: a null or empty filter adds none; otherwise
   * `name LIKE '%filter%'`, which a null name never satisfies.
   */
  predicate Selected(row: Row, filter: Option<string>) {
    filter.None? || filter.value == [] || (row.name.Some? && Contains(row.name.value, filter.value))
  }

  /** The rows the WHERE clause keeps, in scan order. */
  function Filtered(rows: seq<Row>, filter: Option<string>): (r: seq<Row>)
    ensures |r| <= |rows|
  {
    if rows == [] then []
    else
      var last := rows[|rows| - 1];
      Filtered(rows[..|rows| - 1], filter) + (if Selected(last, filter) then [last] else [])
  }

  /** The filtered rows are exactly the selected rows of the table. */
  lemma {:induction false} FilteredMembers(rows: seq<Row>, filter: Option<string>)
    ensures forall x :: x in Filtered(rows, filter) <==> x in rows && Selected(x, filter)
  {
    if rows != [] {
      var init := rows[..|rows| - 1];
      FilteredMembers(init, filter);
      assert rows == init + [rows[|rows| - 1]];
    }
  }

  /** The result of `getAll(page, pageSize, filter)`: OFFSET (page - 1) * pageSize, LIMIT pageSize. */
  function GetAllResult(rows: seq<Row>, page: nat, pageSize: nat, filter: Option<string>): seq<Row>
    requires page >= 1
  {
    PageOf(Filtered(rows, filter), page, pageSize)
  }

  /** The `entity` table: its rows in insertion order and its identity counter. */
  class Table {
    var rows: seq<Row>
    var nextId: int

    ghost predicate Valid()
      reads this
    {
      && nextId >= 1
      && IdsUnique(rows)
      && forall k :: 0 <= k < |rows| ==> 1 <= rows[k].id < nextId
    }

    /** `CREATE TABLE`: empty, and the first generated key is 1. */
    constructor ()
      ensures Valid() && rows == [] && nextId == 1
    {
      rows := [];
      nextId := 1;
    }
  }

  class EntityDAOImpl {
    const table: Table

    constructor (table: Table)
      ensures this.table == table
    {
      this.table := table;
    }

    /**
     * `add`: inserts one row with the entity's name and description and writes
     * the generated key back with `setId`. If a value is too long for its
     * column the insert fails and nothing changes.
     */
    method Add(entity: Entity)
      requires table.Valid()
      modifies table, entity`id
      ensures table.Valid()
      ensures FitsColumns(entity.name, entity.description) ==>
        && entity.id == old(table.nextId)
        && table.nextId == old(table.nextId) + 1
        && table.rows == old(table.rows) + [Row(entity.id, entity.name, entity.description)]
      ensures FitsColumns(entity.name, entity.description) ==>
        entity.id != 0 && !HasId(old(table.rows), entity.id)
      ensures !FitsColumns(entity.name, entity.description) ==>
        table.rows == old(table.rows) && table.nextId == old(table.nextId) && entity.id == old(entity.id)
    {
      if FitsColumns(entity.name, entity.description) {
        var key := table.nextId;
        table.rows := table.rows + [Row(key, entity.name, entity.description)];
        table.nextId := key + 1;
        entity.SetId(key);
      }
    }

    /** `update`: rewrites name and description of the row with the entity's id, if any. */
    method Update(entity: Entity)
      requires table.Valid()
      modifies table`rows
      ensures table.Valid()
      ensures table.rows == if FitsColumns(entity.name, entity.description)
                            then Updated(old(table.rows), entity.id, entity.name, entity.description)
                            else old(table.rows)
    {
      if FitsColumns(entity.name, entity.description) {
        table.rows := Updated(table.rows, entity.id, entity.name, entity.description);
      }
    }

    /** `delete`: removes the row with this id, if any. */
    method Delete(id: int)
      requires table.Valid()
      modifies table`rows
      ensures table.Valid()
      ensures table.rows == Deleted(old(table.rows), id)
    {
      DeletedKeepsIdsUnique(table.rows, id);
      table.rows := Deleted(table.rows, id);
    }

    /** `get`: the row with this id, or null. */
    method Get(id: int) returns (r: Option<Row>)
      ensures r == Lookup(table.rows, id)
      ensures r.Some? ==> r.value in table.rows && r.value.id == id
      ensures r.None? <==> !HasId(table.rows, id)
    {
      r := Lookup(table.rows, id);
    }

    /**
     * `getAll`: the query scans the table, keeps the rows the filter selects,
     * skips the first (page - 1) * pageSize of them and returns the next
     * pageSize, appended one at a time as the result set is read.
     */
    method GetAll(page: int, pageSize: int, filter: Option<string>) returns (entities: seq<Row>)
      requires page >= 1 && pageSize > 0
      ensures entities == GetAllResult(table.rows, page, pageSize, filter)
      ensures |entities| <= pageSize
      ensures forall x :: x in entities ==> x in table.rows && Selected(x, filter)
    {
      var rows := table.rows;
      var offset := (page - 1) * pageSize;
      var hasFilter := filter.Some? && filter.value != [];
      entities := [];
      var matched := 0;
      var i := 0;
      while i < |rows|
        invariant 0 <= i <= |rows|
        invariant matched == |Filtered(rows[..i], filter)|
        invariant entities == Slice(Filtered(rows[..i], filter), offset, pageSize)
      {
        var selected := !hasFilter || (rows[i].name.Some? && Contains(rows[i].name.value, filter.value));
        assert selected == Selected(rows[i], filter);
        ghost var scanned := Filtered(rows[..i], filter);
        FilteredSnoc(rows, i, filter);
        if selected {
          SliceSnoc(scanned, rows[i], offset, pageSize);
          if offset <= matched < offset + pageSize {
            entities := entities + [rows[i]];
          }
          matched := matched + 1;
          assert Filtered(rows[..i + 1], filter) == scanned + [rows[i]];
        } else {
          assert Filtered(rows[..i + 1], filter) == scanned;
        }
        i := i + 1;
      }
      assert rows[..i] == rows;
      PageBounds(Filtered(rows, filter), page, pageSize);
      FilteredMembers(rows, filter);
    }
  }

  /** Scanning one more row extends the filtered rows by that row exactly when it is selected. */
  lemma FilteredSnoc(rows: seq<Row>, i: nat, filter: Option<string>)
    requires i < |rows|
    ensures Filtered(rows[..i + 1], filter)
         == Filtered(rows[..i], filter) + (if Selected(rows[i], filter) then [rows[i]] else [])
  {
    assert rows[..i + 1][..i] == rows[..i];
  }

  /** Deleting keeps the primary key intact. */
  lemma {:induction false} DeletedKeepsIdsUnique(rows: seq<Row>, id: int)
    requires IdsUnique(rows)
    ensures IdsUnique(Deleted(rows, id))
  {
    if rows != [] {
      DeletedKeepsIdsUnique(rows[1..], id);
      var rest := Deleted(rows[1..], id);
      if rows[0].id != id {
        var r := [rows[0]] + rest;
        forall i, j | 0 <= i < j < |r| ensures r[i].id != r[j].id {
          if i == 0 {
            assert r[j] in rows[1..];
          } else {
            assert r[i] == rest[i - 1] && r[j] == rest[j - 1];
          }
        }
      }
    }
  }

  /** Looking up in a table with one more row at the end. */
  lemma {:induction false} LookupAppend(rows: seq<Row>, x: Row, id: int)
    ensures Lookup(rows + [x], id)
         == if HasId(rows, id) then Lookup(rows, id) else if x.id == id then Some(x) else None
  {
    if rows != [] {
      assert (rows + [x])[1..] == rows[1..] + [x];
      LookupAppend(rows[1..], x, id);
      assert HasId(rows, id) <==> rows[0].id == id || HasId(rows[1..], id);
    } else {
      assert [] + [x] == [x];
    }
  }

  /** add then get: the new key finds the inserted name and description, and every old key finds what it found before. */
  lemma AddThenGet(rows: seq<Row>, key: int, name: Option<string>, description: Option<string>, id: int)
    requires forall k :: 0 <= k < |rows| ==> rows[k].id < key
    ensures Lookup(rows + [Row(key, name, description)], key) == Some(Row(key, name, description))
    ensures id != key ==> Lookup(rows + [Row(key, name, description)], id) == Lookup(rows, id)
  {
    LookupAppend(rows, Row(key, name, description), key);
    LookupAppend(rows, Row(key, name, description), id);
  }

  /** update then get: a known id finds the new values, an unknown id stays unknown. */
  lemma UpdateThenGet(rows: seq<Row>, id: int, name: Option<string>, description: Option<string>)
    ensures Lookup(Updated(rows, id, name, description), id)
         == if HasId(rows, id) then Some(Row(id, name, description)) else None
  {
    var r := Updated(rows, id, name, description);
    if HasId(rows, id) {
      var k :| 0 <= k < |rows| && rows[k].id == id;
      assert r[k].id == id;
    }
  }

  /** update of the row just added rewrites that row only. */
  lemma UpdateAddedRow(rows: seq<Row>, x: Row, name: Option<string>, description: Option<string>)
    requires !HasId(rows, x.id)
    ensures Updated(rows + [x], x.id, name, description) == rows + [Row(x.id, name, description)]
  {
    var u := Updated(rows + [x], x.id, name, description);
    assert forall k :: 0 <= k < |rows| ==> u[k] == rows[k];
  }

  /** update touches no other id. */
  lemma {:induction false} UpdateKeepsOthers(rows: seq<Row>, id: int, name: Option<string>, description: Option<string>, other: int)
    requires other != id
    ensures Lookup(Updated(rows, id, name, description), other) == Lookup(rows, other)
  {
    if rows != [] {
      UpdateKeepsOthers(rows[1..], id, name, description, other);
    }
  }

  /** update of an id no row has changes nothing; the row count never changes. */
  lemma UpdateUnknownIsNoop(rows: seq<Row>, id: int, name: Option<string>, description: Option<string>)
    requires !HasId(rows, id)
    ensures Updated(rows, id, name, description) == rows
  {
  }

  /** delete then get finds nothing, and every other id finds what it found before. */
  lemma {:induction false} DeleteThenGet(rows: seq<Row>, id: int, other: int)
    ensures Lookup(Deleted(rows, id), id) == None
    ensures other != id ==> Lookup(Deleted(rows, id), other) == Lookup(rows, other)
  {
    if rows != [] {
      DeleteThenGet(rows[1..], id, other);
    }
  }

  /** delete removes exactly one row when the id is present, none otherwise. */
  lemma {:induction false} DeleteCount(rows: seq<Row>, id: int)
    requires IdsUnique(rows)
    ensures |Deleted(rows, id)| == if HasId(rows, id) then |rows| - 1 else |rows|
    ensures !HasId(rows, id) ==> Deleted(rows, id) == rows
  {
    if rows != [] {
      DeleteCount(rows[1..], id);
      assert HasId(rows, id) <==> rows[0].id == id || HasId(rows[1..], id);
      if rows[0].id == id {
        assert !HasId(rows[1..], id);
      }
    }
  }

  /** Deleting from a table with one more row at the end. */
  lemma {:induction false} DeletedAppend(rows: seq<Row>, x: Row, id: int)
    ensures Deleted(rows + [x], id) == Deleted(rows, id) + (if x.id == id then [] else [x])
  {
    if rows == [] {
      assert [] + [x] == [x];
    } else {
      assert (rows + [x])[1..] == rows[1..] + [x];
      DeletedAppend(rows[1..], x, id);
    }
  }

  /** add then delete of the new key gives back the table as it was. */
  lemma AddThenDeleteRestores(rows: seq<Row>, key: int, name: Option<string>, description: Option<string>)
    requires IdsUnique(rows)
    requires forall k :: 0 <= k < |rows| ==> rows[k].id < key
    ensures Deleted(rows + [Row(key, name, description)], key) == rows
  {
    DeletedAppend(rows, Row(key, name, description), key);
    DeleteCount(rows, key);
  }

  /** A null or an empty filter applies no condition: every row is kept, in order. */
  lemma {:induction false} NoFilterKeepsAll(rows: seq<Row>)
    ensures Filtered(rows, None) == rows
    ensures Filtered(rows, Some("")) == rows
  {
    if rows != [] {
      NoFilterKeepsAll(rows[..|rows| - 1]);
      assert rows == rows[..|rows| - 1] + [rows[|rows| - 1]];
    }
  }

  /** Reading page after page of `getAll` until the last one yields exactly the selected rows, in scan order. */
  lemma GetAllPagesCoverFiltered(rows: seq<Row>, pageSize: nat, filter: Option<string>)
    requires pageSize > 0
    ensures var all := Filtered(rows, filter);
      Pages(all, pageSize, CeilDiv(|all|, pageSize)) == all
  {
    PagesCoverAll(Filtered(rows, filter), pageSize);
  }

  /** Two rows and `getAll(1, 10, null)`: both come back. */
  lemma GetAllTwoRows(first: Row, second: Row)
    ensures GetAllResult([first, second], 1, 10, None) == [first, second]
  {
    NoFilterKeepsAll([first, second]);
  }

  /**
   * A name that `setName` accepts need not fit `VARCHAR(50)`: blanks around it
   * count towards the column but not towards the check, so `add` of such an
   * entity silently stores nothing. For a valid entity the raw name length is
   * the only thing that decides.
   */
  lemma AcceptedNameCanOverflowColumn()
    ensures exists name :: Validation.IsValidName(Some(name)) && !FitsColumns(Some(name), None)
    ensures forall name, description ::
      Validation.IsValidName(Some(name)) && Validation.IsValidDescription(description) ==>
        (FitsColumns(Some(name), description) <==> |name| <= NAME_COLUMN_WIDTH)
  {
    Validation.ShortNameBoundary();
    Validation.PaddedNameStaysValid("abc", 48);
    var padded := "abc" + seq(48, _ => ' ');
    assert !FitsColumns(Some(padded), None);
  }
}
