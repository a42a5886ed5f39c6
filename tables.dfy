/** The table algebra under internal/transport/storage/storage.go: rows owned
    by a user, serial ids, selection by id and owner, and the id-and-title
    listing the list queries return. */
module Tables {
  import opened Wrappers

  /** A row: the owning user's id and the record it stores. */
  datatype Row<T> = Row(owner: nat, record: T)

  /** Ids are the table's serial: the row at index i has id i + 1. */
  ghost predicate Serial<T>(rows: seq<Row<T>>, idOf: T -> int) {
    forall i :: 0 <= i < |rows| ==> idOf(rows[i].record) == i + 1
  }

  /** `SELECT … WHERE id = $1 AND owner = $2`: the first row with both. */
  function Select<T>(rows: seq<Row<T>>, idOf: T -> int, owner: nat, id: int): (r: Option<T>)
    ensures r.Some? ==> exists i :: 0 <= i < |rows| && rows[i].owner == owner && idOf(rows[i].record) == id && rows[i].record == r.value
    ensures r.None? ==> forall i :: 0 <= i < |rows| ==> rows[i].owner != owner || idOf(rows[i].record) != id
  {
    if rows == [] then None
    else if rows[0].owner == owner && idOf(rows[0].record) == id then Some(rows[0].record)
    else
      var r := Select(rows[1..], idOf, owner, id);
      assert forall i :: 1 <= i < |rows| ==> rows[i] == rows[1..][i - 1];
      r
  }

  /** On a serial table a selection finds the row at index id - 1, and only
      when that row belongs to the owner asked about. */
  lemma SelectSerial<T>(rows: seq<Row<T>>, idOf: T -> int, owner: nat, id: int)
    requires Serial(rows, idOf)
    ensures Select(rows, idOf, owner, id) ==
              if 1 <= id <= |rows| && rows[id - 1].owner == owner then Some(rows[id - 1].record) else None
  {
    var r := Select(rows, idOf, owner, id);
    if r.Some? {
      var i :| 0 <= i < |rows| && rows[i].owner == owner && idOf(rows[i].record) == id && rows[i].record == r.value;
      assert i == id - 1;
    } else if 1 <= id <= |rows| {
      assert idOf(rows[id - 1].record) == id;
    }
  }

  /** Inserting a row keeps the table serial when it gets the next id. */
  lemma AppendSerial<T>(rows: seq<Row<T>>, idOf: T -> int, row: Row<T>)
    requires Serial(rows, idOf) && idOf(row.record) == |rows| + 1
    ensures Serial(rows + [row], idOf)
  {
  }

  /** A record inserted under a fresh id is what a selection of that id by
      its owner returns, and a selection of it by anyone else finds nothing. */
  lemma SelectInserted<T>(rows: seq<Row<T>>, idOf: T -> int, row: Row<T>, owner: nat)
    requires Serial(rows, idOf) && idOf(row.record) == |rows| + 1
    ensures Select(rows + [row], idOf, owner, |rows| + 1) == if owner == row.owner then Some(row.record) else None
  {
    AppendSerial(rows, idOf, row);
    SelectSerial(rows + [row], idOf, owner, |rows| + 1);
  }

  /** An insertion does not change what any older id selects. */
  lemma SelectOlder<T>(rows: seq<Row<T>>, idOf: T -> int, row: Row<T>, owner: nat, id: int)
    requires Serial(rows, idOf) && idOf(row.record) == |rows| + 1 && id != |rows| + 1
    ensures Select(rows + [row], idOf, owner, id) == Select(rows, idOf, owner, id)
  {
    AppendSerial(rows, idOf, row);
    SelectSerial(rows + [row], idOf, owner, id);
    SelectSerial(rows, idOf, owner, id);
  }

  /** The list query with its `rows.Next()` loop: `brief` of every row the
      owner has, in table order. */
  function Listing<T>(rows: seq<Row<T>>, owner: nat, brief: T -> T): seq<T> {
    if rows == [] then []
    else
      var last := rows[|rows| - 1];
      Listing(rows[..|rows| - 1], owner, brief) + (if last.owner == owner then [brief(last.record)] else [])
  }

  /** A listing holds the brief form of each of the owner's rows and nothing
      else; an owner without rows gets the empty list. */
  lemma {:induction false} ListingMembers<T>(rows: seq<Row<T>>, owner: nat, brief: T -> T)
    ensures forall i :: 0 <= i < |rows| && rows[i].owner == owner ==> brief(rows[i].record) in Listing(rows, owner, brief)
    ensures forall x :: x in Listing(rows, owner, brief) ==>
              exists i :: 0 <= i < |rows| && rows[i].owner == owner && x == brief(rows[i].record)
    ensures (forall i :: 0 <= i < |rows| ==> rows[i].owner != owner) ==> Listing(rows, owner, brief) == []
  {
    if rows != [] {
      var init := rows[..|rows| - 1];
      ListingMembers(init, owner, brief);
      assert forall i :: 0 <= i < |init| ==> init[i] == rows[i];
    }
  }

  /** The loop every list query runs over its result rows. */
  method Scan<T>(rows: seq<Row<T>>, owner: nat, brief: T -> T) returns (data: seq<T>)
    ensures data == Listing(rows, owner, brief)
  {
    data := [];
    var i := 0;
    while i < |rows|
      invariant 0 <= i <= |rows|
      invariant data == Listing(rows[..i], owner, brief)
    {
      assert rows[..i + 1][..i] == rows[..i];
      if rows[i].owner == owner {
        data := data + [brief(rows[i].record)];
      }
      i := i + 1;
    }
    assert rows[..|rows|] == rows;
  }
}
