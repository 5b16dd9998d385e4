/** The connection collection as an in-memory table: the `count_documents`, `update_many`
    and `delete_many` queries the database layer issues, as functions on a sequence of rows. */
module Tables {
  import opened Wrappers
  import opened Records

  /** No two documents share an `_id`. */
  predicate DistinctIds(rows: seq<Row>) {
    forall i, j :: 0 <= i < j < |rows| ==> rows[i].id != rows[j].id
  }

  /** Every `_id` is below `bound`, so `bound` is still free for the next insert. */
  predicate IdsBelow(rows: seq<Row>, bound: nat) {
    forall i :: 0 <= i < |rows| ==> rows[i].id < bound
  }

  /** `count_documents(filter)` */
  function Count(rows: seq<Row>, matches: Row -> bool): (n: nat)
    ensures n <= |rows|
    ensures n > 0 <==> exists i :: 0 <= i < |rows| && matches(rows[i])
    decreases |rows|
  {
    if |rows| == 0 then 0
    else
      var prefix := rows[..|rows| - 1];
      var n := Count(prefix, matches) + (if matches(rows[|rows| - 1]) then 1 else 0);
      assert forall i :: 0 <= i < |prefix| ==> prefix[i] == rows[i];
      n
  }

  /** `update_many(filter, {"$set": ...})`: every matched document is replaced by its changed
      version, the others stay as they are, and the order of the collection is kept. */
  function UpdateMany(rows: seq<Row>, matches: Row -> bool, change: Row -> Row): (r: seq<Row>)
    ensures |r| == |rows|
    ensures forall i :: 0 <= i < |rows| ==> r[i] == (if matches(rows[i]) then change(rows[i]) else rows[i])
    decreases |rows|
  {
    if |rows| == 0 then []
    else
      var last := rows[|rows| - 1];
      UpdateMany(rows[..|rows| - 1], matches, change) + [if matches(last) then change(last) else last]
  }

  /** The `modified_count` of that `update_many`: the matched documents whose new version
      differs from the stored one. */
  function ModifiedCount(rows: seq<Row>, matches: Row -> bool, change: Row -> Row): (n: nat)
    ensures n <= Count(rows, matches)
    ensures n == 0 <==> UpdateMany(rows, matches, change) == rows
    decreases |rows|
  {
    if |rows| == 0 then 0
    else
      var prefix := rows[..|rows| - 1];
      var last := rows[|rows| - 1];
      var n := ModifiedCount(prefix, matches, change) + (if matches(last) && change(last) != last then 1 else 0);
      assert rows == prefix + [last];
      n
  }

  /** What `delete_many(filter)` leaves: the documents the filter does not match, in order. */
  function Keep(rows: seq<Row>, deleted: Row -> bool): (r: seq<Row>)
    ensures |r| <= |rows|
    ensures forall x :: x in r <==> x in rows && !deleted(x)
    decreases |rows|
  {
    if |rows| == 0 then []
    else
      var last := rows[|rows| - 1];
      assert rows == rows[..|rows| - 1] + [last];
      Keep(rows[..|rows| - 1], deleted) + (if deleted(last) then [] else [last])
  }

  /** The `deleted_count` of that `delete_many` is the number of documents it matches. */
  lemma {:induction false} KeepCount(rows: seq<Row>, deleted: Row -> bool)
    ensures |Keep(rows, deleted)| + Count(rows, deleted) == |rows|
    decreases |rows|
  {
    if |rows| > 0 {
      KeepCount(rows[..|rows| - 1], deleted);
    }
  }

  /** Deleting keeps the `_id`s distinct. */
  lemma {:induction false} KeepDistinct(rows: seq<Row>, deleted: Row -> bool)
    requires DistinctIds(rows)
    ensures DistinctIds(Keep(rows, deleted))
    decreases |rows|
  {
    if |rows| > 0 {
      var prefix := rows[..|rows| - 1];
      var last := rows[|rows| - 1];
      KeepDistinct(prefix, deleted);
      var kept := Keep(prefix, deleted);
      forall x | x in kept
        ensures x.id != last.id
      {
        var i :| 0 <= i < |prefix| && prefix[i] == x;
        assert rows[i] == x;
      }
    }
  }

  /** Deleting keeps every `_id` below the bound. */
  lemma KeepBelow(rows: seq<Row>, deleted: Row -> bool, bound: nat)
    requires IdsBelow(rows, bound)
    ensures IdsBelow(Keep(rows, deleted), bound)
  {
    var kept := Keep(rows, deleted);
    forall i | 0 <= i < |kept|
      ensures kept[i].id < bound
    {
      assert kept[i] in rows;
    }
  }

  /** Appending a document with the next free `_id` keeps the `_id`s distinct and bounded. */
  lemma AppendFresh(rows: seq<Row>, r: Row, bound: nat)
    requires DistinctIds(rows) && IdsBelow(rows, bound) && r.id == bound
    ensures DistinctIds(rows + [r]) && IdsBelow(rows + [r], bound + 1)
  {
  }

  /** A change that keeps the `_id` keeps the `_id`s of the whole collection. */
  lemma UpdateManyKeepsIds(rows: seq<Row>, matches: Row -> bool, change: Row -> Row, bound: nat)
    requires forall x :: change(x).id == x.id
    requires DistinctIds(rows) && IdsBelow(rows, bound)
    ensures DistinctIds(UpdateMany(rows, matches, change)) && IdsBelow(UpdateMany(rows, matches, change), bound)
  {
  }

  /** The position of the document with `_id` `id`, if there is one. */
  function IndexOfId(rows: seq<Row>, id: nat): (k: Option<nat>)
    ensures k.None? <==> forall i :: 0 <= i < |rows| ==> rows[i].id != id
    ensures k.Some? ==> k.value < |rows| && rows[k.value].id == id
    decreases |rows|
  {
    if |rows| == 0 then None
    else if rows[|rows| - 1].id == id then Some(|rows| - 1)
    else
      var k := IndexOfId(rows[..|rows| - 1], id);
      if k.Some? then Some(k.value) else None
  }

  /** With distinct `_id`s, removing the document with `_id` `id` is deleting the one at its
      position, and `delete_one` removes exactly one document. */
  lemma DeleteOne(rows: seq<Row>, id: nat, k: nat)
    requires DistinctIds(rows) && k < |rows| && rows[k].id == id
    ensures Count(rows, (x: Row) => x.id == id) == 1
  {
    var p := (x: Row) => x.id == id;
    CountOne(rows, p, k);
  }

  lemma {:induction false} CountOne(rows: seq<Row>, p: Row -> bool, k: nat)
    requires k < |rows| && p(rows[k])
    requires forall i :: 0 <= i < |rows| && i != k ==> !p(rows[i])
    ensures Count(rows, p) == 1
    decreases |rows|
  {
    var prefix := rows[..|rows| - 1];
    if k < |rows| - 1 {
      CountOne(prefix, p, k);
    } else {
      assert forall i :: 0 <= i < |prefix| ==> !p(prefix[i]) by {
        forall i | 0 <= i < |prefix| ensures !p(prefix[i]) { assert prefix[i] == rows[i]; }
      }
    }
  }
}
