/** Rows inserted under consecutive ids. */
module Numbering {
  function Numbered<R>(items: seq<R>, firstId: nat): map<nat, R> {
    if items == [] then map[]
    else
      var n := |items| - 1;
      Numbered(items[..n], firstId)[firstId + n := items[n]]
  }

  lemma {:induction false} NumberedFacts<R>(items: seq<R>, firstId: nat)
    ensures forall id: nat :: id in Numbered(items, firstId) <==> firstId <= id < firstId + |items|
    ensures forall i: nat :: i < |items| ==> Numbered(items, firstId)[firstId + i] == items[i]
    ensures |Numbered(items, firstId)| == |items|
  {
    if items != [] {
      var n := |items| - 1;
      NumberedFacts(items[..n], firstId);
    }
  }

  /** What holds of every row inserted. */
  lemma NumberedRows<R>(items: seq<R>, firstId: nat, id: nat)
    requires id in Numbered(items, firstId)
    ensures firstId <= id < firstId + |items| && Numbered(items, firstId)[id] == items[id - firstId]
  {
    NumberedFacts(items, firstId);
    assert firstId + (id - firstId) == id;
  }

  /** A table after some rows were inserted. */
  function Grown<R>(rows: map<nat, R>, items: seq<R>, firstId: nat): map<nat, R> {
    rows + Numbered(items, firstId)
  }

  lemma NothingAdded<R>(rows: map<nat, R>)
    ensures rows + map[] == rows
  {
  }

  lemma GrownStart<R>(rows: map<nat, R>, items: seq<R>, firstId: nat)
    ensures Grown(rows, items[..0], firstId) == rows
  {
    assert rows + map[] == rows;
  }

  /** Inserting one row at a time inserts them all. */
  lemma GrownStep<R>(rows: map<nat, R>, items: seq<R>, n: nat, firstId: nat)
    requires n < |items|
    ensures Grown(rows, items[..n + 1], firstId) == Grown(rows, items[..n], firstId)[firstId + n := items[n]]
  {
    assert items[..n + 1][..n] == items[..n];
    assert Numbered(items[..n + 1], firstId) == Numbered(items[..n], firstId)[firstId + n := items[n]];
  }

  lemma GrownIds<R>(rows: map<nat, R>, items: seq<R>, firstId: nat)
    requires forall id :: id in rows ==> id < firstId
    ensures forall id :: id in Grown(rows, items, firstId) ==> id < firstId + |items|
    ensures Numbered(items, firstId).Keys !! rows.Keys
  {
    NumberedFacts(items, firstId);
  }

  /** The rows of a table that grew under new ids. */
  lemma GrownRows<R>(rows: map<nat, R>, items: seq<R>, firstId: nat)
    requires forall id :: id in rows ==> id < firstId
    ensures forall id :: id in rows ==> id in Grown(rows, items, firstId) && Grown(rows, items, firstId)[id] == rows[id]
    ensures forall id :: id in Grown(rows, items, firstId) <==> id in rows || firstId <= id < firstId + |items|
    ensures forall i: nat :: i < |items| ==> Grown(rows, items, firstId)[firstId + i] == items[i]
  {
    NumberedFacts(items, firstId);
  }
}
