/**
 The meaning of the server's version-gated upsert statement, as a function on tables
 (internal/skeeper/repository/postgres/postgres.go, UpsertEntries).

 PostgreSQL handles the unnested rows in order. A row that conflicts with one the same command
 has already inserted or updated aborts the whole command ("cannot affect row a second time").
 */
module ServerTable {
  import opened Basics
  import opened Entries

  datatype Outcome = Done(table: Table, applied: seq<Uuid>) | HitTwice

  /** The gate: the key is absent, or its stored version is strictly lower. */
  predicate Beats(table: Table, user: UserId, e: Entry) {
    (user, e.uuid) in table ==> table[(user, e.uuid)].version < e.version
  }

  function Upsert(table: Table, user: UserId, batch: seq<Entry>): Outcome {
    if batch == [] then Done(table, [])
    else
      match Upsert(table, user, batch[..|batch| - 1])
      case HitTwice => HitTwice
      case Done(t, applied) => UpsertOne(t, applied, user, batch[|batch| - 1])
  }

  function UpsertOne(table: Table, applied: seq<Uuid>, user: UserId, e: Entry): Outcome {
    if e.uuid in applied then HitTwice
    else if Beats(table, user, e) then Done(table[(user, e.uuid) := e], applied + [e.uuid])
    else Done(table, applied)
  }

  /** What a completed upsert of distinct ids did, entry by entry, in terms of the table before it. */
  ghost predicate Exact(table: Table, user: UserId, batch: seq<Entry>, after: Table, applied: seq<Uuid>) {
    && (forall e | e in batch :: e.uuid in applied <==> Beats(table, user, e))
    && (forall id | id in applied :: id in Ids(batch))
    && (forall i, j | 0 <= i < j < |applied| :: applied[i] != applied[j])
    && (forall e | e in batch :: (user, e.uuid) in after
          && after[(user, e.uuid)] == if Beats(table, user, e) then e else table[(user, e.uuid)])
    && (forall k | k in table :: k in after)
    && (forall k | k in after && !(k.0 == user && k.1 in Ids(batch)) :: k in table && after[k] == table[k])
  }

  /** A batch of distinct ids never aborts, applies exactly the entries that pass the gate, and touches nothing else. */
  lemma {:induction false} UpsertExact(table: Table, user: UserId, batch: seq<Entry>)
    requires DistinctIds(batch)
    ensures Upsert(table, user, batch).Done?
    ensures var r := Upsert(table, user, batch); Exact(table, user, batch, r.table, r.applied)
  {
    if batch == [] {
    } else {
      var init, e := batch[..|batch| - 1], batch[|batch| - 1];
      UpsertExact(table, user, init);
      var r0 := Upsert(table, user, init);
      assert batch == init + [e];
      LastIsNew(batch);
      UpsertOneExact(table, user, init, r0.table, r0.applied, e);
    }
  }

  lemma UpsertOneExact(table: Table, user: UserId, init: seq<Entry>, t0: Table, applied0: seq<Uuid>, e: Entry)
    requires Exact(table, user, init, t0, applied0)
    requires e.uuid !in Ids(init)
    ensures var r := UpsertOne(t0, applied0, user, e);
            r.Done? && Exact(table, user, init + [e], r.table, r.applied)
  {
    var batch, key := init + [e], (user, e.uuid);
    var r := UpsertOne(t0, applied0, user, e);
    assert key in t0 <==> key in table;
    assert Beats(t0, user, e) <==> Beats(table, user, e);
    assert Ids(batch) == Ids(init) + {e.uuid};
    forall x | x in batch
      ensures x.uuid in r.applied <==> Beats(table, user, x)
      ensures (user, x.uuid) in r.table
      ensures r.table[(user, x.uuid)] == if Beats(table, user, x) then x else table[(user, x.uuid)]
    {
      if x in init {
        assert x.uuid in Ids(init);
      }
    }
    forall k | k in r.table && !(k.0 == user && k.1 in Ids(batch))
      ensures k in table && r.table[k] == table[k]
    {
      assert k in t0;
    }
  }

  /** Whatever the batch, rows only move to strictly higher versions. */
  lemma {:induction false} UpsertGrows(table: Table, user: UserId, batch: seq<Entry>)
    ensures var r := Upsert(table, user, batch); r.Done? ==> Grows(table, r.table)
  {
    if batch == [] {
    } else {
      UpsertGrows(table, user, batch[..|batch| - 1]);
    }
  }

  /** Whatever the batch, no other account's row is touched. */
  lemma {:induction false} UpsertKeepsOtherUsers(table: Table, user: UserId, batch: seq<Entry>, k: (UserId, Uuid))
    requires k.0 != user
    ensures var r := Upsert(table, user, batch);
            r.Done? ==> (k in r.table <==> k in table) && (k in table ==> r.table[k] == table[k])
  {
    if batch == [] {
    } else {
      UpsertKeepsOtherUsers(table, user, batch[..|batch| - 1], k);
    }
  }

  /** Whatever the batch, a completed upsert leaves every sent id stored at the sent version or above. */
  lemma {:induction false} UpsertCovers(table: Table, user: UserId, batch: seq<Entry>)
    ensures var r := Upsert(table, user, batch);
            r.Done? ==> forall e | e in batch ::
                          (user, e.uuid) in r.table && r.table[(user, e.uuid)].version >= e.version
  {
    if batch == [] {
    } else {
      var init := batch[..|batch| - 1];
      UpsertCovers(table, user, init);
      assert batch == init + [batch[|batch| - 1]];
    }
  }

  lemma {:induction false} UpsertKeepsKeys(table: Table, user: UserId, batch: seq<Entry>)
    requires TableWellKeyed(table)
    ensures var r := Upsert(table, user, batch); r.Done? ==> TableWellKeyed(r.table)
  {
    if batch == [] {
    } else {
      UpsertKeepsKeys(table, user, batch[..|batch| - 1]);
    }
  }

  lemma {:induction false} UpsertNothing(table: Table, user: UserId, batch: seq<Entry>)
    requires forall e | e in batch :: !Beats(table, user, e)
    ensures Upsert(table, user, batch) == Done(table, [])
  {
    if batch == [] {
    } else {
      UpsertNothing(table, user, batch[..|batch| - 1]);
    }
  }

  /** Replaying a completed batch at once applies nothing and leaves the table as it is. */
  lemma ReplayIsIdle(table: Table, user: UserId, batch: seq<Entry>)
    requires Upsert(table, user, batch).Done?
    ensures var after := Upsert(table, user, batch).table;
            Upsert(after, user, batch) == Done(after, [])
  {
    UpsertCovers(table, user, batch);
    UpsertNothing(Upsert(table, user, batch).table, user, batch);
  }

  // ----- Sequences of batches -----

  /** One entry reaching the server. */
  datatype Arrival = Arrival(user: UserId, entry: Entry)

  function Key(a: Arrival): (UserId, Uuid) {
    (a.user, a.entry.uuid)
  }

  /** The table after single entries arrive one by one. */
  function Fold(table: Table, arrivals: seq<Arrival>): Table {
    if arrivals == [] then table
    else
      var t := Fold(table, arrivals[..|arrivals| - 1]);
      var a := arrivals[|arrivals| - 1];
      if Beats(t, a.user, a.entry) then t[Key(a) := a.entry] else t
  }

  datatype Batch = Batch(user: UserId, entries: seq<Entry>)

  /** The table after a series of upsert calls; an aborted call changes nothing. */
  function RunBatches(table: Table, batches: seq<Batch>): Table {
    if batches == [] then table
    else
      var t := RunBatches(table, batches[..|batches| - 1]);
      var b := batches[|batches| - 1];
      match Upsert(t, b.user, b.entries)
      case HitTwice => t
      case Done(after, _) => after
  }

  lemma {:induction false} RunAppend(table: Table, a: seq<Batch>, b: seq<Batch>)
    ensures RunBatches(table, a + b) == RunBatches(RunBatches(table, a), b)
  {
    if b == [] {
      assert a + b == a;
    } else {
      assert (a + b)[..|a + b| - 1] == a + b[..|b| - 1];
      RunAppend(table, a, b[..|b| - 1]);
    }
  }

  function Arrivals(user: UserId, entries: seq<Entry>): seq<Arrival> {
    seq(|entries|, i requires 0 <= i < |entries| => Arrival(user, entries[i]))
  }

  /** All the entries of the calls that did not abort, in order of arrival. */
  function Accepted(table: Table, batches: seq<Batch>): seq<Arrival> {
    if batches == [] then []
    else
      var init, b := batches[..|batches| - 1], batches[|batches| - 1];
      Accepted(table, init)
      + if Upsert(RunBatches(table, init), b.user, b.entries).Done? then Arrivals(b.user, b.entries) else []
  }

  lemma {:induction false} FoldAppend(table: Table, a: seq<Arrival>, b: seq<Arrival>)
    ensures Fold(table, a + b) == Fold(Fold(table, a), b)
  {
    if b == [] {
      assert a + b == a;
    } else {
      assert (a + b)[..|a + b| - 1] == a + b[..|b| - 1];
      FoldAppend(table, a, b[..|b| - 1]);
    }
  }

  /** A completed statement is the same as its rows arriving one by one. */
  lemma {:induction false} UpsertIsFold(table: Table, user: UserId, batch: seq<Entry>)
    ensures var r := Upsert(table, user, batch); r.Done? ==> r.table == Fold(table, Arrivals(user, batch))
  {
    if batch == [] {
    } else {
      UpsertIsFold(table, user, batch[..|batch| - 1]);
      var all := Arrivals(user, batch);
      assert all[..|all| - 1] == Arrivals(user, batch[..|batch| - 1]);
    }
  }

  lemma {:induction false} RunIsFold(table: Table, batches: seq<Batch>)
    ensures RunBatches(table, batches) == Fold(table, Accepted(table, batches))
  {
    if batches == [] {
    } else {
      var init, b := batches[..|batches| - 1], batches[|batches| - 1];
      RunIsFold(table, init);
      UpsertIsFold(RunBatches(table, init), b.user, b.entries);
      FoldAppend(table, Accepted(table, init), Arrivals(b.user, b.entries));
      assert Accepted(table, init) + [] == Accepted(table, init);
    }
  }

  /** Arrival `i` has the maximum version for its key, and no earlier arrival shares that version. */
  ghost predicate EarliestOfMaximum(arrivals: seq<Arrival>, i: int) {
    && 0 <= i < |arrivals|
    && forall j | 0 <= j < |arrivals| && Key(arrivals[j]) == Key(arrivals[i]) ::
         && arrivals[j].entry.version <= arrivals[i].entry.version
         && (j < i ==> arrivals[j].entry.version < arrivals[i].entry.version)
  }

  /** The stored row of a key, with the position at which it arrived. */
  lemma {:induction false} FoldKeepsEarliestMaximum(arrivals: seq<Arrival>, k: (UserId, Uuid)) returns (i: int)
    ensures k in Fold(map[], arrivals) <==> exists a :: a in arrivals && Key(a) == k
    ensures k in Fold(map[], arrivals) ==>
              EarliestOfMaximum(arrivals, i) && Key(arrivals[i]) == k && Fold(map[], arrivals)[k] == arrivals[i].entry
  {
    i := 0;
    if arrivals == [] {
    } else {
      var n := |arrivals| - 1;
      var init, last := arrivals[..n], arrivals[n];
      assert arrivals == init + [last];
      i := FoldKeepsEarliestMaximum(init, k);
      var t := Fold(map[], init);
      if Key(last) == k {
        assert last in arrivals;
        if k in t {
          assert arrivals[i] == init[i];
          if t[k].version < last.entry.version {
            i := n;
          }
        } else {
          forall j | 0 <= j < n
            ensures Key(arrivals[j]) != k
          {
            assert arrivals[j] in init;
          }
          i := n;
        }
      } else if k in t {
        assert arrivals[i] == init[i];
      } else {
        assert forall a :: a in arrivals ==> a in init || a == last;
      }
    }
  }

  /**
   After any series of upsert calls from an empty table, the row of a key is the
   earliest-arriving entry among those of maximum version sent for that key.
   */
  lemma ServerKeepsEarliestMaximum(batches: seq<Batch>, k: (UserId, Uuid)) returns (i: int)
    ensures var arrivals := Accepted(map[], batches);
            && (k in RunBatches(map[], batches) <==> exists a :: a in arrivals && Key(a) == k)
            && (k in RunBatches(map[], batches) ==>
                  EarliestOfMaximum(arrivals, i) && Key(arrivals[i]) == k
                  && RunBatches(map[], batches)[k] == arrivals[i].entry)
  {
    RunIsFold(map[], batches);
    i := FoldKeepsEarliestMaximum(Accepted(map[], batches), k);
  }

  /** All entries of all batches, whatever the server makes of them. */
  function Flatten(batches: seq<Batch>): seq<Arrival> {
    if batches == [] then []
    else Flatten(batches[..|batches| - 1]) + Arrivals(batches[|batches| - 1].user, batches[|batches| - 1].entries)
  }

  ghost predicate DistinctBatches(batches: seq<Batch>) {
    forall b | b in batches :: DistinctIds(b.entries)
  }

  lemma {:induction false} DistinctAllAccepted(table: Table, batches: seq<Batch>)
    requires DistinctBatches(batches)
    ensures Accepted(table, batches) == Flatten(batches)
  {
    if batches == [] {
    } else {
      var init, b := batches[..|batches| - 1], batches[|batches| - 1];
      DistinctAllAccepted(table, init);
      UpsertExact(RunBatches(table, init), b.user, b.entries);
    }
  }

  /** No arrival for the key of `x` has a higher version. */
  ghost predicate IsMaximum(arrivals: seq<Arrival>, x: Arrival) {
    x in arrivals && forall y | y in arrivals && Key(y) == Key(x) :: y.entry.version <= x.entry.version
  }

  /** For each key, all the entries of maximum version are one entry. */
  ghost predicate MaximaAgree(arrivals: seq<Arrival>) {
    forall x, y | IsMaximum(arrivals, x) && IsMaximum(arrivals, y) && Key(x) == Key(y) :: x == y
  }

  lemma FoldOrderIrrelevant(a: seq<Arrival>, b: seq<Arrival>)
    requires forall x :: x in a <==> x in b
    requires MaximaAgree(a)
    ensures Fold(map[], a) == Fold(map[], b)
  {
    forall k
      ensures SameAt(Fold(map[], a), Fold(map[], b), k)
    {
      var i := FoldKeepsEarliestMaximum(a, k);
      var j := FoldKeepsEarliestMaximum(b, k);
      if k in Fold(map[], a) && k in Fold(map[], b) {
        EarliestIsMaximum(a, i);
        EarliestIsMaximum(b, j);
        assert IsMaximum(a, b[j]);
      }
    }
    SameEverywhere(Fold(map[], a), Fold(map[], b));
  }

  lemma EarliestIsMaximum(arrivals: seq<Arrival>, i: int)
    requires EarliestOfMaximum(arrivals, i)
    ensures IsMaximum(arrivals, arrivals[i])
  {
  }

  /** The arrivals with the one at `i` moved to the front. */
  function MoveFirst(arrivals: seq<Arrival>, i: nat): (r: seq<Arrival>)
    requires i < |arrivals|
    ensures multiset(r) == multiset(arrivals)
  {
    assert arrivals == arrivals[..i] + [arrivals[i]] + arrivals[i + 1..];
    [arrivals[i]] + arrivals[..i] + arrivals[i + 1..]
  }

  /** An entry of maximum version that arrives first is the one that stays. */
  lemma FirstMaximumStays(arrivals: seq<Arrival>, i: nat)
    requires i < |arrivals| && IsMaximum(arrivals, arrivals[i])
    ensures var t, x := Fold(map[], MoveFirst(arrivals, i)), arrivals[i]; Key(x) in t && t[Key(x)] == x.entry
  {
    var moved, x := MoveFirst(arrivals, i), arrivals[i];
    var j := FoldKeepsEarliestMaximum(moved, Key(x));
    assert moved[0] == x && x in moved;
    assert moved[j] in multiset(moved);
    assert moved[j] in arrivals;
  }

  /** The arrivals' order does not matter: every reordering gives the same table. */
  ghost predicate OrderIrrelevant(arrivals: seq<Arrival>) {
    forall b | multiset(b) == multiset(arrivals) :: Fold(map[], b) == Fold(map[], arrivals)
  }

  /** Order is irrelevant exactly when the entries of maximum version for a key are all the same entry. */
  lemma OrderIrrelevantIff(arrivals: seq<Arrival>)
    ensures OrderIrrelevant(arrivals) <==> MaximaAgree(arrivals)
  {
    if MaximaAgree(arrivals) {
      forall b | multiset(b) == multiset(arrivals)
        ensures Fold(map[], b) == Fold(map[], arrivals)
      {
        SameMembers(arrivals, b);
        FoldOrderIrrelevant(arrivals, b);
      }
    }
    if OrderIrrelevant(arrivals) {
      forall x, y | IsMaximum(arrivals, x) && IsMaximum(arrivals, y) && Key(x) == Key(y)
        ensures x == y
      {
        var i :| 0 <= i < |arrivals| && arrivals[i] == x;
        var j :| 0 <= j < |arrivals| && arrivals[j] == y;
        FirstMaximumStays(arrivals, i);
        FirstMaximumStays(arrivals, j);
        assert Fold(map[], MoveFirst(arrivals, i)) == Fold(map[], MoveFirst(arrivals, j));
      }
    }
  }

  lemma SameMembers(a: seq<Arrival>, b: seq<Arrival>)
    requires multiset(a) == multiset(b)
    ensures forall x :: x in a <==> x in b
  {
    forall x
      ensures x in a <==> x in b
    {
      assert x in a <==> x in multiset(a);
    }
  }

  /** Each arrival as a call of its own. */
  function Singles(arrivals: seq<Arrival>): seq<Batch> {
    seq(|arrivals|, i requires 0 <= i < |arrivals| => Batch(arrivals[i].user, [arrivals[i].entry]))
  }

  lemma {:induction false} FlattenSingles(arrivals: seq<Arrival>)
    ensures Flatten(Singles(arrivals)) == arrivals && DistinctBatches(Singles(arrivals))
  {
    if arrivals == [] {
    } else {
      var n := |arrivals| - 1;
      FlattenSingles(arrivals[..n]);
      assert Singles(arrivals)[..n] == Singles(arrivals[..n]);
      assert Arrivals(arrivals[n].user, [arrivals[n].entry]) == [arrivals[n]];
      assert arrivals == arrivals[..n] + [arrivals[n]];
    }
  }

  /** Calls that send the same entries, in any order and split into calls in any way, leave the same table. */
  ghost predicate SplitIrrelevant(a: seq<Batch>) {
    forall b | DistinctBatches(b) && multiset(Flatten(b)) == multiset(Flatten(a)) ::
        RunBatches(map[], b) == RunBatches(map[], a)
  }

  /**
   Neither the order in which batches arrive nor how the entries are split into batches changes the
   final table, if and only if the entries of maximum version sent for a key are all the same entry.
   */
  lemma BatchOrderIrrelevantIff(a: seq<Batch>)
    requires DistinctBatches(a)
    ensures SplitIrrelevant(a) <==> MaximaAgree(Flatten(a))
  {
    OrderIrrelevantIff(Flatten(a));
    DistinctRunIsFold(a);
    if OrderIrrelevant(Flatten(a)) {
      forall b | DistinctBatches(b) && multiset(Flatten(b)) == multiset(Flatten(a))
        ensures RunBatches(map[], b) == RunBatches(map[], a)
      {
        DistinctRunIsFold(b);
      }
    }
    if SplitIrrelevant(a) {
      forall b | multiset(b) == multiset(Flatten(a))
        ensures Fold(map[], b) == Fold(map[], Flatten(a))
      {
        FlattenSingles(b);
        DistinctRunIsFold(Singles(b));
      }
    }
  }

  lemma DistinctRunIsFold(batches: seq<Batch>)
    requires DistinctBatches(batches)
    ensures RunBatches(map[], batches) == Fold(map[], Flatten(batches))
  {
    RunIsFold(map[], batches);
    DistinctAllAccepted(map[], batches);
  }

  /**
   Equal versions are decided by arrival, not by the last writer: the same two entries in two orders
   give two tables.
   */
  lemma EqualVersionsDependOnOrder(user: UserId, first: Entry, second: Entry)
    requires first.uuid == second.uuid && first.version == second.version && first != second
    ensures RunBatches(map[], [Batch(user, [first]), Batch(user, [second])])
         != RunBatches(map[], [Batch(user, [second]), Batch(user, [first])])
  {
    RunOfTwo(user, first, second);
    RunOfTwo(user, second, first);
    var k := (user, first.uuid);
    assert map[k := first][k] != map[k := second][k];
  }

  lemma RunOfTwo(user: UserId, first: Entry, second: Entry)
    requires first.uuid == second.uuid && first.version == second.version
    ensures RunBatches(map[], [Batch(user, [first]), Batch(user, [second])]) == map[(user, first.uuid) := first]
  {
    var b := [Batch(user, [first]), Batch(user, [second])];
    assert b[..1] == [Batch(user, [first])];
    assert b[..1][..0] == [];
    assert [first][..0] == [] && [second][..0] == [];
    assert Upsert(map[], user, [first]) == Done(map[(user, first.uuid) := first], [first.uuid]);
    assert RunBatches(map[], b[..1]) == map[(user, first.uuid) := first];
    assert Upsert(map[(user, first.uuid) := first], user, [second]) == Done(map[(user, first.uuid) := first], []);
  }
}
