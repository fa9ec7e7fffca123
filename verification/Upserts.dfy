/** Tables filled by INSERT ... ON CONFLICT (id) DO UPDATE: what a batch of rows leaves, and when
    a second unique key makes it fail. */
module Upserts {
  import opened Options

  /** A UUID that was parsed, one made by uuid5 from a scope and a key, or one made by the
      n-th uuid4 call of a run. uuid5 is taken not to collide. */
  datatype Uuid = Given(text: string) | Named(scope: string, key: string) | Random(run: nat, n: nat)

  /** A row: the columns ON CONFLICT leaves alone, and those it overwrites. */
  datatype Entry<K, U> = Entry(kept: K, updated: U)
  type Table<K, U> = map<Uuid, Entry<K, U>>
  type Rows<K, U> = seq<(Uuid, Entry<K, U>)>

  function Upsert<K, U>(t: Table<K, U>, id: Uuid, e: Entry<K, U>): Table<K, U> {
    t[id := if id in t then Entry(t[id].kept, e.updated) else e]
  }

  function Upserted<K, U>(t: Table<K, U>, rows: Rows<K, U>): Table<K, U> {
    if rows == [] then t
    else Upsert(Upserted(t, rows[..|rows|-1]), rows[|rows|-1].0, rows[|rows|-1].1)
  }

  function Ids<K, U>(rows: Rows<K, U>): set<Uuid> {
    set i | 0 <= i < |rows| :: rows[i].0
  }

  /** What the last row with an ID writes. */
  function Last<K, U>(rows: Rows<K, U>, id: Uuid): (u: Option<U>)
    ensures u.Some? <==> id in Ids(rows)
  {
    if rows == [] then None
    else
      var last := rows[|rows|-1];
      assert rows == rows[..|rows|-1] + [last];
      if last.0 == id then Some(last.1.updated) else Last(rows[..|rows|-1], id)
  }

  /** What the first row with an ID would insert. */
  function First<K, U>(rows: Rows<K, U>, id: Uuid): (k: Option<K>)
    ensures k.Some? <==> id in Ids(rows)
  {
    if rows == [] then None
    else
      var last := rows[|rows|-1];
      assert rows == rows[..|rows|-1] + [last];
      var before := First(rows[..|rows|-1], id);
      if before.Some? then before else if last.0 == id then Some(last.1.kept) else None
  }

  /** What upserting does to one row of the table. */
  lemma {:induction false} UpsertedAt<K, U>(t: Table<K, U>, rows: Rows<K, U>, id: Uuid)
    ensures id in Upserted(t, rows) <==> id in t || id in Ids(rows)
    ensures id in Ids(rows) ==> Last(rows, id) == Some(Upserted(t, rows)[id].updated)
    ensures id in t ==> Upserted(t, rows)[id].kept == t[id].kept
    ensures id !in t && id in Ids(rows) ==> First(rows, id) == Some(Upserted(t, rows)[id].kept)
    ensures id in t && id !in Ids(rows) ==> Upserted(t, rows)[id] == t[id]
  {
    if rows != [] {
      var rest, last := rows[..|rows|-1], rows[|rows|-1];
      assert rows == rest + [last];
      UpsertedAt(t, rest, id);
    }
  }

  /** Upserting the same rows again changes nothing, whatever was in the table before, even
      when several rows share an ID and some columns are kept from the first. */
  lemma UpsertTwice<K, U>(t: Table<K, U>, rows: Rows<K, U>)
    ensures Upserted(Upserted(t, rows), rows) == Upserted(t, rows)
  {
    var once := Upserted(t, rows);
    var twice := Upserted(once, rows);
    forall id ensures (id in twice <==> id in once) && (id in once ==> twice[id] == once[id]) {
      UpsertedAt(t, rows, id);
      UpsertedAt(once, rows, id);
    }
  }

  /** Each row of an upserted table takes its overwritten columns from one old or new row,
      and its kept columns from one. */
  lemma {:induction false} UpsertedAll<K, U>(t: Table<K, U>, rows: Rows<K, U>, keeps: K -> bool, writes: U -> bool)
    requires forall id :: id in t ==> keeps(t[id].kept) && writes(t[id].updated)
    requires forall i :: 0 <= i < |rows| ==> keeps(rows[i].1.kept) && writes(rows[i].1.updated)
    ensures forall id :: id in Upserted(t, rows) ==> keeps(Upserted(t, rows)[id].kept) && writes(Upserted(t, rows)[id].updated)
  {
    if rows != [] { UpsertedAll(t, rows[..|rows|-1], keeps, writes); }
  }

  lemma UpsertedKeys<K, U>(t: Table<K, U>, rows: Rows<K, U>)
    ensures Upserted(t, rows).Keys == t.Keys + Ids(rows)
  {
    forall id ensures id in Upserted(t, rows) <==> id in t || id in Ids(rows) { UpsertedAt(t, rows, id); }
  }

  lemma IdsAppend<K, U>(rows: Rows<K, U>, r: (Uuid, Entry<K, U>))
    ensures Ids(rows + [r]) == Ids(rows) + {r.0}
  {
    var all := rows + [r];
    forall id | id in Ids(rows) + {r.0} ensures id in Ids(all) {
      if id == r.0 {
        assert all[|rows|].0 == id;
      } else {
        var i :| 0 <= i < |rows| && rows[i].0 == id;
        assert all[i].0 == id;
      }
    }
  }

  lemma IdsJoin<K, U>(a: Rows<K, U>, b: Rows<K, U>)
    ensures Ids(a + b) == Ids(a) + Ids(b)
  {
    forall id | id in Ids(a) + Ids(b) ensures id in Ids(a + b) {
      if id in Ids(a) {
        var i :| 0 <= i < |a| && a[i].0 == id;
        assert (a + b)[i].0 == id;
      } else {
        var i :| 0 <= i < |b| && b[i].0 == id;
        assert (a + b)[|a| + i].0 == id;
      }
    }
  }

  lemma {:induction false} LastOfJoin<K, U>(a: Rows<K, U>, b: Rows<K, U>, id: Uuid)
    ensures Last(a + b, id) == if id in Ids(b) then Last(b, id) else Last(a, id)
  {
    if b == [] {
      assert a + b == a;
    } else {
      assert (a + b)[..|a+b|-1] == a + b[..|b|-1];
      LastOfJoin(a, b[..|b|-1], id);
      assert id in Ids(b) <==> Last(b, id).Some?;
      assert id in Ids(b[..|b|-1]) <==> Last(b[..|b|-1], id).Some?;
    }
  }

  lemma LastAppend<K, U>(rows: Rows<K, U>, r: (Uuid, Entry<K, U>), id: Uuid)
    ensures Last(rows + [r], id) == if r.0 == id then Some(r.1.updated) else Last(rows, id)
  {
    assert (rows + [r])[..|rows|] == rows;
  }

  lemma {:induction false} FirstFrom<K, U>(rows: Rows<K, U>, id: Uuid) returns (i: nat)
    requires id in Ids(rows)
    ensures i < |rows| && rows[i].0 == id && First(rows, id) == Some(rows[i].1.kept) && id !in Ids(rows[..i])
  {
    var rest, last := rows[..|rows|-1], rows[|rows|-1];
    assert rows == rest + [last];
    if id in Ids(rest) {
      i := FirstFrom(rest, id);
      assert rest[..i] == rows[..i];
    } else {
      i := |rows| - 1;
    }
  }

  lemma {:induction false} LastFrom<K, U>(rows: Rows<K, U>, id: Uuid) returns (i: nat)
    requires id in Ids(rows)
    ensures i < |rows| && rows[i].0 == id && Last(rows, id) == Some(rows[i].1.updated)
  {
    var rest, last := rows[..|rows|-1], rows[|rows|-1];
    assert rows == rest + [last];
    if last.0 == id {
      i := |rows| - 1;
    } else {
      i := LastFrom(rest, id);
    }
  }

  /* ---- unique keys ---- */

  /** The values a row has in the unique indexes other than its ID's; NULLs are in none. */
  type Keys<!K, !U, Q> = Entry<K, U> -> set<Q>

  /** The unique indexes admit a row under an ID. */
  predicate Fits<K, U, Q>(t: Table<K, U>, id: Uuid, e: Entry<K, U>, keys: Keys<K, U, Q>) {
    forall other :: other in t && other != id ==> keys(t[other]) !! keys(e)
  }

  predicate Unique<K, U, Q>(t: Table<K, U>, keys: Keys<K, U, Q>) {
    forall id :: id in t ==> Fits(t, id, t[id], keys)
  }

  /** The batch in one transaction: the first row that violates a unique index aborts it. */
  function Executed<K, U, Q>(t: Table<K, U>, rows: Rows<K, U>, keys: Keys<K, U, Q>): Option<Table<K, U>> {
    if rows == [] then Some(t)
    else
      var before := Executed(t, rows[..|rows|-1], keys);
      var (id, e) := rows[|rows|-1];
      if before.Some? && Fits(before.value, id, Upsert(before.value, id, e)[id], keys)
      then Some(Upsert(before.value, id, e)) else None
  }

  /** A batch that completes leaves the upserted table, with its unique indexes intact. */
  lemma {:induction false} ExecutedIsUpserted<K, U, Q>(t: Table<K, U>, rows: Rows<K, U>, keys: Keys<K, U, Q>)
    requires Executed(t, rows, keys).Some?
    ensures Executed(t, rows, keys) == Some(Upserted(t, rows))
    ensures Unique(t, keys) ==> Unique(Upserted(t, rows), keys)
  {
    if rows != [] { ExecutedIsUpserted(t, rows[..|rows|-1], keys); }
  }

  /** What a batch has put into the overwritten columns of a row, before its row i. */
  function Written<K, U>(t: Table<K, U>, rows: Rows<K, U>, id: Uuid): Option<U> {
    if id in Ids(rows) then Last(rows, id) else if id in t then Some(t[id].updated) else None
  }

  /** What it has in the kept columns. */
  function Kept<K, U>(t: Table<K, U>, rows: Rows<K, U>, id: Uuid): Option<K> {
    if id in t then Some(t[id].kept) else First(rows, id)
  }

  /** A row brings no value that another ID holds when its turn comes: the last that the batch
      has written under that ID or, as long as it has written none, the stored one. */
  ghost predicate WriteFits<K, U, Q>(t: Table<K, U>, before: Rows<K, U>, row: (Uuid, Entry<K, U>), of: U -> set<Q>) {
    forall other :: other != row.0 && Written(t, before, other).Some? ==>
      of(Written(t, before, other).value) !! of(row.1.updated)
  }

  ghost predicate WritesFit<K, U, Q>(t: Table<K, U>, rows: Rows<K, U>, of: U -> set<Q>) {
    forall i: nat :: i < |rows| ==> WriteFits(t, rows[..i], rows[i], of)
  }

  lemma WriteFitsIff<K, U, Q>(t: Table<K, U>, before: Rows<K, U>, row: (Uuid, Entry<K, U>), keys: Keys<K, U, Q>,
                              of: U -> set<Q>)
    requires forall e :: keys(e) == of(e.updated)
    ensures var now := Upserted(t, before);
      Fits(now, row.0, Upsert(now, row.0, row.1)[row.0], keys) <==> WriteFits(t, before, row, of)
  {
    var now := Upserted(t, before);
    assert keys(Upsert(now, row.0, row.1)[row.0]) == of(row.1.updated);
    forall other ensures Written(t, before, other) == if other in now then Some(now[other].updated) else None {
      UpsertedAt(t, before, other);
    }
  }

  /** Exactly when no row does, the batch completes, if its unique indexes are on overwritten columns. */
  lemma {:induction false} ExecutedWritesIff<K, U, Q>(t: Table<K, U>, rows: Rows<K, U>, keys: Keys<K, U, Q>, of: U -> set<Q>)
    requires forall e :: keys(e) == of(e.updated)
    ensures Executed(t, rows, keys).Some? <==> WritesFit(t, rows, of)
  {
    if rows != [] {
      var n := |rows| - 1;
      ExecutedWritesIff(t, rows[..n], keys, of);
      assert forall i: nat :: i < n ==> rows[..n][..i] == rows[..i];
      assert WritesFit(t, rows, of) <==> WritesFit(t, rows[..n], of) && WriteFits(t, rows[..n], rows[n], of);
      if Executed(t, rows[..n], keys).Some? {
        ExecutedIsUpserted(t, rows[..n], keys);
        WriteFitsIff(t, rows[..n], rows[n], keys, of);
      }
    }
  }

  /** A row does not insert kept columns that another ID has, inserted by this batch or stored. */
  ghost predicate InsertFits<K, U>(t: Table<K, U>, before: Rows<K, U>, row: (Uuid, Entry<K, U>)) {
    Kept(t, before, row.0).None? ==> forall other :: Kept(t, before, other) != Some(row.1.kept)
  }

  ghost predicate InsertsFit<K, U>(t: Table<K, U>, rows: Rows<K, U>) {
    forall i: nat :: i < |rows| ==> InsertFits(t, rows[..i], rows[i])
  }

  lemma InsertFitsIff<K, U>(t: Table<K, U>, before: Rows<K, U>, row: (Uuid, Entry<K, U>), keys: Keys<K, U, K>)
    requires forall e :: keys(e) == {e.kept}
    requires Unique(Upserted(t, before), keys)
    ensures var now := Upserted(t, before);
      Fits(now, row.0, Upsert(now, row.0, row.1)[row.0], keys) <==> InsertFits(t, before, row)
  {
    var now := Upserted(t, before);
    var merged := Upsert(now, row.0, row.1)[row.0];
    forall other ensures Kept(t, before, other) == if other in now then Some(now[other].kept) else None {
      UpsertedAt(t, before, other);
    }
    if row.0 in now {
      assert keys(merged) == keys(now[row.0]);
      assert Fits(now, row.0, now[row.0], keys);
    }
  }

  /** Exactly when no row does, the batch completes, if its unique index is on the kept columns. */
  lemma {:induction false} ExecutedInsertsIff<K, U>(t: Table<K, U>, rows: Rows<K, U>, keys: Keys<K, U, K>)
    requires forall e :: keys(e) == {e.kept}
    requires Unique(t, keys)
    ensures Executed(t, rows, keys).Some? <==> InsertsFit(t, rows)
  {
    if rows != [] {
      var n := |rows| - 1;
      ExecutedInsertsIff(t, rows[..n], keys);
      assert forall i: nat :: i < n ==> rows[..n][..i] == rows[..i];
      assert InsertsFit(t, rows) <==> InsertsFit(t, rows[..n]) && InsertFits(t, rows[..n], rows[n]);
      if Executed(t, rows[..n], keys).Some? {
        ExecutedIsUpserted(t, rows[..n], keys);
        InsertFitsIff(t, rows[..n], rows[n], keys);
      }
    }
  }

  /** Once a table holds every row of a batch, a batch that only overwrites can insert nothing. */
  lemma StoredInsertsFit<K, U>(t: Table<K, U>, rows: Rows<K, U>)
    requires Ids(rows) <= t.Keys
    ensures InsertsFit(t, rows)
  {
    forall i: nat | i < |rows| ensures InsertFits(t, rows[..i], rows[i]) {
      assert rows[i].0 in Ids(rows);
    }
  }

  /** Every row of an ID brings the values of the row stored under it: the batch brings nothing new. */
  lemma StoredWritesFit<K, U, Q>(t: Table<K, U>, rows: Rows<K, U>, keys: Keys<K, U, Q>, of: U -> set<Q>)
    requires forall e :: keys(e) == of(e.updated)
    requires Unique(t, keys)
    requires forall i :: 0 <= i < |rows| ==> rows[i].0 in t && of(t[rows[i].0].updated) == of(rows[i].1.updated)
    ensures WritesFit(t, rows, of)
  {
    forall i: nat | i < |rows| ensures WriteFits(t, rows[..i], rows[i], of) {
      forall other | other != rows[i].0 && Written(t, rows[..i], other).Some?
        ensures of(Written(t, rows[..i], other).value) !! of(rows[i].1.updated)
      {
        if other in Ids(rows[..i]) {
          var j := LastFrom(rows[..i], other);
          assert rows[..i][j] == rows[j];
        }
        assert other in t && of(Written(t, rows[..i], other).value) == of(t[other].updated);
        assert Fits(t, rows[i].0, t[rows[i].0], keys);
        assert keys(t[other]) !! keys(t[rows[i].0]);
      }
    }
  }
}
