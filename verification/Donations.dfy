/** The donations table and its repository, as the Stripe flows use them.
    Model of backend/internal/infrastructure/db/donation_repository.go. */
module Donations {

  /** The statuses this service writes to donations.status. */
  datatype Status = Pending | Succeeded | Failed

  /** One row. An empty string stands for SQL NULL, which is what the service's
      nullableString stores for it. */
  datatype Donation = Donation(pi: string, status: Status, charge: string, sfid: string, cents: int)

  type Table = seq<Donation>

  /** The partial unique index on stripe_payment_intent_id. */
  ghost predicate OnePerIntent(t: Table) {
    forall i, j :: 0 <= i < j < |t| && t[i].pi == t[j].pi ==> t[i].pi == ""
  }

  /** Whether `row` is the row SQL selects for `stripe_payment_intent_id = pi`; NULL equals nothing. */
  predicate Matches(row: Donation, pi: string) {
    pi != "" && row.pi == pi
  }

  /** Index of the first matching row, or |t|. */
  function RowOf(t: Table, pi: string): (i: nat)
    ensures i <= |t|
    ensures i < |t| ==> Matches(t[i], pi)
    ensures forall j :: 0 <= j < i ==> !Matches(t[j], pi)
  {
    if t == [] then 0
    else if Matches(t[0], pi) then 0
    else 1 + RowOf(t[1..], pi)
  }

  predicate Exists(t: Table, pi: string) {
    RowOf(t, pi) < |t|
  }

  predicate HasStatus(t: Table, pi: string, s: Status) {
    Exists(t, pi) && t[RowOf(t, pi)].status == s
  }

  /** INSERT ... ON CONFLICT DO NOTHING. */
  function Inserted(t: Table, d: Donation): Table {
    if Exists(t, d.pi) then t else t + [d]
  }

  /** UPDATE ... SET status, stripe_charge_id = COALESCE(NULLIF(charge, ''), stripe_charge_id)
      WHERE the row matches and its status IS DISTINCT FROM the target. */
  function Moved(t: Table, pi: string, to: Status, charge: string): (t': Table)
    ensures |t'| == |t|
  {
    seq(|t|, i requires 0 <= i < |t| =>
      if Matches(t[i], pi) && t[i].status != to
      then t[i].(status := to, charge := if charge == "" then t[i].charge else charge)
      else t[i])
  }

  /** UPDATE ... SET b2b_org_sfid WHERE id = row AND b2b_org_sfid IS NULL. */
  function SfidStored(t: Table, row: nat, sfid: string): (t': Table)
    ensures |t'| == |t|
  {
    if row < |t| && t[row].sfid == "" then t[row := t[row].(sfid := sfid)] else t
  }

  lemma ExistsIff(t: Table, pi: string)
    ensures Exists(t, pi) <==> exists i :: 0 <= i < |t| && Matches(t[i], pi)
  {
    if Exists(t, pi) { assert Matches(t[RowOf(t, pi)], pi); }
  }

  /** A unique index makes every matching row the one RowOf finds. */
  lemma TheRow(t: Table, pi: string, i: nat)
    requires OnePerIntent(t) && i < |t| && Matches(t[i], pi)
    ensures RowOf(t, pi) == i
  {
    assert forall j | 0 <= j < |t| && Matches(t[j], pi) :: j == i;
  }

  /** RowOf depends only on the payment intents, position by position. */
  lemma SameIntentsSameRow(t: Table, t': Table, pi: string)
    requires |t| == |t'| && forall i :: 0 <= i < |t| ==> t[i].pi == t'[i].pi
    ensures RowOf(t, pi) == RowOf(t', pi)
  {
    assert forall i | 0 <= i < |t| :: Matches(t[i], pi) <==> Matches(t'[i], pi);
  }

  /** An insert keeps every row where it was and as it was, keeps the index unique, and
      leaves exactly one row for the payment intent, however often it is replayed. */
  lemma InsertReplays(t: Table, d: Donation)
    requires OnePerIntent(t) && d.pi != ""
    ensures var t' := Inserted(t, d);
            && OnePerIntent(t')
            && t <= t'
            && Exists(t', d.pi)
            && Inserted(t', d) == t'
            && (Exists(t, d.pi) ==> t'[RowOf(t', d.pi)] == t[RowOf(t, d.pi)])
            && (!Exists(t, d.pi) ==> t'[RowOf(t', d.pi)] == d)
            && (forall pi :: pi != d.pi ==> (Exists(t, pi) <==> Exists(t', pi)))
            && (forall pi :: Exists(t, pi) ==> RowOf(t', pi) == RowOf(t, pi))
  {
    var t' := Inserted(t, d);
    ExistsIff(t, d.pi);
    if !Exists(t, d.pi) {
      assert t'[|t|] == d;
      TheRow(t', d.pi, |t|);
    }
    forall pi ensures Exists(t, pi) ==> RowOf(t', pi) == RowOf(t, pi) {
      if Exists(t, pi) { assert Matches(t'[RowOf(t, pi)], pi); TheRow(t', pi, RowOf(t, pi)); }
    }
    forall pi | pi != d.pi ensures Exists(t, pi) <==> Exists(t', pi) {
      ExistsIff(t, pi);
      ExistsIff(t', pi);
      assert forall i | 0 <= i < |t| :: t'[i] == t[i];
    }
  }

  /** A move touches the one matching row, and only if it is in another status: it puts it in
      the target status, replaces its charge ID by a given one, and keeps its other columns. */
  lemma MoveIsExact(t: Table, pi: string, to: Status, charge: string)
    requires OnePerIntent(t)
    ensures var t' := Moved(t, pi, to, charge);
            && OnePerIntent(t')
            && (forall p :: RowOf(t', p) == RowOf(t, p))
            && (Exists(t, pi) ==> HasStatus(t', pi, to))
            && (forall i :: 0 <= i < |t| && i != RowOf(t, pi) ==> t'[i] == t[i])
            && (forall i :: 0 <= i < |t| && t[i].charge != "" ==> t'[i].charge != "")
            && (!Exists(t, pi) || HasStatus(t, pi, to) ==> t' == t)
            && (Exists(t, pi) && !HasStatus(t, pi, to) ==>
                  var (was, now) := (t[RowOf(t, pi)], t'[RowOf(t, pi)]);
                  && now.pi == pi && now.status == to && now.sfid == was.sfid && now.cents == was.cents
                  && (charge != "" ==> now.charge == charge) && (charge == "" ==> now.charge == was.charge))
  {
    var t' := Moved(t, pi, to, charge);
    forall p ensures RowOf(t', p) == RowOf(t, p) { SameIntentsSameRow(t, t', p); }
    forall i | 0 <= i < |t| && i != RowOf(t, pi) ensures t'[i] == t[i] {
      if Matches(t[i], pi) { TheRow(t, pi, i); }
    }
  }

  datatype UpdateOutcome = Updated(sfid: string) | AlreadyProcessed | NotFound | DbError

  /** The repository. A database outage is the caller's `db` argument. */
  class DonationRepository {
    var rows: Table

    ghost predicate Valid()
      reads this
    {
      OnePerIntent(rows)
    }

    constructor ()
      ensures Valid() && rows == []
    {
      rows := [];
    }

    /** Inserts, or hands back the row a replayed idempotency key finds already there. */
    method Create(d: Donation, db: bool) returns (ok: bool, created: Donation)
      requires Valid()
      modifies this
      ensures Valid()
      ensures ok == db
      ensures !db ==> rows == old(rows)
      ensures db ==> rows == Inserted(old(rows), d)
      ensures db && d.pi != "" ==> Exists(rows, d.pi) && created == rows[RowOf(rows, d.pi)]
      ensures db && d.pi == "" ==> created == d
    {
      if !db { return false, d; }
      if d.pi != "" { InsertReplays(rows, d); }
      var conflict := Exists(rows, d.pi);
      rows := Inserted(rows, d);
      // RETURNING yields no row on conflict; the second query selects the existing one.
      created := if conflict then rows[RowOf(rows, d.pi)] else d;
      ok := true;
    }

    /** The webhook's update: its UPDATE and its EXISTS probe run with nothing in between.
        Module Payments drops that assumption. */
    method UpdateByPaymentIntentID(pi: string, to: Status, charge: string, updateOk: bool, probeOk: bool)
        returns (outcome: UpdateOutcome)
      requires Valid()
      modifies this
      ensures Valid()
      ensures !updateOk ==> outcome == DbError && rows == old(rows)
      ensures updateOk ==> rows == Moved(old(rows), pi, to, charge)
      ensures outcome.Updated? <==> updateOk && rows != old(rows)
      ensures outcome.Updated? ==> HasStatus(rows, pi, to) && outcome.sfid == rows[RowOf(rows, pi)].sfid
      ensures outcome.AlreadyProcessed? <==> updateOk && probeOk && HasStatus(old(rows), pi, to)
      ensures outcome.NotFound? <==> updateOk && probeOk && !Exists(old(rows), pi)
    {
      if !updateOk { return DbError; }
      MoveIsExact(rows, pi, to, charge);
      var i := RowOf(rows, pi);
      var changed := i < |rows| && rows[i].status != to;
      rows := Moved(rows, pi, to, charge);
      if changed { return Updated(rows[i].sfid); }
      if !probeOk { return DbError; }
      outcome := if Exists(rows, pi) then AlreadyProcessed else NotFound;
    }

    method SetB2BOrgSFID(row: nat, sfid: string)
      requires Valid()
      modifies this
      ensures Valid() && rows == SfidStored(old(rows), row, sfid)
      ensures forall i :: 0 <= i < |rows| && (i != row || old(rows[i].sfid) != "") ==> rows[i] == old(rows[i])
      ensures row < |rows| && old(rows[row].sfid) == "" ==> rows[row] == old(rows[row]).(sfid := sfid)
    {
      rows := SfidStored(rows, row, sfid);
    }
  }
}
