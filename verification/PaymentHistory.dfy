/** What the answers of the payment protocol say about the run that led to them: which
    statements ran for a delivery, in which order, and what came between.
    Same sources as module Payments. */
module PaymentHistory {
  import opened Donations
  import opened Options
  import opened Webhook
  import opened Payments

  /** The world before step n. */
  function At(cfg: Config, now: int, steps: seq<Step>, n: nat): World
    requires n <= |steps|
  {
    Run(cfg, now, steps[..n])
  }

  lemma AtNext(cfg: Config, now: int, steps: seq<Step>, n: nat)
    requires n < |steps|
    ensures At(cfg, now, steps, n + 1) == Taken(cfg, At(cfg, now, steps, n), steps[n])
  {
    assert steps[..n+1][..n] == steps[..n];
  }

  /** Step i of the run is s, and it takes effect. */
  ghost predicate Takes(cfg: Config, now: int, steps: seq<Step>, i: nat, s: Step) {
    i < |steps| && steps[i] == s && Enabled(At(cfg, now, steps, i), s)
  }

  /** The delivery's UPDATE would find its row in another status. */
  predicate Moves(w: World, d: nat)
    requires d < |w.deliveries|
  {
    var e := w.deliveries[d].event;
    Exists(w.table, e.pi) && !HasStatus(w.table, e.pi, Target(e.kind))
  }

  /* ---- one step ---- */

  predicate Targets(s: Step, d: nat) {
    s in {UpdateRow(d), UpdateError(d), Probe(d), ProbeError(d), PostLedger(d), Reply(d), Crash(d)}
  }

  /** A delivery keeps its event and its past, and only its own steps change it. */
  lemma StepKeepsDelivery(cfg: Config, w: World, s: Step, d: nat)
    requires d < |w.deliveries| && Consistent(w.deliveries[d])
    ensures var w' := Taken(cfg, w, s);
      && d < |w'.deliveries| && w'.deliveries[d].event == w.deliveries[d].event
      && (w.deliveries[d].into ==> w'.deliveries[d].into)
      && (!Targets(s, d) ==> w'.deliveries[d] == w.deliveries[d])
  {
  }

  lemma StepKeepsEntries(cfg: Config, w: World, s: Step, pi: string)
    requires Inv(w)
    ensures Count(Taken(cfg, w, s).deliveries, Into(pi)) >= Count(w.deliveries, Into(pi))
  {
    var w' := Taken(cfg, w, s);
    if w'.deliveries == w.deliveries {
    } else if s.Deliver? {
      CountAppend(w.deliveries, w'.deliveries[|w.deliveries|], Into(pi));
    } else {
      var d := s.delivery;
      StepKeepsDelivery(cfg, w, s, d);
      assert w'.deliveries == w.deliveries[d := w'.deliveries[d]];
      CountUpdate(w.deliveries, d, w'.deliveries[d], Into(pi));
    }
  }

  /** What makes a payment intent's row appear. */
  predicate Inserts(w: World, s: Step, pi: string) {
    s.InsertRow? && Enabled(w, s) && w.calls[s.call].pc.intent.pi == pi && !Exists(w.table, pi)
  }

  /** What takes a row into a status: an UPDATE of an event for it that finds it in another. */
  predicate UpdatesTo(w: World, s: Step, pi: string, to: Status) {
    s.UpdateRow? && Enabled(w, s) && Moves(w, s.delivery)
    && w.deliveries[s.delivery].event.pi == pi && Target(w.deliveries[s.delivery].event.kind) == to
  }

  /** The only steps that make a row appear or change its status. */
  lemma RowChangedBy(cfg: Config, w: World, s: Step, pi: string)
    requires Inv(w)
    ensures var w' := Taken(cfg, w, s);
      && (Exists(w.table, pi) ==> Exists(w'.table, pi))
      && (!Exists(w.table, pi) && Exists(w'.table, pi) <==> Inserts(w, s, pi))
      && (Inserts(w, s, pi) ==> HasStatus(w'.table, pi, Pending))
      && (forall to :: UpdatesTo(w, s, pi, to) ==> HasStatus(w'.table, pi, to))
      && (Exists(w.table, pi) && (forall to :: !UpdatesTo(w, s, pi, to)) ==>
            w'.table[RowOf(w'.table, pi)].status == w.table[RowOf(w.table, pi)].status)
  {
    var w' := Taken(cfg, w, s);
    if Enabled(w, s) {
      match s
      case InsertRow(c) =>
        var i := w.calls[c].pc.intent;
        assert CallMatches(w.intents, w.table, w.calls[c]);
        InsertReplays(w.table, Donation(i.pi, Pending, i.charge, "", w.calls[c].cents));
      case UpdateRow(d) =>
        UpdateChangesRow(cfg, w, d, pi);
        assert UpdatesTo(w, s, pi, Target(w.deliveries[d].event.kind)) <==> w.deliveries[d].event.pi == pi && Moves(w, d);
      case StoreSfid(row, sfid) => SameIntentsSameRow(w.table, w'.table, pi);
      case _ =>
    }
  }

  lemma UpdateChangesRow(cfg: Config, w: World, d: nat, pi: string)
    requires Inv(w) && Enabled(w, UpdateRow(d))
    ensures var w' := Next(cfg, w, UpdateRow(d)); var e := w.deliveries[d].event;
      && (Exists(w'.table, pi) <==> Exists(w.table, pi))
      && (e.pi == pi && Moves(w, d) ==> HasStatus(w'.table, pi, Target(e.kind)))
      && (Exists(w.table, pi) && !(e.pi == pi && Moves(w, d)) ==>
            w'.table[RowOf(w'.table, pi)].status == w.table[RowOf(w.table, pi)].status)
  {
    var e := w.deliveries[d].event;
    MoveIsExact(w.table, e.pi, Target(e.kind), ChargeOf(e));
    var w' := Next(cfg, w, UpdateRow(d));
    assert RowOf(w'.table, pi) == RowOf(w.table, pi);
    if Exists(w.table, pi) && e.pi != pi && Exists(w.table, e.pi) {
      assert Matches(w.table[RowOf(w.table, pi)], pi);
    }
  }

  /* ---- along a run ---- */

  lemma {:induction false} EventStays(cfg: Config, now: int, steps: seq<Step>, m: nat, n: nat, d: nat)
    requires m <= n <= |steps| && d < |At(cfg, now, steps, m).deliveries|
    ensures d < |At(cfg, now, steps, n).deliveries|
    ensures At(cfg, now, steps, n).deliveries[d].event == At(cfg, now, steps, m).deliveries[d].event
    ensures At(cfg, now, steps, m).deliveries[d].into ==> At(cfg, now, steps, n).deliveries[d].into
    decreases n - m
  {
    if m < n {
      EventStays(cfg, now, steps, m, n - 1, d);
      RunKeepsInv(cfg, now, steps[..n-1]);
      AtNext(cfg, now, steps, n - 1);
      StepKeepsDelivery(cfg, At(cfg, now, steps, n - 1), steps[n-1], d);
    }
  }

  lemma {:induction false} EntriesGrow(cfg: Config, now: int, steps: seq<Step>, m: nat, n: nat, pi: string)
    requires m <= n <= |steps|
    ensures Count(At(cfg, now, steps, m).deliveries, Into(pi)) <= Count(At(cfg, now, steps, n).deliveries, Into(pi))
    decreases n - m
  {
    if m < n {
      EntriesGrow(cfg, now, steps, m, n - 1, pi);
      RunKeepsInv(cfg, now, steps[..n-1]);
      AtNext(cfg, now, steps, n - 1);
      StepKeepsEntries(cfg, At(cfg, now, steps, n - 1), steps[n-1], pi);
    }
  }

  /** The delivery's UPDATE ran at i, moved nothing, and its probe has not run before n. */
  ghost predicate ProbingFrom(cfg: Config, now: int, steps: seq<Step>, i: nat, n: nat, d: nat) {
    && i < n <= |steps|
    && Takes(cfg, now, steps, i, UpdateRow(d)) && !Moves(At(cfg, now, steps, i), d)
    && forall m :: i < m <= n ==> PcIs(At(cfg, now, steps, m), d, Probing)
  }

  lemma {:induction false} ProbingHasUpdate(cfg: Config, now: int, steps: seq<Step>, n: nat, d: nat)
    requires n <= |steps| && PcIs(At(cfg, now, steps, n), d, Probing)
    ensures exists i :: ProbingFrom(cfg, now, steps, i, n, d)
  {
    assert n > 0;
    var w, s := At(cfg, now, steps, n - 1), steps[n-1];
    AtNext(cfg, now, steps, n - 1);
    if PcIs(w, d, Probing) {
      ProbingHasUpdate(cfg, now, steps, n - 1, d);
      var i :| ProbingFrom(cfg, now, steps, i, n - 1, d);
      assert ProbingFrom(cfg, now, steps, i, n, d);
    } else {
      assert s == UpdateRow(d) && Enabled(w, s);
      assert ProbingFrom(cfg, now, steps, n - 1, n, d);
    }
  }

  /** The delivery's UPDATE at i moved its row. */
  ghost predicate MovedAt(cfg: Config, now: int, steps: seq<Step>, i: nat, d: nat) {
    Takes(cfg, now, steps, i, UpdateRow(d)) && Moves(At(cfg, now, steps, i), d)
  }

  /** The delivery's UPDATE at i moved nothing, and its probe at j decided for 200. */
  ghost predicate ProbedAt(cfg: Config, now: int, steps: seq<Step>, i: nat, j: nat, d: nat) {
    && ProbingFrom(cfg, now, steps, i, j, d) && Takes(cfg, now, steps, j, Probe(d))
    && var w := At(cfg, now, steps, j);
       Exists(w.table, w.deliveries[d].event.pi) || !AwaitsRow(cfg, w.now, w.deliveries[d].event)
  }

  /** On its way to an answer of 200 past its last database statement. */
  predicate Decided(pc: Pc) {
    pc.Posting? || pc == Replying(200) || pc == Answered(200)
  }

  lemma {:induction false} DecidedHow(cfg: Config, now: int, steps: seq<Step>, n: nat, d: nat)
    requires n <= |steps| && d < |At(cfg, now, steps, n).deliveries| && !cfg.ackUnimplemented
    requires Decided(At(cfg, now, steps, n).deliveries[d].pc)
    ensures (exists i: nat :: i < n && MovedAt(cfg, now, steps, i, d))
      || (exists i: nat, j: nat :: j < n && ProbedAt(cfg, now, steps, i, j, d))
  {
    assert n > 0;
    var w, s := At(cfg, now, steps, n - 1), steps[n-1];
    AtNext(cfg, now, steps, n - 1);
    if d < |w.deliveries| && Decided(w.deliveries[d].pc) {
      DecidedHow(cfg, now, steps, n - 1, d);
    } else if s == UpdateRow(d) {
      assert MovedAt(cfg, now, steps, n - 1, d);
    } else {
      assert s == Probe(d) && Enabled(w, s);
      ProbingHasUpdate(cfg, now, steps, n - 1, d);
      var i :| ProbingFrom(cfg, now, steps, i, n - 1, d);
      assert ProbedAt(cfg, now, steps, i, n - 1, d);
    }
  }

  /* ---- what comes between two points of a run ---- */

  /** The row of pi appears at k. */
  ghost predicate InsertsAt(cfg: Config, now: int, steps: seq<Step>, k: nat, pi: string) {
    k < |steps| && Inserts(At(cfg, now, steps, k), steps[k], pi)
  }

  /** An UPDATE takes the row of pi into a status at k. */
  ghost predicate UpdatesAt(cfg: Config, now: int, steps: seq<Step>, k: nat, pi: string, to: Status) {
    k < |steps| && UpdatesTo(At(cfg, now, steps, k), steps[k], pi, to)
  }

  lemma {:induction false} RowAppears(cfg: Config, now: int, steps: seq<Step>, i: nat, j: nat, pi: string)
    requires i <= j <= |steps|
    requires !Exists(At(cfg, now, steps, i).table, pi) && Exists(At(cfg, now, steps, j).table, pi)
    ensures exists k: nat :: i <= k < j && InsertsAt(cfg, now, steps, k, pi)
    decreases j - i
  {
    assert i < j;
    var w, s := At(cfg, now, steps, j - 1), steps[j-1];
    AtNext(cfg, now, steps, j - 1);
    RunKeepsInv(cfg, now, steps[..j-1]);
    RowChangedBy(cfg, w, s, pi);
    if Exists(w.table, pi) {
      RowAppears(cfg, now, steps, i, j - 1, pi);
    } else {
      assert InsertsAt(cfg, now, steps, j - 1, pi);
    }
  }

  /** A row that was absent or failed is neither later: it was inserted, or a success moved it. */
  lemma {:induction false} LeavesFailed(cfg: Config, now: int, steps: seq<Step>, i: nat, j: nat, pi: string)
    requires i <= j <= |steps|
    requires var t := At(cfg, now, steps, i).table; !Exists(t, pi) || HasStatus(t, pi, Failed)
    requires var t := At(cfg, now, steps, j).table; Exists(t, pi) && !HasStatus(t, pi, Failed)
    ensures exists k: nat :: i <= k < j && (InsertsAt(cfg, now, steps, k, pi) || UpdatesAt(cfg, now, steps, k, pi, Succeeded))
    decreases j - i
  {
    assert i < j;
    var w, s := At(cfg, now, steps, j - 1), steps[j-1];
    AtNext(cfg, now, steps, j - 1);
    RunKeepsInv(cfg, now, steps[..j-1]);
    RowChangedBy(cfg, w, s, pi);
    if Exists(w.table, pi) && !HasStatus(w.table, pi, Failed) {
      LeavesFailed(cfg, now, steps, i, j - 1, pi);
    } else {
      assert InsertsAt(cfg, now, steps, j - 1, pi) || UpdatesAt(cfg, now, steps, j - 1, pi, Succeeded);
    }
  }

  /* ---- no lost success ---- */

  /** The probe at j found no row, and at that moment the event was past a positive window. */
  ghost predicate GaveUpAt(cfg: Config, now: int, steps: seq<Step>, j: nat, d: nat) {
    Takes(cfg, now, steps, j, Probe(d)) &&
    var w := At(cfg, now, steps, j);
    !Exists(w.table, w.deliveries[d].event.pi) && RaceExpired(cfg, w.now, w.deliveries[d].event)
  }

  /** The donation was inserted at k, between the delivery's UPDATE at i and its probe at j. */
  ghost predicate InsertedBetween(cfg: Config, now: int, steps: seq<Step>, i: nat, k: nat, j: nat, d: nat) {
    && i < k < j && ProbingFrom(cfg, now, steps, i, j, d) && Takes(cfg, now, steps, j, Probe(d))
    && InsertsAt(cfg, now, steps, k, At(cfg, now, steps, j).deliveries[d].event.pi)
  }

  /** Whatever the interleaving, a v2 success event answered 200 has had its row moved into
      succeeded by some delivery, unless dispatch was told to acknowledge everything, or this
      delivery's own probe gave up on a row that was still missing when the event was past a
      positive window, or the row was inserted between its UPDATE and its probe. Nothing else
      loses a success. */
  lemma NoLostSuccess(cfg: Config, now: int, steps: seq<Step>, d: nat)
    requires var w := Run(cfg, now, steps);
      d < |w.deliveries| && V2Success(w.deliveries[d].event) && w.deliveries[d].pc == Answered(200)
    ensures var pi := Run(cfg, now, steps).deliveries[d].event.pi;
      || Count(Run(cfg, now, steps).deliveries, Into(pi)) > 0
      || cfg.ackUnimplemented
      || (exists j: nat :: GaveUpAt(cfg, now, steps, j, d))
      || (exists i: nat, k: nat, j: nat :: InsertedBetween(cfg, now, steps, i, k, j, d))
  {
    var n := |steps|;
    assert steps[..n] == steps;
    var pi := At(cfg, now, steps, n).deliveries[d].event.pi;
    if !cfg.ackUnimplemented && Count(At(cfg, now, steps, n).deliveries, Into(pi)) == 0 {
      ProbedWhenNotEntered(cfg, now, steps, d);
      var i: nat, j: nat :| j < n && ProbedAt(cfg, now, steps, i, j, d);
      EventStays(cfg, now, steps, j, n, d);
      ProbeExplained(cfg, now, steps, i, j, d);
    }
  }

  lemma ProbedWhenNotEntered(cfg: Config, now: int, steps: seq<Step>, d: nat)
    requires var w := Run(cfg, now, steps);
      && d < |w.deliveries| && w.deliveries[d].event.kind.PaymentSucceeded? && w.deliveries[d].pc == Answered(200)
      && Count(w.deliveries, Into(w.deliveries[d].event.pi)) == 0
    requires !cfg.ackUnimplemented
    ensures exists i: nat, j: nat :: j < |steps| && ProbedAt(cfg, now, steps, i, j, d)
  {
    assert steps[..|steps|] == steps;
    DecidedHow(cfg, now, steps, |steps|, d);
    forall i: nat | i < |steps| ensures !MovedAt(cfg, now, steps, i, d) { NotMoved(cfg, now, steps, i, d); }
  }

  lemma ProbeExplained(cfg: Config, now: int, steps: seq<Step>, i: nat, j: nat, d: nat)
    requires ProbedAt(cfg, now, steps, i, j, d) && V2Success(At(cfg, now, steps, j).deliveries[d].event)
    requires Count(Run(cfg, now, steps).deliveries, Into(At(cfg, now, steps, j).deliveries[d].event.pi)) == 0
    ensures GaveUpAt(cfg, now, steps, j, d) || exists k: nat :: InsertedBetween(cfg, now, steps, i, k, j, d)
  {
    var pi := At(cfg, now, steps, j).deliveries[d].event.pi;
    if Exists(At(cfg, now, steps, j).table, pi) {
      EventStays(cfg, now, steps, i, j, d);
      NotThereYet(cfg, now, steps, i, pi);
      RowAppears(cfg, now, steps, i, j, pi);
      var k: nat :| i <= k < j && InsertsAt(cfg, now, steps, k, pi);
      assert InsertedBetween(cfg, now, steps, i, k, j, d);
    }
  }

  /** Where no entry was ever counted, no success moved its row. */
  lemma NotMoved(cfg: Config, now: int, steps: seq<Step>, i: nat, d: nat)
    requires i < |steps| && d < |Run(cfg, now, steps).deliveries|
    requires var w := Run(cfg, now, steps);
      w.deliveries[d].event.kind.PaymentSucceeded? && Count(w.deliveries, Into(w.deliveries[d].event.pi)) == 0
    ensures !MovedAt(cfg, now, steps, i, d)
  {
    assert steps[..|steps|] == steps;
    if MovedAt(cfg, now, steps, i, d) {
      EventStays(cfg, now, steps, i, |steps|, d);
      MovedEnters(cfg, now, steps, i, d);
      EventStays(cfg, now, steps, i + 1, |steps|, d);
      NotEntered(Run(cfg, now, steps).deliveries, d);
    }
  }

  lemma MovedEnters(cfg: Config, now: int, steps: seq<Step>, i: nat, d: nat)
    requires MovedAt(cfg, now, steps, i, d) && At(cfg, now, steps, i).deliveries[d].event.kind.PaymentSucceeded?
    ensures d < |At(cfg, now, steps, i + 1).deliveries| && At(cfg, now, steps, i + 1).deliveries[d].into
  {
    AtNext(cfg, now, steps, i);
  }

  lemma NotEntered(ds: seq<Delivery>, d: nat)
    requires d < |ds| && Count(ds, Into(ds[d].event.pi)) == 0
    ensures !ds[d].into
  {
    if Has(ds[d], Into(ds[d].event.pi)) { CountPositive(ds, d, Into(ds[d].event.pi)); }
  }

  /** Where no entry was ever counted, an UPDATE to succeeded that moves nothing finds no row. */
  lemma NotThereYet(cfg: Config, now: int, steps: seq<Step>, i: nat, pi: string)
    requires i <= |steps| && Count(Run(cfg, now, steps).deliveries, Into(pi)) == 0
    ensures !HasStatus(At(cfg, now, steps, i).table, pi, Succeeded)
  {
    assert steps[..|steps|] == steps;
    EntriesGrow(cfg, now, steps, i, |steps|, pi);
    RunKeepsInv(cfg, now, steps[..i]);
    assert Conserved(At(cfg, now, steps, i), pi);
  }

  /** The UPDATE of a success event for pi runs at i. */
  ghost predicate SuccessUpdateAt(cfg: Config, now: int, steps: seq<Step>, i: nat, d: nat, pi: string) {
    Takes(cfg, now, steps, i, UpdateRow(d)) &&
    var e := At(cfg, now, steps, i).deliveries[d].event;
    e.kind.PaymentSucceeded? && e.pi == pi
  }

  /** Each ran before the donation was inserted. */
  ghost predicate AllTooEarly(cfg: Config, now: int, steps: seq<Step>, n: nat, pi: string)
    requires n <= |steps|
  {
    forall i: nat, d: nat :: i < n && SuccessUpdateAt(cfg, now, steps, i, d, pi) ==> !Exists(At(cfg, now, steps, i).table, pi)
  }

  lemma SameEntries(cfg: Config, w: World, s: Step, pi: string)
    requires Inv(w) && !UpdatesTo(w, s, pi, Succeeded)
    ensures Count(Taken(cfg, w, s).deliveries, Into(pi)) == Count(w.deliveries, Into(pi))
  {
    var w' := Taken(cfg, w, s);
    if w'.deliveries == w.deliveries {
    } else if s.Deliver? {
      CountAppend(w.deliveries, w'.deliveries[|w.deliveries|], Into(pi));
    } else {
      var d := s.delivery;
      assert w'.deliveries == w.deliveries[d := w'.deliveries[d]];
      CountUpdate(w.deliveries, d, w'.deliveries[d], Into(pi));
      SameEntry(cfg, w, s, pi);
    }
  }

  lemma SameEntry(cfg: Config, w: World, s: Step, pi: string)
    requires Inv(w) && Enabled(w, s) && !UpdatesTo(w, s, pi, Succeeded)
    requires s.UpdateRow? || s.UpdateError? || s.Probe? || s.ProbeError? || s.PostLedger? || s.Reply? || s.Crash?
    ensures Has(Next(cfg, w, s).deliveries[s.delivery], Into(pi)) == Has(w.deliveries[s.delivery], Into(pi))
  {
    assert Consistent(w.deliveries[s.delivery]);
  }

  lemma {:induction false} TooEarlyNeverEnters(cfg: Config, now: int, steps: seq<Step>, n: nat, pi: string)
    requires n <= |steps| && AllTooEarly(cfg, now, steps, n, pi)
    ensures Count(At(cfg, now, steps, n).deliveries, Into(pi)) == 0
  {
    if n > 0 {
      TooEarlyNeverEnters(cfg, now, steps, n - 1, pi);
      AtNext(cfg, now, steps, n - 1);
      RunKeepsInv(cfg, now, steps[..n-1]);
      var w, s := At(cfg, now, steps, n - 1), steps[n-1];
      assert s.UpdateRow? && UpdatesTo(w, s, pi, Succeeded) ==> SuccessUpdateAt(cfg, now, steps, n - 1, s.delivery, pi);
      SameEntries(cfg, w, s, pi);
    }
  }

  /** Exactly when a donation's successes are all lost, over every run and whatever they were
      answered: its row never enters succeeded if and only if every UPDATE of a success event
      for it ran before its row was inserted. */
  lemma NeverEnteredIff(cfg: Config, now: int, steps: seq<Step>, pi: string)
    ensures Count(Run(cfg, now, steps).deliveries, Into(pi)) == 0 <==> AllTooEarly(cfg, now, steps, |steps|, pi)
  {
    assert steps[..|steps|] == steps;
    if AllTooEarly(cfg, now, steps, |steps|, pi) { TooEarlyNeverEnters(cfg, now, steps, |steps|, pi); }
    forall i: nat, d: nat | i < |steps| && SuccessUpdateAt(cfg, now, steps, i, d, pi)
                            && Count(Run(cfg, now, steps).deliveries, Into(pi)) == 0
      ensures !Exists(At(cfg, now, steps, i).table, pi)
    {
      NotThereYet(cfg, now, steps, i, pi);
      EventStays(cfg, now, steps, i, |steps|, d);
      NotMoved(cfg, now, steps, i, d);
    }
  }

  /** Each effective probe runs right after its own delivery's UPDATE. */
  ghost predicate ProbesFollowUpdates(cfg: Config, now: int, steps: seq<Step>) {
    forall j: nat, d: nat :: Takes(cfg, now, steps, j, Probe(d)) ==> j > 0 && Takes(cfg, now, steps, j - 1, UpdateRow(d))
  }

  /** In such runs nothing is ever inserted between the two. */
  lemma AtomicUpdatesNeverRace(cfg: Config, now: int, steps: seq<Step>, i: nat, k: nat, j: nat, d: nat)
    requires ProbesFollowUpdates(cfg, now, steps)
    ensures !InsertedBetween(cfg, now, steps, i, k, j, d)
  {
    assert ProbingFrom(cfg, now, steps, i, j, d) && i < j - 1 ==> PcIs(At(cfg, now, steps, j - 1), d, Probing);
  }

  /** With an atomic update, a zero window and no blanket acknowledgement: 200 means moved. */
  lemma NoLostSuccessWhenAtomic(cfg: Config, now: int, steps: seq<Step>, d: nat)
    requires !cfg.ackUnimplemented && cfg.raceWindow == 0 && ProbesFollowUpdates(cfg, now, steps)
    requires var w := Run(cfg, now, steps);
      d < |w.deliveries| && V2Success(w.deliveries[d].event) && w.deliveries[d].pc == Answered(200)
    ensures var w := Run(cfg, now, steps); Count(w.deliveries, Into(w.deliveries[d].event.pi)) > 0
  {
    NoLostSuccess(cfg, now, steps, d);
    forall i: nat, k: nat, j: nat ensures !InsertedBetween(cfg, now, steps, i, k, j, d) {
      AtomicUpdatesNeverRace(cfg, now, steps, i, k, j, d);
    }
  }

  /* ---- lost failures ---- */

  /** How a failure event came to be answered 200: its UPDATE moved the row to failed; or its
      probe found the row failed already; or its probe found no row, and the failure is lost;
      or the row was absent or failed at the UPDATE and neither at the probe, because in
      between it was inserted or a success event moved it. */
  lemma FailureAckedHow(cfg: Config, now: int, steps: seq<Step>, d: nat)
    requires !cfg.ackUnimplemented
    requires var w := Run(cfg, now, steps);
      d < |w.deliveries| && w.deliveries[d].event.kind.PaymentFailed? && w.deliveries[d].pc == Answered(200)
    ensures
      || (exists i: nat :: MovedAt(cfg, now, steps, i, d))
      || (exists i: nat, j: nat :: FoundFailed(cfg, now, steps, i, j, d))
      || (exists i: nat, j: nat :: FoundNoRow(cfg, now, steps, i, j, d))
      || (exists i: nat, k: nat, j: nat :: Overtaken(cfg, now, steps, i, k, j, d))
  {
    ProbedUnlessMoved(cfg, now, steps, d);
    if !exists i: nat :: MovedAt(cfg, now, steps, i, d) {
      var i: nat, j: nat :| FailureProbedAt(cfg, now, steps, i, j, d);
      FailedProbeExplained(cfg, now, steps, i, j, d);
    }
  }

  ghost predicate FailureProbedAt(cfg: Config, now: int, steps: seq<Step>, i: nat, j: nat, d: nat) {
    ProbedAt(cfg, now, steps, i, j, d) && At(cfg, now, steps, j).deliveries[d].event.kind.PaymentFailed?
  }

  lemma ProbedUnlessMoved(cfg: Config, now: int, steps: seq<Step>, d: nat)
    requires !cfg.ackUnimplemented
    requires var w := Run(cfg, now, steps);
      d < |w.deliveries| && w.deliveries[d].event.kind.PaymentFailed? && w.deliveries[d].pc == Answered(200)
    ensures (exists i: nat :: MovedAt(cfg, now, steps, i, d)) || exists i: nat, j: nat :: FailureProbedAt(cfg, now, steps, i, j, d)
  {
    assert steps[..|steps|] == steps;
    DecidedHow(cfg, now, steps, |steps|, d);
    if i: nat, j: nat :| j < |steps| && ProbedAt(cfg, now, steps, i, j, d) {
      EventStays(cfg, now, steps, j, |steps|, d);
      assert FailureProbedAt(cfg, now, steps, i, j, d);
    }
  }

  ghost predicate FoundFailed(cfg: Config, now: int, steps: seq<Step>, i: nat, j: nat, d: nat) {
    ProbedAt(cfg, now, steps, i, j, d) &&
    HasStatus(At(cfg, now, steps, j).table, At(cfg, now, steps, j).deliveries[d].event.pi, Failed)
  }

  ghost predicate FoundNoRow(cfg: Config, now: int, steps: seq<Step>, i: nat, j: nat, d: nat) {
    ProbedAt(cfg, now, steps, i, j, d) &&
    !Exists(At(cfg, now, steps, j).table, At(cfg, now, steps, j).deliveries[d].event.pi)
  }

  ghost predicate Overtaken(cfg: Config, now: int, steps: seq<Step>, i: nat, k: nat, j: nat, d: nat) {
    && i < k < j && ProbedAt(cfg, now, steps, i, j, d)
    && var pi := At(cfg, now, steps, j).deliveries[d].event.pi;
       InsertsAt(cfg, now, steps, k, pi) || UpdatesAt(cfg, now, steps, k, pi, Succeeded)
  }

  lemma FailedProbeExplained(cfg: Config, now: int, steps: seq<Step>, i: nat, j: nat, d: nat)
    requires FailureProbedAt(cfg, now, steps, i, j, d)
    ensures FoundFailed(cfg, now, steps, i, j, d) || FoundNoRow(cfg, now, steps, i, j, d)
      || exists k: nat :: Overtaken(cfg, now, steps, i, k, j, d)
  {
    var t, pi := At(cfg, now, steps, j).table, At(cfg, now, steps, j).deliveries[d].event.pi;
    if Exists(t, pi) && !HasStatus(t, pi, Failed) {
      EventStays(cfg, now, steps, i, j, d);
      LeavesFailed(cfg, now, steps, i, j, pi);
      var k: nat :| i <= k < j && (InsertsAt(cfg, now, steps, k, pi) || UpdatesAt(cfg, now, steps, k, pi, Succeeded));
      assert k != i by { NotItself(cfg, now, steps, i, d, pi); }
      assert Overtaken(cfg, now, steps, i, k, j, d);
    }
  }

  lemma NotItself(cfg: Config, now: int, steps: seq<Step>, i: nat, d: nat, pi: string)
    requires Takes(cfg, now, steps, i, UpdateRow(d)) && !Moves(At(cfg, now, steps, i), d)
    ensures !InsertsAt(cfg, now, steps, i, pi) && !UpdatesAt(cfg, now, steps, i, pi, Succeeded)
  {
  }

  /* ---- where a donation ends ---- */

  /** The status the run gives the row of pi in its first n steps: pending from its insert, and
      then that of the last UPDATE that moved it. */
  ghost function LastMove(cfg: Config, now: int, steps: seq<Step>, n: nat, pi: string): Option<Status>
    requires n <= |steps|
  {
    if n == 0 then None
    else if InsertsAt(cfg, now, steps, n - 1, pi) then Some(Pending)
    else if UpdatesAt(cfg, now, steps, n - 1, pi, Succeeded) then Some(Succeeded)
    else if UpdatesAt(cfg, now, steps, n - 1, pi, Failed) then Some(Failed)
    else LastMove(cfg, now, steps, n - 1, pi)
  }

  /** A donation's status is that of the last event that moved it, in the order in which the
      UPDATEs ran and whatever order Stripe meant; redeliveries and replays do not matter. */
  lemma {:induction false} StatusIsLastMove(cfg: Config, now: int, steps: seq<Step>, n: nat, pi: string)
    requires n <= |steps|
    ensures var t := At(cfg, now, steps, n).table;
      && (Exists(t, pi) <==> LastMove(cfg, now, steps, n, pi).Some?)
      && (Exists(t, pi) ==> LastMove(cfg, now, steps, n, pi) == Some(t[RowOf(t, pi)].status))
  {
    if n > 0 {
      StatusIsLastMove(cfg, now, steps, n - 1, pi);
      AtNext(cfg, now, steps, n - 1);
      RunKeepsInv(cfg, now, steps[..n-1]);
      RowChangedBy(cfg, At(cfg, now, steps, n - 1), steps[n-1], pi);
      OnlyTwoTargets(At(cfg, now, steps, n - 1), steps[n-1], pi);
    }
  }

  lemma OnlyTwoTargets(w: World, s: Step, pi: string)
    ensures !UpdatesTo(w, s, pi, Pending)
    ensures forall to :: UpdatesTo(w, s, pi, to) ==> Exists(w.table, pi) && (to == Succeeded || to == Failed)
  {
  }

  /* ---- how often a donation is posted ---- */

  lemma StepKeepsExits(cfg: Config, w: World, s: Step, pi: string)
    requires Inv(w) && !(UpdatesTo(w, s, pi, Failed) && HasStatus(w.table, pi, Succeeded))
    ensures Count(Taken(cfg, w, s).deliveries, OutOf(pi)) == Count(w.deliveries, OutOf(pi))
  {
    var w' := Taken(cfg, w, s);
    if w'.deliveries == w.deliveries {
    } else if s.Deliver? {
      CountAppend(w.deliveries, w'.deliveries[|w.deliveries|], OutOf(pi));
    } else {
      var d := s.delivery;
      assert w'.deliveries == w.deliveries[d := w'.deliveries[d]];
      CountUpdate(w.deliveries, d, w'.deliveries[d], OutOf(pi));
      SameExit(cfg, w, s, pi);
    }
  }

  lemma SameExit(cfg: Config, w: World, s: Step, pi: string)
    requires Inv(w) && Enabled(w, s) && !(UpdatesTo(w, s, pi, Failed) && HasStatus(w.table, pi, Succeeded))
    requires s.UpdateRow? || s.UpdateError? || s.Probe? || s.ProbeError? || s.PostLedger? || s.Reply? || s.Crash?
    ensures Has(Next(cfg, w, s).deliveries[s.delivery], OutOf(pi)) == Has(w.deliveries[s.delivery], OutOf(pi))
  {
    assert Consistent(w.deliveries[s.delivery]);
  }

  lemma {:induction false} NoExits(cfg: Config, now: int, steps: seq<Step>, n: nat, pi: string)
    requires n <= |steps| && NeverTakenBack(cfg, now, steps, pi)
    ensures Count(At(cfg, now, steps, n).deliveries, OutOf(pi)) == 0
  {
    if n > 0 {
      NoExits(cfg, now, steps, n - 1, pi);
      AtNext(cfg, now, steps, n - 1);
      RunKeepsInv(cfg, now, steps[..n-1]);
      assert !(UpdatesAt(cfg, now, steps, n - 1, pi, Failed) && HasStatus(At(cfg, now, steps, n - 1).table, pi, Succeeded));
      StepKeepsExits(cfg, At(cfg, now, steps, n - 1), steps[n-1], pi);
    }
  }

  /** No failure event is processed while the donation is succeeded. */
  ghost predicate NeverTakenBack(cfg: Config, now: int, steps: seq<Step>, pi: string) {
    forall k: nat :: UpdatesAt(cfg, now, steps, k, pi, Failed) ==> !HasStatus(At(cfg, now, steps, k).table, pi, Succeeded)
  }

  /** Then the donation is posted at most once, however often its success is delivered. */
  lemma AtMostOnePost(cfg: Config, now: int, steps: seq<Step>, pi: string)
    requires NeverTakenBack(cfg, now, steps, pi)
    ensures PostsFor(Run(cfg, now, steps).posts, pi) <= 1
  {
    assert steps[..|steps|] == steps;
    NoExits(cfg, now, steps, |steps|, pi);
    PostingBooks(cfg, now, steps, pi);
  }

  /* ---- runs ---- */

  /** A run given by its worlds. */
  lemma {:induction false} RunIs(cfg: Config, now: int, steps: seq<Step>, ws: seq<World>, n: nat)
    requires n <= |steps| && |ws| == |steps| + 1 && ws[0] == Init(now)
    requires forall i :: 0 <= i < |steps| ==> Taken(cfg, ws[i], steps[i]) == ws[i+1]
    ensures At(cfg, now, steps, n) == ws[n]
  {
    if n > 0 {
      RunIs(cfg, now, steps, ws, n - 1);
      AtNext(cfg, now, steps, n - 1);
    } else {
      assert steps[..0] == [];
    }
  }

  /** A donor's request up to Stripe's answer, and an event's delivery up to its UPDATE. */
  function UpdateBeforeInsert(e: Event): seq<Step> {
    [StartCreate("k", 100), ChargeOk(0, Intent(e.pi, "")), Deliver(e), UpdateRow(0)]
  }

  function NothingFound(e: Event): World {
    World([], map["k" := Intent(e.pi, "")], [Call("k", 100, Inserting(Intent(e.pi, "")))],
          [Delivery(e, Probing, false, false, false)], [], 0)
  }

  function NothingFoundWorlds(e: Event): seq<World> {
    var i := Intent(e.pi, "");
    var w2 := Init(0).(calls := [Call("k", 100, Inserting(i))], intents := map["k" := i]);
    [Init(0), Init(0).(calls := [Call("k", 100, Charging)]), w2,
     w2.(deliveries := [Delivery(e, Received, false, false, false)]), NothingFound(e)]
  }

  lemma NothingFoundSteps(cfg: Config, e: Event, i: nat)
    requires e.pi != "" && i < 4
    ensures Taken(cfg, NothingFoundWorlds(e)[i], UpdateBeforeInsert(e)[i]) == NothingFoundWorlds(e)[i+1]
  {
    assert Taken(cfg, NothingFoundWorlds(e)[0], StartCreate("k", 100)) == NothingFoundWorlds(e)[1];
    assert Taken(cfg, NothingFoundWorlds(e)[1], ChargeOk(0, Intent(e.pi, ""))) == NothingFoundWorlds(e)[2];
    assert Taken(cfg, NothingFoundWorlds(e)[2], Deliver(e)) == NothingFoundWorlds(e)[3];
    assert Taken(cfg, NothingFoundWorlds(e)[3], UpdateRow(0)) == NothingFoundWorlds(e)[4];
  }

  function Inserted1(e: Event): World {
    NothingFound(e).(table := [Donation(e.pi, Pending, "", "", 100)], calls := [Call("k", 100, Created(e.pi))])
  }

  function RacedTail(e: Event): seq<World> {
    var h := Delivery(e, Replying(200), false, false, false);
    var w := Inserted1(e);
    [w, w.(deliveries := [h]), w.(deliveries := [h.(pc := Answered(200))])]
  }

  lemma RacedSteps(cfg: Config, e: Event)
    requires e.pi != ""
    ensures Taken(cfg, NothingFound(e), InsertRow(0)) == RacedTail(e)[0]
    ensures Taken(cfg, RacedTail(e)[0], Probe(0)) == RacedTail(e)[1]
    ensures Taken(cfg, RacedTail(e)[1], Reply(0)) == RacedTail(e)[2]
  {
    assert Exists(RacedTail(e)[0].table, e.pi);
  }

  /** The atomicity hypothesis is needed: with an insert between the two statements the code
      answers 200 to a success and the donation stays pending. */
  lemma InsertBetweenUpdateAndProbeLosesSuccess(cfg: Config, e: Event)
    requires V2Success(e) && e.pi != ""
    ensures var w := Run(cfg, 0, UpdateBeforeInsert(e) + [InsertRow(0), Probe(0), Reply(0)]);
      && |w.deliveries| == 1 && w.deliveries[0].event == e && w.deliveries[0].pc == Answered(200)
      && HasStatus(w.table, e.pi, Pending) && Count(w.deliveries, Into(e.pi)) == 0
  {
    var steps := UpdateBeforeInsert(e) + [InsertRow(0), Probe(0), Reply(0)];
    var ws := NothingFoundWorlds(e) + RacedTail(e);
    RacedSteps(cfg, e);
    forall i | 0 <= i < 7 ensures Taken(cfg, ws[i], steps[i]) == ws[i+1] {
      if i < 4 { NothingFoundSteps(cfg, e, i); }
    }
    RunIs(cfg, 0, steps, ws, 7);
    assert steps[..7] == steps;
    CountZero(ws[7].deliveries, Into(e.pi));
  }

  function LostTail(e: Event): seq<World> {
    var h := Delivery(e, Replying(200), false, false, false);
    var w := NothingFound(e).(deliveries := [h]);
    var answered := w.(deliveries := [h.(pc := Answered(200))]);
    [w, answered, answered.(table := Inserted1(e).table, calls := Inserted1(e).calls)]
  }

  lemma LostSteps(cfg: Config, e: Event)
    requires e.kind.PaymentFailed? && e.pi != ""
    ensures Taken(cfg, NothingFound(e), Probe(0)) == LostTail(e)[0]
    ensures Taken(cfg, LostTail(e)[0], Reply(0)) == LostTail(e)[1]
    ensures Taken(cfg, LostTail(e)[1], InsertRow(0)) == LostTail(e)[2]
  {
  }

  /** A failure event delivered before its donation is inserted is answered 200 at once, and
      the donation it was for is inserted as pending and stays so. */
  lemma FailureBeforeInsertIsLost(cfg: Config, e: Event)
    requires e.kind.PaymentFailed? && e.pi != ""
    ensures var w := Run(cfg, 0, UpdateBeforeInsert(e) + [Probe(0), Reply(0), InsertRow(0)]);
      && |w.deliveries| == 1 && w.deliveries[0].event == e && w.deliveries[0].pc == Answered(200)
      && HasStatus(w.table, e.pi, Pending)
  {
    var steps := UpdateBeforeInsert(e) + [Probe(0), Reply(0), InsertRow(0)];
    var ws := NothingFoundWorlds(e) + LostTail(e);
    LostSteps(cfg, e);
    forall i | 0 <= i < 7 ensures Taken(cfg, ws[i], steps[i]) == ws[i+1] {
      if i < 4 { NothingFoundSteps(cfg, e, i); }
    }
    RunIs(cfg, 0, steps, ws, 7);
    assert steps[..7] == steps;
  }

  function LateFailure(e: Event, f: Event): seq<Step> {
    [StartCreate("k", 100), ChargeOk(0, Intent(e.pi, "")), InsertRow(0), Deliver(e), UpdateRow(0), PostLedger(0),
     Deliver(f), UpdateRow(1), Deliver(e), UpdateRow(2), PostLedger(2)]
  }

  function LateFailureWorlds(e: Event, f: Event): seq<World> {
    var i := Intent(e.pi, "");
    var w2 := Init(0).(calls := [Call("k", 100, Inserting(i))], intents := map["k" := i]);
    var w3 := w2.(table := [Donation(e.pi, Pending, "", "", 100)], calls := [Call("k", 100, Created(e.pi))]);
    var (first, failure) := (Delivery(e, Replying(200), true, false, true), Delivery(f, Replying(200), false, true, false));
    var posting := Delivery(e, Posting(""), true, false, false);
    var w5 := w3.(table := [Donation(e.pi, Succeeded, e.charge, "", 100)], deliveries := [posting]);
    var w6 := w5.(deliveries := [first], posts := [PostFor(e, "")]);
    var w8 := w6.(table := [Donation(e.pi, Failed, e.charge, "", 100)], deliveries := [first, failure]);
    var w10 := w8.(table := w5.table, deliveries := [first, failure, posting]);
    [Init(0), Init(0).(calls := [Call("k", 100, Charging)]), w2, w3,
     w3.(deliveries := [Delivery(e, Received, false, false, false)]), w5, w6,
     w6.(deliveries := [first, Delivery(f, Received, false, false, false)]), w8,
     w8.(deliveries := [first, failure, Delivery(e, Received, false, false, false)]), w10,
     w10.(deliveries := [first, failure, first], posts := [PostFor(e, ""), PostFor(e, "")])]
  }

  /** A failure event that arrives after the success takes the donation back to failed, and
      the next redelivery of the success posts it a second time. Both posts carry one
      sourceTxn, the key by which the Ledger is to know them for one. */
  lemma LateFailurePostsTwice(cfg: Config, e: Event, f: Event)
    requires PostsToLedger(e) && e.pi != "" && f.kind.PaymentFailed? && f.pi == e.pi
    ensures var w := Run(cfg, 0, LateFailure(e, f));
      && w.posts == [PostFor(e, ""), PostFor(e, "")] && w.posts[0].sourceTxn == w.posts[1].sourceTxn
      && PostsFor(w.posts, e.pi) == 2 && HasStatus(w.table, e.pi, Succeeded) && |w.table| == 1
    ensures HasStatus(At(cfg, 0, LateFailure(e, f), 8).table, e.pi, Failed)
  {
    var steps, ws := LateFailure(e, f), LateFailureWorlds(e, f);
    LateFailureInsert(cfg, e, f);
    LateFailureFirst(cfg, e, f);
    LateFailureLate(cfg, e, f);
    forall i | 0 <= i < 11 ensures Taken(cfg, ws[i], steps[i]) == ws[i+1] {}
    RunIs(cfg, 0, steps, ws, 8);
    RunIs(cfg, 0, steps, ws, 11);
    assert steps[..11] == steps;
    var posts := ws[11].posts;
    assert PostsFor(posts[..1], e.pi) == PostsFor(posts[..1][..0], e.pi) + 1;
    assert PostsFor(posts, e.pi) == PostsFor(posts[..1], e.pi) + 1;
  }

  lemma LateFailureInsert(cfg: Config, e: Event, f: Event)
    requires e.pi != ""
    ensures forall i :: 0 <= i < 3 ==> Taken(cfg, LateFailureWorlds(e, f)[i], LateFailure(e, f)[i]) == LateFailureWorlds(e, f)[i+1]
  {
    var ws := LateFailureWorlds(e, f);
    assert Taken(cfg, ws[0], StartCreate("k", 100)) == ws[1];
    assert Taken(cfg, ws[1], ChargeOk(0, Intent(e.pi, ""))) == ws[2];
    assert Taken(cfg, ws[2], InsertRow(0)) == ws[3];
  }

  lemma LateFailureFirst(cfg: Config, e: Event, f: Event)
    requires PostsToLedger(e) && e.pi != ""
    ensures forall i :: 3 <= i < 6 ==> Taken(cfg, LateFailureWorlds(e, f)[i], LateFailure(e, f)[i]) == LateFailureWorlds(e, f)[i+1]
  {
    var ws := LateFailureWorlds(e, f);
    assert Taken(cfg, ws[3], Deliver(e)) == ws[4];
    assert Taken(cfg, ws[4], UpdateRow(0)) == ws[5];
    assert Taken(cfg, ws[5], PostLedger(0)) == ws[6];
  }

  lemma LateFailureLate(cfg: Config, e: Event, f: Event)
    requires PostsToLedger(e) && e.pi != "" && f.kind.PaymentFailed? && f.pi == e.pi
    ensures forall i :: 6 <= i < 11 ==> Taken(cfg, LateFailureWorlds(e, f)[i], LateFailure(e, f)[i]) == LateFailureWorlds(e, f)[i+1]
  {
    var ws := LateFailureWorlds(e, f);
    assert Taken(cfg, ws[6], Deliver(f)) == ws[7];
    assert Taken(cfg, ws[7], UpdateRow(1)) == ws[8];
    assert Taken(cfg, ws[8], Deliver(e)) == ws[9];
    assert Taken(cfg, ws[9], UpdateRow(2)) == ws[10];
    assert Taken(cfg, ws[10], PostLedger(2)) == ws[11];
  }
}
