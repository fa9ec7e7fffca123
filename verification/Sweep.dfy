/** The sweep that must cancel every subscription of an initiative before the initiative may
    be declined or hidden: pages of 100, at most 8 cancellations in flight, any schedule.
    Model of cancelInitiativeSubscriptions in backend/internal/service/initiative_service.go. */
module Sweep {
  import opened StripeErrors
  import opened Cancellation

  const PAGE_SIZE: nat := 100
  const CONCURRENCY: nat := 8

  /** One subscription of a page: a row already canceled starts out Done. */
  datatype Pc = Waiting | InCall | InWrite | Done | Errored

  /** A page being worked on: the listed rows, what Stripe can bill, one task per row. */
  datatype Page = Page(subs: seq<Sub>, billable: set<string>, tasks: seq<Pc>)

  /** The scheduler's and the outside world's next move: which task to advance, what Stripe
      answers if that task is calling it, whether the row write succeeds if it is marking. */
  datatype Choice = Choice(task: nat, reply: Reply, saved: bool)

  predicate Fits(p: Page) {
    |p.tasks| == |p.subs|
  }

  function Opened(subs: seq<Sub>, billable: set<string>): (p: Page)
    ensures Fits(p)
  {
    Page(subs, billable, seq(|subs|, i requires 0 <= i < |subs| => if subs[i].status == CANCELED then Done else Waiting))
  }

  predicate Busy(pc: Pc) {
    pc.InCall? || pc.InWrite?
  }

  function InFlight(tasks: seq<Pc>): nat {
    if tasks == [] then 0 else InFlight(tasks[..|tasks|-1]) + (if Busy(tasks[|tasks|-1]) then 1 else 0)
  }

  function StepsLeft(pc: Pc): nat {
    match pc case Waiting => 3 case InCall => 2 case InWrite => 1 case _ => 0
  }

  function Work(tasks: seq<Pc>): nat {
    if tasks == [] then 0 else Work(tasks[..|tasks|-1]) + StepsLeft(tasks[|tasks|-1])
  }

  function FirstWaiting(tasks: seq<Pc>): (i: nat)
    ensures i <= |tasks|
    ensures i < |tasks| ==> tasks[i].Waiting?
    ensures forall j :: 0 <= j < i ==> !tasks[j].Waiting?
  {
    if tasks == [] || tasks[0].Waiting? then 0 else 1 + FirstWaiting(tasks[1..])
  }

  function FirstBusy(tasks: seq<Pc>): (i: nat)
    ensures i <= |tasks|
    ensures i < |tasks| ==> Busy(tasks[i])
    ensures forall j :: 0 <= j < i ==> !Busy(tasks[j])
  {
    if tasks == [] || Busy(tasks[0]) then 0 else 1 + FirstBusy(tasks[1..])
  }

  /** errgroup launches tasks in page order and blocks while the limit is reached; a launched
      task may advance at any time. */
  predicate CanAdvance(p: Page, i: nat) {
    i < |p.tasks| && (Busy(p.tasks[i]) || (i == FirstWaiting(p.tasks) && InFlight(p.tasks) < CONCURRENCY))
  }

  lemma {:induction false} UpdateSums(tasks: seq<Pc>, i: nat, pc: Pc)
    requires i < |tasks|
    ensures Work(tasks[i := pc]) == Work(tasks) - StepsLeft(tasks[i]) + StepsLeft(pc)
    ensures InFlight(tasks[i := pc]) == InFlight(tasks) - (if Busy(tasks[i]) then 1 else 0) + (if Busy(pc) then 1 else 0)
  {
    var n := |tasks| - 1;
    if i == n {
      assert tasks[i := pc][..n] == tasks[..n];
    } else {
      assert tasks[i := pc][..n] == tasks[..n][i := pc];
      UpdateSums(tasks[..n], i, pc);
    }
  }

  lemma {:induction false} NoneBusy(tasks: seq<Pc>)
    requires forall i :: 0 <= i < |tasks| ==> !Busy(tasks[i])
    ensures InFlight(tasks) == 0
  {
    if tasks != [] { NoneBusy(tasks[..|tasks|-1]); }
  }

  lemma {:induction false} NoWork(tasks: seq<Pc>)
    ensures Work(tasks) == 0 <==> forall i :: 0 <= i < |tasks| ==> tasks[i].Done? || tasks[i].Errored?
  {
    if tasks != [] {
      var n := |tasks| - 1;
      NoWork(tasks[..n]);
      assert forall i | 0 <= i < n :: tasks[..n][i] == tasks[i];
    }
  }

  /** The bounded pool never deadlocks: while work is left, some task can advance. */
  function Pick(p: Page, c: Choice): (i: nat)
    requires Work(p.tasks) > 0
    ensures CanAdvance(p, i)
    ensures CanAdvance(p, c.task) ==> i == c.task
  {
    NoWork(p.tasks);
    if CanAdvance(p, c.task) then c.task
    else if FirstBusy(p.tasks) < |p.tasks| then FirstBusy(p.tasks)
    else
      NoneBusy(p.tasks);
      FirstWaiting(p.tasks)
  }

  function Advanced(p: Page, i: nat, c: Choice): (p': Page)
    requires Fits(p) && CanAdvance(p, i)
    ensures Fits(p') && |p'.tasks| == |p.tasks|
  {
    var sub := p.subs[i];
    match p.tasks[i]
    case Waiting => p.(tasks := p.tasks[i := if sub.stripeId == "" then InWrite else InCall])
    case InCall =>
      p.(billable := BillableAfter(p.billable, sub.stripeId, c.reply),
         tasks := p.tasks[i := if Proceeds(BySweep, c.reply) then InWrite else Errored])
    case InWrite =>
      if c.saved then p.(subs := p.subs[i := sub.(status := CANCELED)], tasks := p.tasks[i := Done])
      else p.(tasks := p.tasks[i := Errored])
  }

  /* ---- what a page owes: the sequential meaning ---- */

  /** Cancel the first n rows one after the other, each call accepted and each write saved. */
  function Sequentially(subs: seq<Sub>, billable: set<string>, n: nat): (r: (seq<Sub>, set<string>))
    requires n <= |subs|
    ensures |r.0| == |subs|
  {
    if n == 0 then (subs, billable)
    else
      var (rs, b) := Sequentially(subs, billable, n - 1);
      var sub := rs[n - 1];
      if sub.status == CANCELED then (rs, b)
      else (rs[n - 1 := sub.(status := CANCELED)], if sub.stripeId == "" then b else b - {sub.stripeId})
  }

  function Marked(subs: seq<Sub>, n: nat): (r: seq<Sub>)
    ensures |r| == |subs|
  {
    seq(|subs|, j requires 0 <= j < |subs| => if j < n then subs[j].(status := CANCELED) else subs[j])
  }

  /** Stripe IDs of those of the first n rows that were not canceled yet. */
  function LiveIds(subs: seq<Sub>, n: nat): set<string>
    requires n <= |subs|
  {
    set j | 0 <= j < n && Live(subs[j]) :: subs[j].stripeId
  }

  predicate Live(sub: Sub) {
    sub.status != CANCELED && sub.stripeId != ""
  }

  lemma {:induction false} SequentiallyMeans(subs: seq<Sub>, billable: set<string>, n: nat)
    requires n <= |subs|
    ensures Sequentially(subs, billable, n) == (Marked(subs, n), billable - LiveIds(subs, n))
  {
    if n == 0 {
      assert Marked(subs, 0) == subs;
      assert billable - LiveIds(subs, 0) == billable;
    } else {
      SequentiallyMeans(subs, billable, n - 1);
      var sub := subs[n - 1];
      var live := if Live(sub) then {sub.stripeId} else {};
      assert LiveIds(subs, n) == LiveIds(subs, n - 1) + live;
      assert Sequentially(subs, billable, n).0 == Marked(subs, n);
      assert Sequentially(subs, billable, n).1 == billable - LiveIds(subs, n - 1) - live == billable - LiveIds(subs, n);
    }
  }

  /* ---- every schedule ---- */

  /** Task i has its answer from Stripe and went on. */
  predicate IsThrough(p: Page, i: nat)
    requires i < |p.tasks| == |p.subs|
  {
    p.tasks[i].InWrite? || p.tasks[i].Done?
  }

  ghost predicate Clean(p: Page) {
    forall i :: 0 <= i < |p.tasks| ==> !p.tasks[i].Errored?
  }

  /** Row i of page p against the row o it was listed as. */
  ghost predicate RowProgress(o: Sub, p: Page, i: nat)
    requires i < |p.tasks| == |p.subs|
  {
    && p.subs[i] == (if p.tasks[i].Done? then o.(status := CANCELED) else o)
    && (o.status == CANCELED ==> p.tasks[i].Done?)
    && (p.tasks[i].InCall? ==> o.stripeId != "")
    && (Live(o) && IsThrough(p, i) ==> o.stripeId !in p.billable)
  }

  /** What left `billable` without an error was owed by a task that is through. */
  ghost predicate Owed(o: Page, p: Page, id: string)
    requires Fits(o) && |p.tasks| == |p.subs| == |o.subs|
  {
    exists i :: 0 <= i < |o.subs| && Live(o.subs[i]) && o.subs[i].stripeId == id && IsThrough(p, i)
  }

  ghost predicate Progress(o: Page, p: Page) {
    && Fits(o) && Fits(p) && |p.tasks| == |o.tasks|
    && (forall i :: 0 <= i < |p.tasks| ==> RowProgress(o.subs[i], p, i))
    && p.billable <= o.billable
    && (Clean(p) ==> forall id :: id in o.billable && id !in p.billable ==> Owed(o, p, id))
    && InFlight(p.tasks) <= 8
  }

  lemma OpenedProgress(subs: seq<Sub>, billable: set<string>)
    ensures var o := Opened(subs, billable); Progress(o, o)
  {
    NoneBusy(Opened(subs, billable).tasks);
  }

  lemma StillOwed(o: Page, p: Page, i: nat, c: Choice, id: string)
    requires Progress(o, p) && CanAdvance(p, i) && Clean(Advanced(p, i, c))
    requires Owed(o, p, id)
    ensures Owed(o, Advanced(p, i, c), id)
  {
    var k :| 0 <= k < |o.subs| && Live(o.subs[k]) && o.subs[k].stripeId == id && IsThrough(p, k);
    assert IsThrough(Advanced(p, i, c), k);
  }

  lemma AdvanceRows(o: Page, p: Page, i: nat, c: Choice)
    requires Progress(o, p) && CanAdvance(p, i)
    ensures var p' := Advanced(p, i, c);
      && p'.billable <= p.billable
      && forall k :: 0 <= k < |p'.tasks| ==> RowProgress(o.subs[k], p', k)
  {
    var p' := Advanced(p, i, c);
    PathsDifferIff(c.reply);
    forall k | 0 <= k < |p'.tasks| ensures RowProgress(o.subs[k], p', k) {
      assert RowProgress(o.subs[k], p, k);
    }
  }

  lemma AdvanceProgress(o: Page, p: Page, i: nat, c: Choice)
    requires Progress(o, p) && CanAdvance(p, i)
    ensures var p' := Advanced(p, i, c);
      Progress(o, p') && Work(p'.tasks) < Work(p.tasks) && (Clean(p') ==> Clean(p))
  {
    var p' := Advanced(p, i, c);
    AdvanceRows(o, p, i, c);
    UpdateSums(p.tasks, i, p'.tasks[i]);
    if Clean(p') {
      forall k | 0 <= k < |p.tasks| ensures !p.tasks[k].Errored? { assert k != i ==> p'.tasks[k] == p.tasks[k]; }
      forall id | id in o.billable && id !in p'.billable ensures Owed(o, p', id) {
        if id in p.billable {
          assert RowProgress(o.subs[i], p, i) && IsThrough(p', i);
        } else {
          StillOwed(o, p, i, c, id);
        }
      }
    }
  }

  /** Any schedule of a page that ends without an error leaves the rows and Stripe exactly as
      canceling the page's rows one after the other would. */
  lemma AnyScheduleIsSequential(o: Page, p: Page)
    requires Progress(o, p) && Work(p.tasks) == 0 && Clean(p)
    ensures (p.subs, p.billable) == Sequentially(o.subs, o.billable, |o.subs|)
  {
    var n := |o.subs|;
    NoWork(p.tasks);
    SequentiallyMeans(o.subs, o.billable, n);
    forall i | 0 <= i < n ensures p.subs[i] == Marked(o.subs, n)[i] { assert RowProgress(o.subs[i], p, i); }
    forall id | id in LiveIds(o.subs, n) ensures id !in p.billable {
      var j :| 0 <= j < n && Live(o.subs[j]) && o.subs[j].stripeId == id;
      assert RowProgress(o.subs[j], p, j);
    }
    assert forall id | id in o.billable && id !in p.billable :: Owed(o, p, id);
    assert p.subs == Marked(o.subs, n);
    assert p.billable == o.billable - LiveIds(o.subs, n);
  }

  /** A choice with which no task fails. */
  predicate Kind(c: Choice) {
    Proceeds(BySweep, c.reply) && c.saved
  }

  /** Also if Stripe has lost the subscription or calls it expired. */
  lemma KindMeans(c: Choice)
    ensures c.reply.Accepted? ==> (Kind(c) <==> c.saved)
    ensures c.reply.Refused? && c.reply.error.Typed? ==>
      var e := c.reply.error;
      Kind(c) <==> (c.saved && ((e.http == 404 && e.code == "resource_missing") || (e.http == 400 && Contains(e.msg, "incomplete_expired"))))
    ensures c.reply.Refused? && c.reply.error.Untyped? ==>
      (Kind(c) <==> c.saved && Contains(c.reply.error.text, "resource_missing"))
  {
  }

  /** The initiative's subscriptions in the list's fixed order, and what Stripe can bill. */
  class InitiativeSubscriptions {
    var rows: seq<Sub>
    var billable: set<string>

    /** Stripe issues no empty ID. */
    ghost predicate Valid()
      reads this
    {
      "" !in billable
    }

    constructor (rows: seq<Sub>, billable: set<string>)
      requires "" !in billable
      ensures Valid()
      ensures this.rows == rows && this.billable == billable
    {
      this.rows, this.billable := rows, billable;
    }

    /** One page: launch, wait. `plan(k)` is the k-th move of scheduler and outside world.
        The limit holds throughout (Progress); the page ends, since each move uses up work. */
    method RunPage(subs: seq<Sub>, plan: nat -> Choice) returns (ok: bool, done: seq<Sub>)
      requires Valid()
      modifies this`billable
      ensures Valid()
      ensures |done| == |subs|
      ensures forall j :: 0 <= j < |subs| ==> done[j] == subs[j] || done[j] == subs[j].(status := CANCELED)
      ensures forall j :: 0 <= j < |subs| && done[j] != subs[j] ==> done[j].stripeId == "" || done[j].stripeId !in billable
      ensures billable <= old(billable)
      ensures ok ==> (done, billable) == Sequentially(subs, old(billable), |subs|)
      ensures (forall k :: Kind(plan(k))) ==> ok
    {
      var p := Opened(subs, billable);
      ghost var o := p;
      OpenedProgress(subs, billable);
      var k: nat := 0;
      while Work(p.tasks) > 0
        invariant Progress(o, p)
        invariant (forall k :: Kind(plan(k))) ==> Clean(p)
        decreases Work(p.tasks)
      {
        var c := plan(k);
        var i := Pick(p, c);
        AdvanceProgress(o, p, i, c);
        assert (forall k :: Kind(plan(k))) ==> Kind(c);
        p := Advanced(p, i, c);
        k := k + 1;
      }
      NoWork(p.tasks);
      ok := forall i | 0 <= i < |p.tasks| :: !p.tasks[i].Errored?;
      if ok { AnyScheduleIsSequential(o, p); }
      forall j | 0 <= j < |subs| ensures RowProgress(subs[j], p, j) {}
      billable, done := p.billable, p.subs;
    }

    /** The rows of one page, run and written back. */
    method CancelPage(offset: nat, end: nat, plan: nat -> Choice) returns (ok: bool)
      requires Valid() && offset <= end <= |rows|
      modifies this
      ensures Valid() && |rows| == |old(rows)| && billable <= old(billable)
      ensures forall j :: 0 <= j < |rows| ==> rows[j] == old(rows)[j] || rows[j] == old(rows)[j].(status := CANCELED)
      ensures rows[..offset] == old(rows)[..offset] && rows[end..] == old(rows)[end..]
      ensures old(Safe(rows, billable)) ==> Safe(rows, billable)
      ensures ok ==> (rows[offset..end], billable) == Sequentially(old(rows)[offset..end], old(billable), end - offset)
      ensures (forall m :: Kind(plan(m))) ==> ok
    {
      var subs := rows[offset..end];
      ghost var before := billable;
      var done;
      ok, done := RunPage(subs, plan);
      Splice(rows, offset, end, done, before, billable);
      rows := rows[..offset] + done + rows[end..];
    }

    /** The whole sweep. `wired` is whether a subscription repository was set; `listed(k)`
        whether listing page k succeeds; `plan(k)` drives page k. */
    method CancelAll(wired: bool, listed: nat -> bool, plan: nat -> nat -> Choice) returns (ok: bool)
      requires Valid()
      modifies this
      ensures Valid()
      ensures !wired ==> ok && rows == old(rows) && billable == old(billable)
      // Whatever happens: rows only ever change to canceled, and no canceled row is a lie.
      ensures OnlyCanceled(old(rows), rows) && billable <= old(billable)
      ensures old(Safe(rows, billable)) ==> Safe(rows, billable)
      // Success means every row, of however many pages: canceled here and dead in Stripe.
      ensures wired && ok ==> (rows, billable) == Sequentially(old(rows), old(billable), |old(rows)|)
      ensures wired && ok ==> forall j :: 0 <= j < |rows| ==> rows[j].status == CANCELED
      ensures wired && ok && old(Safe(rows, billable)) ==>
        forall j :: 0 <= j < |rows| ==> rows[j].stripeId !in billable
      // A sweep in which nothing fails finishes, whatever an earlier one left behind.
      ensures (forall k :: listed(k)) && (forall k, m :: Kind(plan(k)(m))) ==> ok
    {
      if !wired { return true; }
      var offset: nat := 0;
      var k: nat := 0;
      while true
        invariant Valid()
        invariant offset <= |rows| == |old(rows)|
        invariant old(Safe(rows, billable)) ==> Safe(rows, billable)
        invariant rows == Marked(old(rows), offset) && billable == old(billable) - LiveIds(old(rows), offset)
        decreases |rows| - offset
      {
        if !listed(k) { return false; }
        var end := if offset + PAGE_SIZE <= |rows| then offset + PAGE_SIZE else |rows|;
        assert forall m :: plan(k)(m) == plan(k)(m);
        ghost var before := rows;
        ok := CancelPage(offset, end, plan(k));
        if !ok { return false; }
        PageJoins(old(rows), old(billable), offset, end);
        assert rows == rows[..offset] + rows[offset..end] + rows[end..];
        if end - offset < PAGE_SIZE {
          SequentiallyMeans(old(rows), old(billable), |old(rows)|);
          return true;
        }
        offset := end;
        k := k + 1;
      }
    }
  }

  /** Each row is as it was or canceled. */
  ghost predicate OnlyCanceled(was: seq<Sub>, now: seq<Sub>) {
    |now| == |was| && forall j :: 0 <= j < |was| ==> now[j] == was[j] || now[j] == was[j].(status := CANCELED)
  }

  /** Writing a page back keeps the table honest. */
  lemma Splice(rows: seq<Sub>, lo: nat, hi: nat, done: seq<Sub>, before: set<string>, after: set<string>)
    requires lo <= hi <= |rows| && |done| == hi - lo && after <= before && "" !in before
    requires forall j :: 0 <= j < |done| ==> done[j] == rows[lo..hi][j] || done[j] == rows[lo..hi][j].(status := CANCELED)
    requires forall j :: 0 <= j < |done| && done[j] != rows[lo..hi][j] ==> done[j].stripeId == "" || done[j].stripeId !in after
    ensures var r := rows[..lo] + done + rows[hi..];
      && |r| == |rows|
      && (forall j :: 0 <= j < |r| ==> r[j] == rows[j] || r[j] == rows[j].(status := CANCELED))
      && (forall j :: hi <= j < |r| ==> r[j] == rows[j])
      && (Safe(rows, before) ==> Safe(r, after))
  {
    var r := rows[..lo] + done + rows[hi..];
    forall j | 0 <= j < |r| ensures r[j] == rows[j] || r[j] == rows[j].(status := CANCELED) {
      if lo <= j < hi { assert r[j] == done[j - lo] && rows[lo..hi][j - lo] == rows[j]; }
    }
    if Safe(rows, before) {
      forall j | 0 <= j < |r| && r[j].status == CANCELED ensures r[j].stripeId !in after {
        if lo <= j < hi { assert r[j] == done[j - lo] && rows[lo..hi][j - lo] == rows[j]; }
      }
    }
  }

  /** Canceling a page of a list sequentially canceled so far continues that list. */
  lemma PageJoins(rows: seq<Sub>, billable: set<string>, lo: nat, hi: nat)
    requires lo <= hi <= |rows|
    ensures var (done, b) := Sequentially(rows[lo..hi], billable - LiveIds(rows, lo), hi - lo);
      && Marked(rows, lo)[..lo] + done + Marked(rows, lo)[hi..] == Marked(rows, hi)
      && b == billable - LiveIds(rows, hi)
      && Marked(rows, lo)[lo..hi] == rows[lo..hi]
  {
    var page := rows[lo..hi];
    SequentiallyMeans(page, billable - LiveIds(rows, lo), hi - lo);
    MarkedJoins(rows, lo, hi);
    LiveJoins(rows, lo, hi);
    assert billable - LiveIds(rows, lo) - LiveIds(page, hi - lo) == billable - LiveIds(rows, hi);
  }

  lemma MarkedJoins(rows: seq<Sub>, lo: nat, hi: nat)
    requires lo <= hi <= |rows|
    ensures Marked(rows, lo)[..lo] + Marked(rows[lo..hi], hi - lo) + Marked(rows, lo)[hi..] == Marked(rows, hi)
    ensures Marked(rows, lo)[lo..hi] == rows[lo..hi]
  {
    var all := Marked(rows, lo)[..lo] + Marked(rows[lo..hi], hi - lo) + Marked(rows, lo)[hi..];
    assert |all| == |rows|;
    forall j | 0 <= j < |rows| ensures all[j] == Marked(rows, hi)[j] {
      if lo <= j < hi { assert all[j] == Marked(rows[lo..hi], hi - lo)[j - lo] && rows[lo..hi][j - lo] == rows[j]; }
    }
  }

  lemma LiveJoins(rows: seq<Sub>, lo: nat, hi: nat)
    requires lo <= hi <= |rows|
    ensures LiveIds(rows, hi) == LiveIds(rows, lo) + LiveIds(rows[lo..hi], hi - lo)
  {
    var page := rows[lo..hi];
    forall id | id in LiveIds(rows, hi) ensures id in LiveIds(rows, lo) + LiveIds(page, hi - lo) {
      var j :| 0 <= j < hi && Live(rows[j]) && rows[j].stripeId == id;
      if j >= lo { assert page[j - lo] == rows[j]; }
    }
    forall id | id in LiveIds(page, hi - lo) ensures id in LiveIds(rows, hi) {
      var j :| 0 <= j < hi - lo && Live(page[j]) && page[j].stripeId == id;
      assert page[j] == rows[lo + j];
    }
  }
}
