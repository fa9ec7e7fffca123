/** The donation payment protocol as a step machine: concurrent DonationService.Create calls,
    concurrent webhook deliveries and redeliveries, crashes and database failures, in any
    order. The webhook's UPDATE and its EXISTS probe are two steps, as they are two SQL
    statements in backend/internal/infrastructure/db/donation_repository.go. */
module Payments {
  import opened Donations
  import opened Webhook

  /** Stripe's answer for an idempotency key, replayed verbatim to later calls. */
  datatype Intent = Intent(pi: string, charge: string)

  datatype CallPc = Charging | Inserting(intent: Intent) | Created(pi: string) | CallFailed
  datatype Call = Call(key: string, cents: int, pc: CallPc)

  datatype Pc = Received | Probing | Posting(sfid: string) | Replying(code: nat) | Answered(code: nat) | Crashed

  /** One delivery of an event. `into` and `outOf` record that its UPDATE changed the row into,
      or out of, succeeded; `posted` that it attempted the Ledger post. */
  datatype Delivery = Delivery(event: Event, pc: Pc, into: bool, outOf: bool, posted: bool)

  datatype World = World(table: Table, intents: map<string, Intent>, calls: seq<Call>,
                         deliveries: seq<Delivery>, posts: seq<LedgerPost>, now: int)

  datatype Step =
    | Tick(seconds: nat)
    | StartCreate(key: string, cents: int)
    | ChargeOk(call: nat, mint: Intent)   // Stripe replays the key's intent, or mints `mint`
    | ChargeError(call: nat)
    | InsertRow(call: nat)
    | InsertError(call: nat)               // also a crash before the insert commits
    | Deliver(event: Event)                // first delivery or redelivery
    | UpdateRow(delivery: nat)
    | UpdateError(delivery: nat)
    | Probe(delivery: nat)
    | ProbeError(delivery: nat)
    | PostLedger(delivery: nat)            // the attempt; a failed post is only logged
    | Reply(delivery: nat)
    | Crash(delivery: nat)
    | StoreSfid(row: nat, sfid: string)

  function Init(now: int): World {
    World([], map[], [], [], [], now)
  }

  predicate PcIs(w: World, d: nat, pc: Pc) {
    d < |w.deliveries| && w.deliveries[d].pc == pc
  }

  predicate Enabled(w: World, s: Step) {
    match s
    case Tick(_) => true
    case StartCreate(_, _) => true
    case ChargeOk(c, mint) =>
      && c < |w.calls| && w.calls[c].pc.Charging?
      && (w.calls[c].key in w.intents ||
          (mint.pi != "" && forall k | k in w.intents :: w.intents[k].pi != mint.pi))
    case ChargeError(c) => c < |w.calls| && w.calls[c].pc.Charging?
    case InsertRow(c) => c < |w.calls| && w.calls[c].pc.Inserting?
    case InsertError(c) => c < |w.calls| && w.calls[c].pc.Inserting?
    case Deliver(_) => true
    case UpdateRow(d) => PcIs(w, d, Received)
    case UpdateError(d) => PcIs(w, d, Received)
    case Probe(d) => PcIs(w, d, Probing)
    case ProbeError(d) => PcIs(w, d, Probing)
    case PostLedger(d) => d < |w.deliveries| && w.deliveries[d].pc.Posting?
    case Reply(d) => d < |w.deliveries| && w.deliveries[d].pc.Replying?
    case Crash(d) => d < |w.deliveries| && !w.deliveries[d].pc.Answered? && !w.deliveries[d].pc.Crashed?
    case StoreSfid(_, _) => true
  }

  function Fail(cfg: Config): Pc {
    Replying(if cfg.ackUnimplemented then 200 else 500)
  }

  /** The delivery after its UPDATE ran against `t`. */
  function AfterUpdate(t: Table, d: Delivery): Delivery {
    var e := d.event;
    if !Exists(t, e.pi) || HasStatus(t, e.pi, Target(e.kind)) then d.(pc := Probing)
    else d.(into := e.kind.PaymentSucceeded?,
            outOf := HasStatus(t, e.pi, Succeeded),
            pc := if PostsToLedger(e) then Posting(t[RowOf(t, e.pi)].sfid) else Replying(200))
  }

  /** The delivery after its probe ran against `t`. */
  function AfterProbe(cfg: Config, now: int, t: Table, d: Delivery): Delivery {
    d.(pc := if !Exists(t, d.event.pi) && AwaitsRow(cfg, now, d.event) then Fail(cfg) else Replying(200))
  }

  function SetCall(w: World, c: nat, pc: CallPc): World
    requires c < |w.calls|
  {
    w.(calls := w.calls[c := w.calls[c].(pc := pc)])
  }

  function SetDelivery(w: World, d: nat, next: Delivery): World
    requires d < |w.deliveries|
  {
    w.(deliveries := w.deliveries[d := next])
  }

  function SetPc(w: World, d: nat, pc: Pc): World
    requires d < |w.deliveries|
  {
    SetDelivery(w, d, w.deliveries[d].(pc := pc))
  }

  function Next(cfg: Config, w: World, s: Step): World
    requires Enabled(w, s)
  {
    match s
    case Tick(seconds) => w.(now := w.now + seconds)
    case StartCreate(key, cents) => w.(calls := w.calls + [Call(key, cents, Charging)])
    case ChargeOk(c, mint) =>
      var key := w.calls[c].key;
      var intent := if key in w.intents then w.intents[key] else mint;
      SetCall(w, c, Inserting(intent)).(intents := w.intents[key := intent])
    case ChargeError(c) => SetCall(w, c, CallFailed)
    case InsertRow(c) =>
      var i := w.calls[c].pc.intent;
      SetCall(w, c, Created(i.pi)).(table := Inserted(w.table, Donation(i.pi, Pending, i.charge, "", w.calls[c].cents)))
    case InsertError(c) => SetCall(w, c, CallFailed)
    case Deliver(e) => w.(deliveries := w.deliveries + [Delivery(e, Received, false, false, false)])
    case UpdateRow(d) =>
      var e := w.deliveries[d].event;
      SetDelivery(w, d, AfterUpdate(w.table, w.deliveries[d]))
        .(table := Moved(w.table, e.pi, Target(e.kind), ChargeOf(e)))
    case UpdateError(d) => SetPc(w, d, Fail(cfg))
    case Probe(d) => SetDelivery(w, d, AfterProbe(cfg, w.now, w.table, w.deliveries[d]))
    case ProbeError(d) => SetPc(w, d, Fail(cfg))
    case PostLedger(d) =>
      var h := w.deliveries[d];
      SetDelivery(w, d, h.(posted := true, pc := Replying(200)))
        .(posts := w.posts + [PostFor(h.event, h.pc.sfid)])
    case Reply(d) => SetPc(w, d, Answered(w.deliveries[d].pc.code))
    case Crash(d) => SetPc(w, d, Crashed)
    case StoreSfid(row, sfid) => w.(table := SfidStored(w.table, row, sfid))
  }

  /** Every list of steps is a run: a step that is not enabled when its turn comes does nothing. */
  function Run(cfg: Config, now: int, steps: seq<Step>): World {
    if steps == [] then Init(now)
    else
      Taken(cfg, Run(cfg, now, steps[..|steps|-1]), steps[|steps|-1])
  }

  function Taken(cfg: Config, w: World, s: Step): World {
    if Enabled(w, s) then Next(cfg, w, s) else w
  }

  lemma RunAppend(cfg: Config, now: int, steps: seq<Step>, s: Step)
    ensures Run(cfg, now, steps + [s]) == Taken(cfg, Run(cfg, now, steps), s)
  {
    assert (steps + [s])[..|steps|] == steps;
  }

  /** What the steps around the webhook do: time passes, requests start and fail, the lookup
      fills an empty SFID, and deliveries arrive, fail and are answered. */
  lemma SurroundingsMean(cfg: Config, w: World, s: Step)
    requires Enabled(w, s)
    ensures var w' := Next(cfg, w, s);
      match s
      case Tick(seconds) => w' == w.(now := w.now + seconds)
      case StartCreate(key, cents) => w'.calls == w.calls + [Call(key, cents, Charging)]
      case ChargeError(c) => w'.calls[c].pc.CallFailed?
      case InsertError(c) => w'.calls[c].pc.CallFailed? && w'.table == w.table
      case Deliver(e) => w'.deliveries == w.deliveries + [Delivery(e, Received, false, false, false)]
      case StoreSfid(row, sfid) => row < |w.table| && w.table[row].sfid == "" ==> w'.table == w.table[row := w.table[row].(sfid := sfid)]
      case UpdateError(d) => w'.deliveries[d].pc == Replying(if cfg.ackUnimplemented then 200 else 500) && w'.table == w.table
      case ProbeError(d) => w'.deliveries[d].pc == Replying(if cfg.ackUnimplemented then 200 else 500)
      case Reply(d) => w'.deliveries[d].pc == Answered(w.deliveries[d].pc.code)
      case Crash(d) => w'.deliveries[d].pc.Crashed? && w'.table == w.table && w'.posts == w.posts
      case _ => true
  {
  }

  /** Whatever is under way may go on, fail or stop, at any time. */
  lemma AnythingMayFail(w: World, e: Event, n: nat)
    ensures forall c :: 0 <= c < |w.calls| && w.calls[c].pc.Charging? ==> Enabled(w, ChargeError(c))
    ensures forall c :: 0 <= c < |w.calls| && w.calls[c].pc.Inserting? ==> Enabled(w, InsertRow(c)) && Enabled(w, InsertError(c))
    ensures forall d :: 0 <= d < |w.deliveries| ==>
      match w.deliveries[d].pc
      case Received => Enabled(w, UpdateRow(d)) && Enabled(w, UpdateError(d)) && Enabled(w, Crash(d))
      case Probing => Enabled(w, Probe(d)) && Enabled(w, ProbeError(d)) && Enabled(w, Crash(d))
      case Posting(_) => Enabled(w, PostLedger(d)) && Enabled(w, Crash(d))
      case Replying(_) => Enabled(w, Reply(d)) && Enabled(w, Crash(d))
      case _ => true
    ensures Enabled(w, Deliver(e)) && Enabled(w, Tick(n))
  {
  }

  /* ---- counting deliveries ---- */

  datatype Mark = Into(pi: string) | OutOf(pi: string) | Posted(pi: string)
    | PostDue(pi: string)      // moved the row, owes a post, has not attempted it (in flight or crashed)
    | NoPostOwed(pi: string)   // moved the row on an event that is never posted

  predicate Has(d: Delivery, m: Mark) {
    d.event.pi == m.pi &&
    match m
    case Into(_) => d.into
    case OutOf(_) => d.outOf
    case Posted(_) => d.posted
    case PostDue(_) => d.into && PostsToLedger(d.event) && !d.posted
    case NoPostOwed(_) => d.into && !PostsToLedger(d.event)
  }

  function Count(ds: seq<Delivery>, m: Mark): nat {
    if ds == [] then 0
    else Count(ds[..|ds|-1], m) + (if Has(ds[|ds|-1], m) then 1 else 0)
  }

  lemma CountAppend(ds: seq<Delivery>, d: Delivery, m: Mark)
    ensures Count(ds + [d], m) == Count(ds, m) + (if Has(d, m) then 1 else 0)
  {
    assert (ds + [d])[..|ds|] == ds;
  }

  lemma {:induction false} CountUpdate(ds: seq<Delivery>, i: nat, d: Delivery, m: Mark)
    requires i < |ds|
    ensures Count(ds[i := d], m) == Count(ds, m) - (if Has(ds[i], m) then 1 else 0) + (if Has(d, m) then 1 else 0)
  {
    var n := |ds| - 1;
    if i == n {
      assert ds[i := d][..n] == ds[..n];
    } else {
      assert ds[i := d][..n] == ds[..n][i := d];
      CountUpdate(ds[..n], i, d, m);
    }
  }

  lemma {:induction false} CountPositive(ds: seq<Delivery>, i: nat, m: Mark)
    requires i < |ds| && Has(ds[i], m)
    ensures Count(ds, m) > 0
  {
    if i < |ds| - 1 { CountPositive(ds[..|ds|-1], i, m); }
  }

  lemma {:induction false} CountZero(ds: seq<Delivery>, m: Mark)
    requires forall i :: 0 <= i < |ds| ==> !Has(ds[i], m)
    ensures Count(ds, m) == 0
  {
    if ds != [] { CountZero(ds[..|ds|-1], m); }
  }

  function PostsFor(posts: seq<LedgerPost>, pi: string): nat {
    if posts == [] then 0
    else PostsFor(posts[..|posts|-1], pi) + (if posts[|posts|-1].pi == pi then 1 else 0)
  }

  /* ---- what every step keeps ---- */

  /** A delivery's flags agree with where it stands. */
  predicate Consistent(d: Delivery) {
    && (d.pc.Received? || d.pc.Probing? ==> !d.into && !d.outOf && !d.posted)
    && (d.into ==> d.event.kind.PaymentSucceeded? && !d.outOf)
    && (d.outOf ==> d.event.kind.PaymentFailed?)
    && (d.posted ==> d.into && PostsToLedger(d.event))
    && (d.pc.Posting? ==> d.into && PostsToLedger(d.event) && !d.posted)
    && (d.into && PostsToLedger(d.event) && (d.pc.Replying? || d.pc.Answered?) ==> d.posted)
  }

  /** A delivery answered (or about to be answered) 200. */
  predicate Acked(d: Delivery) {
    d.pc == Replying(200) || d.pc == Answered(200)
  }

  /** Entries into succeeded minus departures from it is one for a row that is succeeded, else zero. */
  ghost predicate Conserved(w: World, pi: string) {
    && Count(w.deliveries, Into(pi)) == Count(w.deliveries, OutOf(pi)) + (if HasStatus(w.table, pi, Succeeded) then 1 else 0)
    && PostsFor(w.posts, pi) == Count(w.deliveries, Posted(pi))
    && Count(w.deliveries, Into(pi)) == Count(w.deliveries, Posted(pi)) + Count(w.deliveries, PostDue(pi))
                                        + Count(w.deliveries, NoPostOwed(pi))
  }

  ghost predicate MintedPi(intents: map<string, Intent>, pi: string) {
    exists k :: k in intents && intents[k].pi == pi
  }

  predicate CallMatches(intents: map<string, Intent>, t: Table, c: Call) {
    match c.pc
    case Inserting(i) => c.key in intents && intents[c.key] == i
    case Created(pi) => c.key in intents && intents[c.key].pi == pi && Exists(t, pi)
    case _ => true
  }

  /** Rows come from minted intents, one intent per key. */
  ghost predicate Minted(intents: map<string, Intent>, t: Table, calls: seq<Call>) {
    && (forall k, k' | k in intents && k' in intents && intents[k].pi == intents[k'].pi :: k == k')
    && (forall k | k in intents :: intents[k].pi != "")
    && (forall i :: 0 <= i < |t| ==> MintedPi(intents, t[i].pi))
    && (forall c :: 0 <= c < |calls| ==> CallMatches(intents, t, calls[c]))
  }

  predicate V2Success(e: Event) {
    e.kind.PaymentSucceeded? && e.version == "v2"
  }

  ghost predicate AllConsistent(ds: seq<Delivery>) {
    forall i :: 0 <= i < |ds| ==> Consistent(ds[i])
  }

  ghost predicate Inv(w: World) {
    && OnePerIntent(w.table)
    && Minted(w.intents, w.table, w.calls)
    && AllConsistent(w.deliveries)
    && (forall pi :: Conserved(w, pi))
  }

  /** One delivery changes, keeping its event and its past; the books still balance for its
      own payment intent and nothing moved for any other. */
  ghost predicate OneDelivery(w: World, w': World, d: nat) {
    && d < |w.deliveries| == |w'.deliveries|
    && w'.deliveries == w.deliveries[d := w'.deliveries[d]]
    && w'.deliveries[d].event == w.deliveries[d].event
    && (w.deliveries[d].into ==> w'.deliveries[d].into)
    && w'.now == w.now && w'.intents == w.intents && w'.calls == w.calls
    && (forall p :: p != w.deliveries[d].event.pi ==>
          HasStatus(w'.table, p, Succeeded) == HasStatus(w.table, p, Succeeded))
    && (forall p :: p != w.deliveries[d].event.pi ==> PostsFor(w'.posts, p) == PostsFor(w.posts, p))
  }

  lemma CountsAfter(w: World, w': World, d: nat, m: Mark)
    requires OneDelivery(w, w', d)
    ensures Count(w'.deliveries, m) == Count(w.deliveries, m)
              - (if Has(w.deliveries[d], m) then 1 else 0) + (if Has(w'.deliveries[d], m) then 1 else 0)
  {
    CountUpdate(w.deliveries, d, w'.deliveries[d], m);
  }

  lemma OneDeliveryConserves(w: World, w': World, d: nat, p: string)
    requires OneDelivery(w, w', d) && Conserved(w, p)
    requires Consistent(w.deliveries[d]) && Consistent(w'.deliveries[d])
    requires p == w.deliveries[d].event.pi ==>
      var h, h' := w.deliveries[d], w'.deliveries[d];
      && (if h'.into then 1 else 0) - (if h.into then 1 else 0) - (if h'.outOf then 1 else 0) + (if h.outOf then 1 else 0)
         == (if HasStatus(w'.table, p, Succeeded) then 1 else 0) - (if HasStatus(w.table, p, Succeeded) then 1 else 0)
      && PostsFor(w'.posts, p) - PostsFor(w.posts, p) == (if h'.posted then 1 else 0) - (if h.posted then 1 else 0)
    ensures Conserved(w', p)
  {
    CountsAfter(w, w', d, Into(p));
    CountsAfter(w, w', d, OutOf(p));
    CountsAfter(w, w', d, Posted(p));
    CountsAfter(w, w', d, PostDue(p));
    CountsAfter(w, w', d, NoPostOwed(p));
  }

  lemma DeliveryStepKeepsInv(w: World, w': World, d: nat)
    requires Inv(w) && OneDelivery(w, w', d)
    requires OnePerIntent(w'.table) && Minted(w'.intents, w'.table, w'.calls) && Consistent(w'.deliveries[d])
    requires var p := w.deliveries[d].event.pi; var h, h' := w.deliveries[d], w'.deliveries[d];
      && (if h'.into then 1 else 0) - (if h.into then 1 else 0) - (if h'.outOf then 1 else 0) + (if h.outOf then 1 else 0)
         == (if HasStatus(w'.table, p, Succeeded) then 1 else 0) - (if HasStatus(w.table, p, Succeeded) then 1 else 0)
      && PostsFor(w'.posts, p) - PostsFor(w.posts, p) == (if h'.posted then 1 else 0) - (if h.posted then 1 else 0)
    ensures Inv(w')
  {
    forall p ensures Conserved(w', p) { OneDeliveryConserves(w, w', d, p); }
  }

  lemma SameRowsStillMinted(intents: map<string, Intent>, t: Table, t': Table, calls: seq<Call>)
    requires Minted(intents, t, calls)
    requires |t| == |t'| && forall i :: 0 <= i < |t| ==> t'[i].pi == t[i].pi
    ensures Minted(intents, t', calls)
  {
    forall c | 0 <= c < |calls| ensures CallMatches(intents, t', calls[c]) {
      assert CallMatches(intents, t, calls[c]);
      if calls[c].pc.Created? { SameIntentsSameRow(t, t', calls[c].pc.pi); }
    }
    forall i | 0 <= i < |t| ensures MintedPi(intents, t'[i].pi) { assert MintedPi(intents, t[i].pi); }
  }

  lemma UpdateRowKeepsInv(cfg: Config, w: World, d: nat)
    requires Inv(w) && Enabled(w, UpdateRow(d))
    ensures Inv(Next(cfg, w, UpdateRow(d)))
  {
    var h := w.deliveries[d];
    var e := h.event;
    var w' := Next(cfg, w, UpdateRow(d));
    MoveIsExact(w.table, e.pi, Target(e.kind), ChargeOf(e));
    forall p | p != e.pi ensures HasStatus(w'.table, p, Succeeded) == HasStatus(w.table, p, Succeeded) {
      if Exists(w.table, p) { assert RowOf(w.table, p) != RowOf(w.table, e.pi); }
    }
    SameRowsStillMinted(w.intents, w.table, w'.table, w.calls);
    DeliveryStepKeepsInv(w, w', d);
  }

  lemma ProbeKeepsInv(cfg: Config, w: World, d: nat)
    requires Inv(w) && Enabled(w, Probe(d))
    ensures Inv(Next(cfg, w, Probe(d)))
  {
    var w' := Next(cfg, w, Probe(d));
    DeliveryStepKeepsInv(w, w', d);
  }

  lemma PostLedgerKeepsInv(cfg: Config, w: World, d: nat)
    requires Inv(w) && Enabled(w, PostLedger(d))
    ensures Inv(Next(cfg, w, PostLedger(d)))
  {
    var w' := Next(cfg, w, PostLedger(d));
    var h := w.deliveries[d];
    assert w'.posts[..|w'.posts|-1] == w.posts;
    DeliveryStepKeepsInv(w, w', d);
  }

  /** Steps of a delivery that only move its program counter. */
  lemma PcStepKeepsInv(cfg: Config, w: World, s: Step)
    requires Inv(w) && Enabled(w, s)
    requires s.UpdateError? || s.ProbeError? || s.Reply? || s.Crash?
    ensures Inv(Next(cfg, w, s))
  {
    var d := s.delivery;
    var w' := Next(cfg, w, s);
    DeliveryStepKeepsInv(w, w', d);
  }

  lemma DeliverKeepsInv(cfg: Config, w: World, e: Event)
    requires Inv(w)
    ensures Inv(Next(cfg, w, Deliver(e)))
  {
    var w' := Next(cfg, w, Deliver(e));
    var d := w'.deliveries[|w.deliveries|];
    forall m: Mark ensures Count(w'.deliveries, m) == Count(w.deliveries, m) { CountAppend(w.deliveries, d, m); }
    forall p ensures Conserved(w', p) { assert Conserved(w, p); }
  }

  lemma InsertRowKeepsInv(cfg: Config, w: World, c: nat)
    requires Inv(w) && Enabled(w, InsertRow(c))
    ensures Inv(Next(cfg, w, InsertRow(c)))
  {
    var i := w.calls[c].pc.intent;
    var d := Donation(i.pi, Pending, i.charge, "", w.calls[c].cents);
    var w' := Next(cfg, w, InsertRow(c));
    InsertReplays(w.table, d);
    forall p ensures Conserved(w', p) { assert Conserved(w, p); }
    assert CallMatches(w.intents, w.table, w.calls[c]);
    assert MintedPi(w.intents, i.pi);
    forall k | 0 <= k < |w'.calls| ensures CallMatches(w'.intents, w'.table, w'.calls[k]) {
      assert CallMatches(w.intents, w.table, w.calls[k]);
    }
  }

  lemma ChargeOkKeepsInv(cfg: Config, w: World, s: Step)
    requires Inv(w) && s.ChargeOk? && Enabled(w, s)
    ensures Inv(Next(cfg, w, s))
  {
    var w' := Next(cfg, w, s);
    forall p ensures Conserved(w', p) { assert Conserved(w, p); }
    forall r | 0 <= r < |w'.table| ensures MintedPi(w'.intents, w'.table[r].pi) {
      assert MintedPi(w.intents, w.table[r].pi);
      var k :| k in w.intents && w.intents[k].pi == w.table[r].pi;
      assert k in w'.intents && w'.intents[k].pi == w'.table[r].pi;
    }
    forall k | 0 <= k < |w'.calls| ensures CallMatches(w'.intents, w'.table, w'.calls[k]) {
      assert CallMatches(w.intents, w.table, w.calls[k]);
    }
  }

  lemma StoreSfidKeepsInv(cfg: Config, w: World, row: nat, sfid: string)
    requires Inv(w)
    ensures Inv(Next(cfg, w, StoreSfid(row, sfid)))
  {
    var w' := Next(cfg, w, StoreSfid(row, sfid));
    forall p ensures RowOf(w'.table, p) == RowOf(w.table, p) { SameIntentsSameRow(w.table, w'.table, p); }
    forall p ensures Conserved(w', p) { assert Conserved(w, p); }
    SameRowsStillMinted(w.intents, w.table, w'.table, w.calls);
  }

  lemma NextKeepsInv(cfg: Config, w: World, s: Step)
    requires Inv(w) && Enabled(w, s)
    ensures Inv(Next(cfg, w, s))
  {
    match s
    case UpdateRow(d) => UpdateRowKeepsInv(cfg, w, d);
    case Probe(d) => ProbeKeepsInv(cfg, w, d);
    case PostLedger(d) => PostLedgerKeepsInv(cfg, w, d);
    case UpdateError(_) => PcStepKeepsInv(cfg, w, s);
    case ProbeError(_) => PcStepKeepsInv(cfg, w, s);
    case Reply(_) => PcStepKeepsInv(cfg, w, s);
    case Crash(_) => PcStepKeepsInv(cfg, w, s);
    case Deliver(e) => DeliverKeepsInv(cfg, w, e);
    case InsertRow(c) => InsertRowKeepsInv(cfg, w, c);
    case ChargeOk(_, _) => ChargeOkKeepsInv(cfg, w, s);
    case StoreSfid(row, sfid) => StoreSfidKeepsInv(cfg, w, row, sfid);
    case _ =>
      var w' := Next(cfg, w, s);
      forall p ensures Conserved(w', p) { assert Conserved(w, p); }
  }

  lemma {:induction false} RunKeepsInv(cfg: Config, now: int, steps: seq<Step>)
    ensures Inv(Run(cfg, now, steps))
  {
    if steps != [] {
      RunKeepsInv(cfg, now, steps[..|steps|-1]);
      var w := Run(cfg, now, steps[..|steps|-1]);
      if Enabled(w, steps[|steps|-1]) { NextKeepsInv(cfg, w, steps[|steps|-1]); }
    }
  }

  /* ---- posting to the Ledger ---- */

  /** The books: every entry of a donation into succeeded was posted once, or is still owed
      (its delivery is between the two or crashed there), or belongs to an event never posted. */
  lemma PostingBooks(cfg: Config, now: int, steps: seq<Step>, pi: string)
    ensures var w := Run(cfg, now, steps);
      && PostsFor(w.posts, pi) <= Count(w.deliveries, Into(pi))
      && Count(w.deliveries, Into(pi)) ==
           PostsFor(w.posts, pi) + Count(w.deliveries, PostDue(pi)) + Count(w.deliveries, NoPostOwed(pi))
      && Count(w.deliveries, Into(pi)) ==
           Count(w.deliveries, OutOf(pi)) + (if HasStatus(w.table, pi, Succeeded) then 1 else 0)
  {
    RunKeepsInv(cfg, now, steps);
    assert Conserved(Run(cfg, now, steps), pi);
  }

  /** Once every delivery has been answered and none crashed, and the donation's success
      events are v2 with both IDs, posts equal entries into succeeded. */
  lemma EveryEntryPosted(cfg: Config, now: int, steps: seq<Step>, pi: string)
    requires var w := Run(cfg, now, steps);
      forall i :: 0 <= i < |w.deliveries| && w.deliveries[i].event.pi == pi ==>
        && w.deliveries[i].pc.Answered?
        && (w.deliveries[i].event.kind.PaymentSucceeded? ==> PostsToLedger(w.deliveries[i].event))
    ensures var w := Run(cfg, now, steps); PostsFor(w.posts, pi) == Count(w.deliveries, Into(pi))
  {
    var w := Run(cfg, now, steps);
    RunKeepsInv(cfg, now, steps);
    PostingBooks(cfg, now, steps, pi);
    forall i | 0 <= i < |w.deliveries| ensures !Has(w.deliveries[i], PostDue(pi)) && !Has(w.deliveries[i], NoPostOwed(pi)) {
      assert Consistent(w.deliveries[i]);
    }
    CountZero(w.deliveries, PostDue(pi));
    CountZero(w.deliveries, NoPostOwed(pi));
  }

  /** Whose post it is: that of a delivery that moved the row, field by field. */
  ghost predicate PostOf(p: LedgerPost, h: Delivery) {
    && h.into && h.posted && h.event.kind.PaymentSucceeded? && h.event.version == "v2"
    && p.pi == h.event.pi && p.projectId == h.event.initiativeId != "" && p.userId == h.event.userId != ""
    && p.amount == h.event.amount && p.sourceTxn == (if h.event.charge != "" then h.event.charge else h.event.pi)
  }

  /** An SFID read from the row of pi is the row's for good. */
  predicate SfidOfRow(t: Table, pi: string, sfid: string) {
    sfid != "" ==> Exists(t, pi) && t[RowOf(t, pi)].sfid == sfid
  }

  ghost predicate PostIsTrue(w: World, k: nat)
    requires k < |w.posts|
  {
    SfidOfRow(w.table, w.posts[k].pi, w.posts[k].sfid) && exists d :: 0 <= d < |w.deliveries| && PostOf(w.posts[k], w.deliveries[d])
  }

  ghost predicate PostsAreTrue(w: World) {
    && (forall k :: 0 <= k < |w.posts| ==> PostIsTrue(w, k))
    && (forall d :: 0 <= d < |w.deliveries| && w.deliveries[d].pc.Posting? ==>
          SfidOfRow(w.table, w.deliveries[d].event.pi, w.deliveries[d].pc.sfid))
  }

  lemma StepKeepsSfid(cfg: Config, w: World, s: Step, pi: string, sfid: string)
    requires Inv(w) && Enabled(w, s) && SfidOfRow(w.table, pi, sfid)
    ensures SfidOfRow(Next(cfg, w, s).table, pi, sfid)
  {
    var w' := Next(cfg, w, s);
    if sfid != "" {
      var r := RowOf(w.table, pi);
      RowsOnlyGrow(cfg, w, s, r);
      NextKeepsInv(cfg, w, s);
      TheRow(w'.table, pi, r);
    }
  }

  lemma StepKeepsPost(cfg: Config, w: World, s: Step, k: nat)
    requires Inv(w) && Enabled(w, s) && k < |w.posts| && PostIsTrue(w, k)
    ensures k < |Next(cfg, w, s).posts| && PostIsTrue(Next(cfg, w, s), k)
  {
    var w' := Next(cfg, w, s);
    StepKeepsSfid(cfg, w, s, w.posts[k].pi, w.posts[k].sfid);
    var d :| 0 <= d < |w.deliveries| && PostOf(w.posts[k], w.deliveries[d]);
    assert Consistent(w.deliveries[d]);
    assert w'.posts[k] == w.posts[k] && PostOf(w.posts[k], w'.deliveries[d]);
  }

  lemma StepKeepsPosts(cfg: Config, w: World, s: Step)
    requires Inv(w) && PostsAreTrue(w) && Enabled(w, s)
    ensures PostsAreTrue(Next(cfg, w, s))
  {
    var w' := Next(cfg, w, s);
    forall k | 0 <= k < |w'.posts| ensures PostIsTrue(w', k) {
      if k < |w.posts| {
        StepKeepsPost(cfg, w, s, k);
      } else {
        var h := w.deliveries[s.delivery];
        assert Consistent(h);
        assert PostOf(w'.posts[k], w'.deliveries[s.delivery]);
      }
    }
    forall d | 0 <= d < |w'.deliveries| && w'.deliveries[d].pc.Posting?
      ensures SfidOfRow(w'.table, w'.deliveries[d].event.pi, w'.deliveries[d].pc.sfid)
    {
      if s == UpdateRow(d) {
        MoveIsExact(w.table, w.deliveries[d].event.pi, Target(w.deliveries[d].event.kind), ChargeOf(w.deliveries[d].event));
      } else {
        StepKeepsSfid(cfg, w, s, w'.deliveries[d].event.pi, w'.deliveries[d].pc.sfid);
      }
    }
  }

  /** Over every run: each post is that of a delivery of a complete v2 success that moved the
      row. It has the event's project, donor, amount and payment intent, its charge (or, without
      one, the intent) as deduplication key, and the row's SFID or, if the row had none, none. */
  lemma {:induction false} EveryPostIsTrue(cfg: Config, now: int, steps: seq<Step>)
    ensures var w := Run(cfg, now, steps);
      PostsAreTrue(w) && forall k :: 0 <= k < |w.posts| ==> exists d :: 0 <= d < |w.deliveries| && PostOf(w.posts[k], w.deliveries[d])
  {
    if steps != [] {
      var p := steps[..|steps|-1];
      EveryPostIsTrue(cfg, now, p);
      RunKeepsInv(cfg, now, p);
      if Enabled(Run(cfg, now, p), steps[|p|]) { StepKeepsPosts(cfg, Run(cfg, now, p), steps[|p|]); }
    }
    forall k | 0 <= k < |Run(cfg, now, steps).posts|
      ensures exists d :: 0 <= d < |Run(cfg, now, steps).deliveries| && PostOf(Run(cfg, now, steps).posts[k], Run(cfg, now, steps).deliveries[d])
    {
      assert PostIsTrue(Run(cfg, now, steps), k);
    }
  }

  /* ---- replay safety ---- */

  /** No step removes a row, changes whose payment it is, empties a stored charge ID or SFID,
      or, unless it is a webhook UPDATE, changes a status. */
  lemma RowsOnlyGrow(cfg: Config, w: World, s: Step, r: nat)
    requires Inv(w) && Enabled(w, s) && r < |w.table|
    ensures var w' := Next(cfg, w, s);
      && r < |w'.table| && w'.table[r].pi == w.table[r].pi && w'.table[r].cents == w.table[r].cents
      && (w.table[r].charge != "" ==> w'.table[r].charge != "")
      && (w.table[r].sfid != "" ==> w'.table[r].sfid == w.table[r].sfid)
      && (!s.UpdateRow? ==> w'.table[r].status == w.table[r].status && w'.table[r].charge == w.table[r].charge)
  {
    if s.UpdateRow? {
      var e := w.deliveries[s.delivery].event;
      MoveIsExact(w.table, e.pi, Target(e.kind), ChargeOf(e));
    }
  }

  /** Some request for this payment intent asked for the amount. */
  ghost predicate AskedFor(w: World, d: Donation) {
    exists c :: 0 <= c < |w.calls| && w.calls[c].pc == Created(d.pi) && w.calls[c].cents == d.cents
  }

  /** Stripe gave the charge, with the intent or with a success event that moved the row. */
  ghost predicate ChargedBy(w: World, pi: string, charge: string) {
    || charge == ""
    || (exists k :: k in w.intents && w.intents[k] == Intent(pi, charge))
    || (exists h :: 0 <= h < |w.deliveries| && ChargedIn(w.deliveries[h], pi, charge))
  }

  predicate ChargedIn(h: Delivery, pi: string, charge: string) {
    h.into && h.event.pi == pi && h.event.charge == charge
  }

  ghost predicate RowsAreAsked(w: World) {
    forall r :: 0 <= r < |w.table| ==> AskedFor(w, w.table[r]) && ChargedBy(w, w.table[r].pi, w.table[r].charge)
  }

  lemma StepKeepsAsked(cfg: Config, w: World, s: Step, d: Donation)
    requires Inv(w) && Enabled(w, s) && AskedFor(w, d)
    ensures AskedFor(Next(cfg, w, s), d)
  {
    var c :| 0 <= c < |w.calls| && w.calls[c].pc == Created(d.pi) && w.calls[c].cents == d.cents;
    assert Next(cfg, w, s).calls[c] == w.calls[c];
  }

  lemma IntoStays(cfg: Config, w: World, s: Step, h: nat)
    requires Inv(w) && Enabled(w, s) && h < |w.deliveries| && w.deliveries[h].into
    ensures var w' := Next(cfg, w, s);
      h < |w'.deliveries| && w'.deliveries[h].into && w'.deliveries[h].event == w.deliveries[h].event
  {
    assert Consistent(w.deliveries[h]);
  }

  lemma IntentStays(cfg: Config, w: World, s: Step, k: string)
    requires Enabled(w, s) && k in w.intents
    ensures k in Next(cfg, w, s).intents && Next(cfg, w, s).intents[k] == w.intents[k]
  {
  }

  lemma StepKeepsCharged(cfg: Config, w: World, s: Step, pi: string, charge: string)
    requires Inv(w) && Enabled(w, s) && ChargedBy(w, pi, charge)
    ensures ChargedBy(Next(cfg, w, s), pi, charge)
  {
    if k :| k in w.intents && w.intents[k] == Intent(pi, charge) {
      IntentStays(cfg, w, s, k);
    } else if charge != "" {
      var h :| 0 <= h < |w.deliveries| && ChargedIn(w.deliveries[h], pi, charge);
      IntoStays(cfg, w, s, h);
      assert ChargedIn(Next(cfg, w, s).deliveries[h], pi, charge);
    }
  }

  /** A new row has its call's amount and its intent's charge; a moved one may have the event's charge. */
  lemma NewColumns(cfg: Config, w: World, s: Step, r: nat)
    requires Inv(w) && RowsAreAsked(w) && Enabled(w, s) && r < |Next(cfg, w, s).table|
    ensures var w' := Next(cfg, w, s); AskedFor(w', w'.table[r]) && ChargedBy(w', w'.table[r].pi, w'.table[r].charge)
  {
    var w' := Next(cfg, w, s);
    if r < |w.table| {
      RowsOnlyGrow(cfg, w, s, r);
      StepKeepsAsked(cfg, w, s, w.table[r]);
      StepKeepsCharged(cfg, w, s, w.table[r].pi, w.table[r].charge);
      if s.UpdateRow? && w'.table[r].charge != w.table[r].charge {
        MovedCharge(cfg, w, s.delivery, r);
      }
    } else {
      var i := w.calls[s.call].pc.intent;
      assert CallMatches(w.intents, w.table, w.calls[s.call]);
      assert w'.intents[w.calls[s.call].key] == Intent(w'.table[r].pi, w'.table[r].charge);
      assert w'.calls[s.call].pc == Created(w'.table[r].pi);
    }
  }

  lemma MovedCharge(cfg: Config, w: World, d: nat, r: nat)
    requires Inv(w) && Enabled(w, UpdateRow(d)) && r < |w.table|
    requires Next(cfg, w, UpdateRow(d)).table[r].charge != w.table[r].charge
    ensures var w' := Next(cfg, w, UpdateRow(d)); ChargedIn(w'.deliveries[d], w'.table[r].pi, w'.table[r].charge)
  {
    var e := w.deliveries[d].event;
    MoveIsExact(w.table, e.pi, Target(e.kind), ChargeOf(e));
    assert r == RowOf(w.table, e.pi);
  }

  lemma StepKeepsRowsAsked(cfg: Config, w: World, s: Step)
    requires Inv(w) && RowsAreAsked(w)
    ensures RowsAreAsked(Taken(cfg, w, s))
  {
    if Enabled(w, s) {
      var w' := Next(cfg, w, s);
      forall r | 0 <= r < |w'.table| ensures AskedFor(w', w'.table[r]) && ChargedBy(w', w'.table[r].pi, w'.table[r].charge) {
        NewColumns(cfg, w, s, r);
      }
    }
  }

  /** Over every run a donation's amount is that of a finished request for it, and its charge
      one that Stripe gave for it. */
  lemma {:induction false} EveryRowIsAsked(cfg: Config, now: int, steps: seq<Step>)
    ensures RowsAreAsked(Run(cfg, now, steps))
  {
    if steps != [] {
      var w := Run(cfg, now, steps[..|steps|-1]);
      EveryRowIsAsked(cfg, now, steps[..|steps|-1]);
      RunKeepsInv(cfg, now, steps[..|steps|-1]);
      StepKeepsRowsAsked(cfg, w, steps[|steps|-1]);
      assert Run(cfg, now, steps) == Taken(cfg, w, steps[|steps|-1]);
    }
  }

  /** Replaying an idempotency key never adds a donation: calls with one key that both
      returned share the one row, and different keys never share a row. */
  lemma OneDonationPerKey(cfg: Config, now: int, steps: seq<Step>, a: nat, b: nat)
    requires var w := Run(cfg, now, steps);
      a < |w.calls| && b < |w.calls| && w.calls[a].pc.Created? && w.calls[b].pc.Created?
    ensures var w := Run(cfg, now, steps); var (pa, pb) := (w.calls[a].pc.pi, w.calls[b].pc.pi);
      && Exists(w.table, pa) && Exists(w.table, pb)
      && (w.calls[a].key == w.calls[b].key <==> RowOf(w.table, pa) == RowOf(w.table, pb))
      && (forall i :: 0 <= i < |w.table| && w.table[i].pi == pa ==> i == RowOf(w.table, pa))
  {
    var w := Run(cfg, now, steps);
    RunKeepsInv(cfg, now, steps);
    assert CallMatches(w.intents, w.table, w.calls[a]) && CallMatches(w.intents, w.table, w.calls[b]);
    forall i | 0 <= i < |w.table| && w.table[i].pi == w.calls[a].pc.pi ensures i == RowOf(w.table, w.calls[a].pc.pi) {
      TheRow(w.table, w.calls[a].pc.pi, i);
    }
  }

  /* ---- the machine and the handler agree ---- */

  function Probed(cfg: Config, w: World, d: nat): (w': World)
    requires d < |w.deliveries|
    ensures |w'.deliveries| == |w.deliveries| && w'.table == w.table && w'.posts == w.posts
    ensures var h := w.deliveries[d];
      w'.deliveries[d] == if h.pc.Probing? then AfterProbe(cfg, w.now, w.table, h) else h
  {
    if w.deliveries[d].pc.Probing? then Next(cfg, w, Probe(d)) else w
  }

  function PostedTo(cfg: Config, w: World, d: nat): (w': World)
    requires d < |w.deliveries|
    ensures |w'.deliveries| == |w.deliveries| && w'.table == w.table
    ensures var h := w.deliveries[d];
      if h.pc.Posting? then
        w'.deliveries[d].pc == Replying(200) && w'.posts == w.posts + [PostFor(h.event, h.pc.sfid)]
      else w'.deliveries[d] == h && w'.posts == w.posts
  {
    if w.deliveries[d].pc.Posting? then Next(cfg, w, PostLedger(d)) else w
  }

  /** One delivery run to its answer with no failure and nothing in between. */
  function Undisturbed(cfg: Config, w: World, d: nat): (w': World)
    requires Enabled(w, UpdateRow(d))
    ensures |w'.deliveries| == |w.deliveries|
  {
    Next(cfg, PostedTo(cfg, Probed(cfg, Next(cfg, w, UpdateRow(d)), d), d), Reply(d))
  }

  /** The outcome o is what UpdateByPaymentIntentID promises for the delivery. */
  predicate Outcome(w: World, d: nat, o: UpdateOutcome)
    requires d < |w.deliveries| && OnePerIntent(w.table)
  {
    var e := w.deliveries[d].event; var t := w.table;
    && (o.Updated? <==> Exists(t, e.pi) && !HasStatus(t, e.pi, Target(e.kind)))
    && (o.Updated? ==> o.sfid == t[RowOf(t, e.pi)].sfid)
    && (o.AlreadyProcessed? <==> HasStatus(t, e.pi, Target(e.kind)))
    && (o.NotFound? <==> !Exists(t, e.pi))
  }

  /** It does what WebhookHandler.Dispatch promises: same rows, same post, same answer. */
  lemma UndisturbedIsDispatch(cfg: Config, w: World, d: nat, o: UpdateOutcome)
    requires Inv(w) && Enabled(w, UpdateRow(d)) && Outcome(w, d, o)
    ensures var e := w.deliveries[d].event; var w' := Undisturbed(cfg, w, d);
      && w'.deliveries[d].pc == Answered(Owed(cfg, w.now, e, o))
      && w'.table == Moved(w.table, e.pi, Target(e.kind), ChargeOf(e))
      && w'.posts == w.posts + (if o.Updated? && PostsToLedger(e) then [PostFor(e, o.sfid)] else [])
  {
    var e := w.deliveries[d].event;
    MoveReaches(w.table, e.pi, Target(e.kind), ChargeOf(e));
  }

  lemma MoveReaches(t: Table, pi: string, to: Status, charge: string)
    requires OnePerIntent(t)
    ensures var t' := Moved(t, pi, to, charge);
      && (Exists(t', pi) <==> Exists(t, pi))
      && (Exists(t, pi) ==> HasStatus(t', pi, to))
      && (!Exists(t, pi) || HasStatus(t, pi, to) ==> t' == t)
  {
    MoveIsExact(t, pi, to, charge);
  }

  /** A retry heals: delivered undisturbed once the row is there, a success event is answered
      200 and leaves the row succeeded. */
  lemma RetryConverges(cfg: Config, w: World, d: nat)
    requires Inv(w) && Enabled(w, UpdateRow(d))
    requires w.deliveries[d].event.kind.PaymentSucceeded? && Exists(w.table, w.deliveries[d].event.pi)
    ensures var w' := Undisturbed(cfg, w, d);
      w'.deliveries[d].pc == Answered(200) && HasStatus(w'.table, w.deliveries[d].event.pi, Succeeded)
  {
    var e, t := w.deliveries[d].event, w.table;
    MoveReaches(t, e.pi, Succeeded, ChargeOf(e));
    var o := if HasStatus(t, e.pi, Succeeded) then AlreadyProcessed else Updated(t[RowOf(t, e.pi)].sfid);
    UndisturbedIsDispatch(cfg, w, d, o);
  }
}
