/** Filling b2b_org SFIDs on subscriptions: the live resolver after checkout, the backfill job
    and Stripe's metadata, with any number of them at work on the same rows and any of them
    stopping between two writes.
    Model of resolveB2BOrg and its subscription callback (backend/internal/service/b2b_org.go,
    subscription_service.go), UpdateSubscriptionMetadata (clients/stripe_client.go), and one
    subscription's share of the backfill (backend/cmd/b2b-org-backfill). */
module SfidFill {

  const CANCELED := "canceled"

  /** A subscription row. "" stands for NULL in stripeId, itemId and sfid. */
  datatype Row = Row(domain: string, status: string, stripeId: string, itemId: string, sfid: string)

  /** Stripe's side: SFID metadata by subscription and by (subscription, item), the items each
      subscription has, and the subscriptions that are canceled or incomplete_expired there. */
  datatype Stripe = Stripe(meta: map<string, string>, itemMeta: map<(string, string), string>,
                           items: map<string, seq<string>>, ended: set<string>)

  function SubPatched(s: Stripe, id: string, sfid: string): Stripe {
    s.(meta := s.meta[id := sfid])
  }

  function ItemPatched(s: Stripe, id: string, item: string, sfid: string): Stripe {
    s.(itemMeta := s.itemMeta[(id, item) := sfid])
  }

  function ItemsOf(s: Stripe, id: string): seq<string> {
    if id in s.items then s.items[id] else []
  }

  /** The stored item if the subscription still has it, else its first, else "". */
  method FindCurrentItem(items: seq<string>, stored: string) returns (item: string)
    ensures item == CurrentItem(items, stored)
    ensures items != [] ==> item in items
    ensures stored in items ==> item == stored
    ensures stored !in items && items != [] ==> item == items[0]
    ensures items == [] ==> item == ""
  {
    if |items| == 0 { return ""; }
    for i := 0 to |items|
      invariant stored !in items[..i]
    {
      if items[i] == stored { return items[i]; }
    }
    item := items[0];
  }

  function CurrentItem(items: seq<string>, stored: string): string {
    if items == [] then "" else if stored in items then stored else items[0]
  }

  function Filled(rows: seq<Row>, r: nat, sfid: string): seq<Row> {
    if r < |rows| && rows[r].sfid == "" then rows[r := rows[r].(sfid := sfid)] else rows
  }

  /* ---- the machine ---- */

  datatype Pc =
    | LookingUp                     // live: before the lookup answers
    | PatchingSub(sfid: string)     // live: subscription first ...
    | PatchingItem(sfid: string)    // ... then its item, if an item ID is stored
    | Checking(sfid: string)        // backfill: the domain matched, the row was listed
    | PatchingCurrentItem(sfid: string, item: string)   // backfill: item first ...
    | PatchingSubAfterItem(sfid: string, item: string)  // ... then the subscription
    | Storing(sfid: string)
    | Stopped                       // stored, failed, or found no match

  /** A worker, with the row as it read it. */
  datatype Task = Task(row: nat, read: Row, pc: Pc)

  /** `sawCanceled`: rows the backfill listed as canceled. `clock` counts steps. */
  datatype World = World(rows: seq<Row>, stripe: Stripe, tasks: seq<Task>, sawCanceled: set<nat>, clock: nat)

  /** What the lookup service answers for a domain at a time; "" is no match. */
  type Answers = (string, nat) -> string

  datatype Step =
    | NewRow(inserted: Row, live: bool)   // Create saves a row and, with a resolver set, starts the live worker for it
    | StartBackfill(row: nat)       // this row's domain matched and the row is unfilled
    | Lookup(task: nat)
    | AcceptSub(task: nat)          // Stripe accepts the worker's next update
    | AcceptItem(task: nat)
    | Retrieve(task: nat)
    | Store(task: nat)
    | Stop(task: nat)               // an error from lookup, Stripe or the database, or a crash
    | SetStatus(row: nat, status: string)
    | EndInStripe(id: string)
    | SetItems(id: string, items: seq<string>)

  predicate At(w: World, t: nat) {
    t < |w.tasks|
  }

  predicate Enabled(answers: Answers, w: World, s: Step) {
    match s
    case StartBackfill(r) =>
      r < |w.rows| && w.rows[r].domain != "" && w.rows[r].sfid == "" && answers(w.rows[r].domain, w.clock) != ""
    case Lookup(t) => At(w, t) && w.tasks[t].pc.LookingUp?
    case AcceptSub(t) =>
      At(w, t) && (w.tasks[t].pc.PatchingSub? || w.tasks[t].pc.PatchingSubAfterItem?) && w.tasks[t].read.stripeId != ""
    case AcceptItem(t) => At(w, t) && (w.tasks[t].pc.PatchingItem? || w.tasks[t].pc.PatchingCurrentItem?)
    case Retrieve(t) => At(w, t) && w.tasks[t].pc.Checking?
    case Store(t) => At(w, t) && w.tasks[t].pc.Storing?
    case Stop(t) => At(w, t)
    case NewRow(row, _) => row.sfid == ""
    case SetStatus(r, _) => r < |w.rows|
    case EndInStripe(_) => true
    case SetItems(_, _) => true
  }

  function Goto(w: World, t: nat, pc: Pc): World
    requires t < |w.tasks|
  {
    w.(tasks := w.tasks[t := w.tasks[t].(pc := pc)])
  }

  /** patchStripe's decision and PatchLiveSubscription's first call. */
  function AfterRetrieve(s: Stripe, read: Row, sfid: string): Pc {
    if read.status == CANCELED || read.stripeId == "" || read.stripeId in s.ended then Storing(sfid)
    else
      var item := CurrentItem(ItemsOf(s, read.stripeId), read.itemId);
      if item == "" then Stopped else PatchingCurrentItem(sfid, item)
  }

  function Effect(answers: Answers, w: World, s: Step): World
    requires Enabled(answers, w, s)
  {
    match s
    case StartBackfill(r) =>
      w.(tasks := w.tasks + [Task(r, w.rows[r], Checking(answers(w.rows[r].domain, w.clock)))],
         sawCanceled := w.sawCanceled + if w.rows[r].status == CANCELED then {r} else {})
    case Lookup(t) =>
      var sfid := answers(w.tasks[t].read.domain, w.clock);
      Goto(w, t, if sfid == "" then Stopped else PatchingSub(sfid))
    case AcceptSub(t) =>
      var task := w.tasks[t];
      Goto(w, t, if task.pc.PatchingSub? && task.read.itemId != "" then PatchingItem(task.pc.sfid) else Storing(task.pc.sfid))
        .(stripe := SubPatched(w.stripe, task.read.stripeId, task.pc.sfid))
    case AcceptItem(t) =>
      var task := w.tasks[t];
      if task.pc.PatchingItem? then
        Goto(w, t, Storing(task.pc.sfid)).(stripe := ItemPatched(w.stripe, task.read.stripeId, task.read.itemId, task.pc.sfid))
      else
        Goto(w, t, PatchingSubAfterItem(task.pc.sfid, task.pc.item))
          .(stripe := ItemPatched(w.stripe, task.read.stripeId, task.pc.item, task.pc.sfid))
    case Retrieve(t) => Goto(w, t, AfterRetrieve(w.stripe, w.tasks[t].read, w.tasks[t].pc.sfid))
    case Store(t) => Goto(w, t, Stopped).(rows := Filled(w.rows, w.tasks[t].row, w.tasks[t].pc.sfid))
    case Stop(t) => Goto(w, t, Stopped)
    case NewRow(row, live) =>
      w.(rows := w.rows + [row],
         tasks := w.tasks + if live && row.domain != "" then [Task(|w.rows|, row, LookingUp)] else [])
    case SetStatus(r, status) => w.(rows := w.rows[r := w.rows[r].(status := status)])
    case EndInStripe(id) => w.(stripe := w.stripe.(ended := w.stripe.ended + {id}))
    case SetItems(id, items) => w.(stripe := w.stripe.(items := w.stripe.items[id := items]))
  }

  function Next(answers: Answers, w: World, s: Step): World {
    (if Enabled(answers, w, s) then Effect(answers, w, s) else w).(clock := w.clock + 1)
  }

  /** A worker may go on as far as it has got, and may stop, at any time; a backfill may take up any
      unfilled row whose domain matches. */
  lemma AnythingMayStop(answers: Answers, w: World)
    ensures forall t :: 0 <= t < |w.tasks| ==> Enabled(answers, w, Stop(t))
    ensures forall t :: 0 <= t < |w.tasks| ==>
      match w.tasks[t].pc
      case LookingUp => Enabled(answers, w, Lookup(t))
      case PatchingItem(_) => Enabled(answers, w, AcceptItem(t))
      case PatchingCurrentItem(_, _) => Enabled(answers, w, AcceptItem(t))
      case PatchingSub(_) => w.tasks[t].read.stripeId != "" ==> Enabled(answers, w, AcceptSub(t))
      case PatchingSubAfterItem(_, _) => w.tasks[t].read.stripeId != "" ==> Enabled(answers, w, AcceptSub(t))
      case Checking(_) => Enabled(answers, w, Retrieve(t))
      case Storing(_) => Enabled(answers, w, Store(t))
      case Stopped => true
    ensures forall r :: 0 <= r < |w.rows| && w.rows[r].sfid == "" && w.rows[r].domain != "" && answers(w.rows[r].domain, w.clock) != "" ==>
      Enabled(answers, w, StartBackfill(r))
  {
  }

  /** What happens around the workers: a new row with a domain starts a live resolver if there is
      one, statuses and items change, Stripe ends subscriptions, workers stop. */
  lemma SurroundingsMean(answers: Answers, w: World, s: Step)
    requires Enabled(answers, w, s)
    ensures var w' := Next(answers, w, s);
      match s
      case NewRow(row, live) =>
        && w'.rows == w.rows + [row]
        && (live && row.domain != "" ==> w'.tasks == w.tasks + [Task(|w.rows|, row, LookingUp)])
        && (!live || row.domain == "" ==> w'.tasks == w.tasks)
      case StartBackfill(r) =>
        w'.tasks == w.tasks + [Task(r, w.rows[r], Checking(answers(w.rows[r].domain, w.clock)))] && w'.rows == w.rows
      case SetStatus(r, status) => w'.rows[r] == w.rows[r].(status := status) && w'.stripe == w.stripe
      case EndInStripe(id) => id in w'.stripe.ended && w'.rows == w.rows
      case SetItems(id, items) => ItemsOf(w'.stripe, id) == items && w'.rows == w.rows
      case Stop(t) => w'.tasks[t].pc.Stopped? && w'.rows == w.rows && w'.stripe == w.stripe
      case Store(t) =>
        var r := w.tasks[t].row;
        r < |w.rows| && w.rows[r].sfid == "" ==> w'.rows[r].sfid == w.tasks[t].pc.sfid
      case _ => w'.rows == w.rows
  {
  }

  function Run(answers: Answers, w: World, steps: seq<Step>): World {
    if steps == [] then w
    else Next(answers, Run(answers, w, steps[..|steps|-1]), steps[|steps|-1])
  }

  /* ---- Stripe first ---- */

  /** Stripe holds an SFID on the subscription and on one of its items. */
  ghost predicate BothPatched(s: Stripe, id: string) {
    id in s.meta && exists item :: (id, item) in s.itemMeta
  }

  /** Why a row may carry an SFID. */
  ghost predicate Justified(w: World, r: nat)
    requires r < |w.rows|
  {
    var id := w.rows[r].stripeId;
    || BothPatched(w.stripe, id)
    || (w.rows[r].itemId == "" && id in w.stripe.meta)
    || id in w.stripe.ended
    || id == ""
    || r in w.sawCanceled
  }

  /** What no write changes in a row. */
  predicate SameIdentity(r: Row, r': Row) {
    r'.stripeId == r.stripeId && r'.itemId == r.itemId && r'.domain == r.domain
  }

  ghost predicate TaskOk(w: World, t: Task) {
    && t.row < |w.rows|
    && SameIdentity(t.read, w.rows[t.row])
    && match t.pc
       case PatchingItem(_) => t.read.stripeId in w.stripe.meta
       case Checking(_) => t.read.status == CANCELED ==> t.row in w.sawCanceled
       case PatchingSubAfterItem(_, item) => (t.read.stripeId, item) in w.stripe.itemMeta
       case Storing(_) => Justified(w, t.row)
       case _ => true
  }

  ghost predicate Inv(w: World) {
    && (forall t :: 0 <= t < |w.tasks| ==> TaskOk(w, w.tasks[t]))
    && (forall r :: 0 <= r < |w.rows| && w.rows[r].sfid != "" ==> Justified(w, r))
  }

  /** What only grows: metadata keys, ended subscriptions, rows and their identity. */
  ghost predicate Grows(w: World, w': World) {
    && |w.rows| <= |w'.rows|
    && (forall r :: 0 <= r < |w.rows| ==> SameIdentity(w.rows[r], w'.rows[r]))
    && w.stripe.meta.Keys <= w'.stripe.meta.Keys
    && w.stripe.itemMeta.Keys <= w'.stripe.itemMeta.Keys
    && w.stripe.ended <= w'.stripe.ended
    && w.sawCanceled <= w'.sawCanceled
  }

  lemma StepGrows(answers: Answers, w: World, s: Step)
    ensures Grows(w, Next(answers, w, s))
  {
  }

  lemma JustifiedGrows(w: World, w': World, r: nat)
    requires Grows(w, w') && r < |w.rows| && Justified(w, r)
    ensures Justified(w', r)
  {
    if BothPatched(w.stripe, w.rows[r].stripeId) {
      var item :| (w.rows[r].stripeId, item) in w.stripe.itemMeta;
      assert (w.rows[r].stripeId, item) in w'.stripe.itemMeta.Keys;
    }
  }

  lemma OkGrows(w: World, w': World, t: Task)
    requires Grows(w, w') && TaskOk(w, t)
    ensures TaskOk(w', t)
  {
    if t.pc.Storing? { JustifiedGrows(w, w', t.row); }
    if t.pc.PatchingSubAfterItem? { assert (t.read.stripeId, t.pc.item) in w'.stripe.itemMeta.Keys; }
  }

  /** The worker that moves lands in a good place. */
  lemma MoverOk(answers: Answers, w: World, s: Step, t: nat)
    requires Inv(w) && Enabled(answers, w, s) && t < |w.tasks|
    requires s in {Lookup(t), AcceptSub(t), AcceptItem(t), Retrieve(t), Store(t), Stop(t)}
    ensures TaskOk(Effect(answers, w, s), Effect(answers, w, s).tasks[t])
  {
    var w' := Effect(answers, w, s);
    StepGrows(answers, w, s);
    assert TaskOk(w, w.tasks[t]);
    var id := w.tasks[t].read.stripeId;
    if s.AcceptItem? && w.tasks[t].pc.PatchingItem? { assert (id, w.tasks[t].read.itemId) in w'.stripe.itemMeta; }
    if s.AcceptSub? && w.tasks[t].pc.PatchingSubAfterItem? {
      assert (id, w.tasks[t].pc.item) in w'.stripe.itemMeta && id in w'.stripe.meta;
    }
  }

  lemma StepKeepsInv(answers: Answers, w: World, s: Step)
    requires Inv(w)
    ensures Inv(Next(answers, w, s))
  {
    var w' := Next(answers, w, s);
    StepGrows(answers, w, s);
    if Enabled(answers, w, s) {
      forall t | 0 <= t < |w'.tasks| ensures TaskOk(w', w'.tasks[t]) {
        if t < |w.tasks| && s in {Lookup(t), AcceptSub(t), AcceptItem(t), Retrieve(t), Store(t), Stop(t)} {
          MoverOk(answers, w, s, t);
          OkGrows(Effect(answers, w, s), w', w'.tasks[t]);
        } else if t < |w.tasks| {
          OkGrows(w, w', w.tasks[t]);
        }
      }
      forall r | 0 <= r < |w'.rows| && w'.rows[r].sfid != "" ensures Justified(w', r) {
        if w.rows[r].sfid != "" {
          JustifiedGrows(w, w', r);
        } else {
          assert s.Store? && TaskOk(w, w.tasks[s.task]);
          JustifiedGrows(w, w', r);
        }
      }
    } else {
      forall t | 0 <= t < |w'.tasks| ensures TaskOk(w', w'.tasks[t]) { OkGrows(w, w', w.tasks[t]); }
      forall r | 0 <= r < |w'.rows| && w'.rows[r].sfid != "" ensures Justified(w', r) { JustifiedGrows(w, w', r); }
    }
  }

  /** Under any interleaving of live resolvers, backfill reruns, failures and crashes, a
      subscription row holds an SFID only if Stripe accepted one on the subscription and an
      item of it (the item being skipped only when no item ID is stored), or the subscription
      has no Stripe ID, has ended in Stripe, or was listed as canceled. */
  lemma {:induction false} StripeFirst(answers: Answers, w: World, steps: seq<Step>)
    requires Inv(w)
    ensures var v := Run(answers, w, steps);
      Inv(v) && forall r :: 0 <= r < |v.rows| && v.rows[r].sfid != "" ==> Justified(v, r)
  {
    if steps != [] {
      StripeFirst(answers, w, steps[..|steps|-1]);
      StepKeepsInv(answers, Run(answers, w, steps[..|steps|-1]), steps[|steps|-1]);
    }
  }

  /** An SFID once stored never changes. */
  lemma {:induction false} StoredIsKept(answers: Answers, w: World, steps: seq<Step>, r: nat)
    requires r < |w.rows| && w.rows[r].sfid != ""
    ensures var v := Run(answers, w, steps); r < |v.rows| && v.rows[r].sfid == w.rows[r].sfid
  {
    if steps != [] {
      StoredIsKept(answers, w, steps[..|steps|-1], r);
      StepGrows(answers, Run(answers, w, steps[..|steps|-1]), steps[|steps|-1]);
    }
  }

  /* ---- agreement ---- */

  /** One answer per domain, whenever the lookup has one. */
  ghost predicate Settled(answers: Answers, lookup: string -> string) {
    forall d, n :: d != "" && answers(d, n) != "" ==> answers(d, n) == lookup(d)
  }

  /** Every Stripe subscription belongs to one domain. */
  predicate Owned(row: Row, owner: string -> string) {
    row.stripeId != "" ==> row.domain == owner(row.stripeId)
  }

  function SfidOf(pc: Pc): string {
    if pc.LookingUp? || pc.Stopped? then "" else pc.sfid
  }

  predicate TaskAgrees(t: Task, lookup: string -> string, owner: string -> string) {
    Owned(t.read, owner) && t.read.domain != "" && (SfidOf(t.pc) != "" ==> SfidOf(t.pc) == lookup(t.read.domain))
    && (!t.pc.LookingUp? && !t.pc.Stopped? ==> SfidOf(t.pc) != "")
    && (t.pc.PatchingItem? || t.pc.PatchingCurrentItem? ==> t.read.stripeId != "")
  }

  ghost predicate StripeAgrees(s: Stripe, lookup: string -> string, owner: string -> string) {
    && (forall id :: id in s.meta ==> s.meta[id] == lookup(owner(id)))
    && (forall id, item :: (id, item) in s.itemMeta ==> s.itemMeta[(id, item)] == lookup(owner(id)))
  }

  ghost predicate RowsAgree(rows: seq<Row>, lookup: string -> string, owner: string -> string) {
    forall r :: 0 <= r < |rows| ==> Owned(rows[r], owner) && (rows[r].sfid != "" ==> rows[r].sfid == lookup(rows[r].domain))
  }

  ghost predicate Agrees(w: World, lookup: string -> string, owner: string -> string) {
    && RowsAgree(w.rows, lookup, owner)
    && StripeAgrees(w.stripe, lookup, owner)
    && (forall t :: 0 <= t < |w.tasks| ==> TaskAgrees(w.tasks[t], lookup, owner))
  }

  ghost predicate InsertsOwned(steps: seq<Step>, owner: string -> string) {
    forall i :: 0 <= i < |steps| && steps[i].NewRow? ==> Owned(steps[i].inserted, owner)
  }

  lemma EffectAgreesOnTasks(answers: Answers, lookup: string -> string, owner: string -> string, w: World, s: Step)
    requires Settled(answers, lookup) && Agrees(w, lookup, owner) && Enabled(answers, w, s)
    requires s.NewRow? ==> Owned(s.inserted, owner)
    ensures forall t :: 0 <= t < |Effect(answers, w, s).tasks| ==> TaskAgrees(Effect(answers, w, s).tasks[t], lookup, owner)
  {
    var w' := Effect(answers, w, s);
    forall t | 0 <= t < |w'.tasks| ensures TaskAgrees(w'.tasks[t], lookup, owner) {
      if t < |w.tasks| { assert TaskAgrees(w.tasks[t], lookup, owner); }
    }
  }

  lemma EffectAgreesOnStripe(answers: Answers, lookup: string -> string, owner: string -> string, w: World, s: Step)
    requires Agrees(w, lookup, owner) && Enabled(answers, w, s)
    ensures StripeAgrees(Effect(answers, w, s).stripe, lookup, owner)
  {
    if s.AcceptSub? || s.AcceptItem? {
      var task := w.tasks[s.task];
      assert TaskAgrees(task, lookup, owner);
      assert Owned(task.read, owner);
    }
  }

  lemma EffectAgreesOnRows(answers: Answers, lookup: string -> string, owner: string -> string, w: World, s: Step)
    requires Inv(w) && Agrees(w, lookup, owner) && Enabled(answers, w, s)
    requires s.NewRow? ==> Owned(s.inserted, owner)
    ensures RowsAgree(Effect(answers, w, s).rows, lookup, owner)
  {
    if s.Store? {
      assert TaskAgrees(w.tasks[s.task], lookup, owner) && TaskOk(w, w.tasks[s.task]);
    }
  }

  lemma StepKeepsAgreement(answers: Answers, lookup: string -> string, owner: string -> string, w: World, s: Step)
    requires Settled(answers, lookup) && Inv(w) && Agrees(w, lookup, owner)
    requires s.NewRow? ==> Owned(s.inserted, owner)
    ensures Agrees(Next(answers, w, s), lookup, owner)
  {
    if Enabled(answers, w, s) {
      EffectAgreesOnTasks(answers, lookup, owner, w, s);
      EffectAgreesOnStripe(answers, lookup, owner, w, s);
      EffectAgreesOnRows(answers, lookup, owner, w, s);
    }
  }

  /** If the lookup gives no two answers for a domain, the three parties agree after any run:
      every filled row holds its domain's answer, and so does Stripe's metadata for that
      subscription wherever Stripe has any; by StripeFirst it has some, on the subscription
      and an item of it, unless the subscription can no longer renew. */
  lemma {:induction false} FilledRowsAgreeWithStripe(answers: Answers, lookup: string -> string, owner: string -> string,
                                                     w: World, steps: seq<Step>)
    requires Settled(answers, lookup) && Inv(w) && Agrees(w, lookup, owner) && InsertsOwned(steps, owner)
    ensures var v := Run(answers, w, steps);
      && Agrees(v, lookup, owner)
      && forall r :: 0 <= r < |v.rows| && v.rows[r].sfid != "" ==> RowAndStripeAgree(v, r)
  {
    if steps != [] {
      var p := steps[..|steps|-1];
      FilledRowsAgreeWithStripe(answers, lookup, owner, w, p);
      StripeFirst(answers, w, p);
      StepKeepsAgreement(answers, lookup, owner, Run(answers, w, p), steps[|steps|-1]);
    }
    StripeFirst(answers, w, steps);
  }

  ghost predicate RowAndStripeAgree(w: World, r: nat)
    requires r < |w.rows|
  {
    var id := w.rows[r].stripeId;
    && Justified(w, r)
    && (id != "" && id in w.stripe.meta ==> w.stripe.meta[id] == w.rows[r].sfid)
    && (forall item :: id != "" && (id, item) in w.stripe.itemMeta ==> w.stripe.itemMeta[(id, item)] == w.rows[r].sfid)
  }

  /* ---- only then ---- */

  /** Some unfilled rows, some of them just inserted, and nothing in Stripe's metadata yet. */
  ghost predicate Begun(w: World, owner: string -> string) {
    && (forall r :: 0 <= r < |w.rows| ==> w.rows[r].sfid == "" && Owned(w.rows[r], owner))
    && (forall t :: 0 <= t < |w.tasks| ==> Starts(w, w.tasks[t]))
    && w.stripe.meta == map[] && w.stripe.itemMeta == map[]
  }

  predicate Starts(w: World, t: Task) {
    t.row < |w.rows| && t.read == w.rows[t.row] && t.read.domain != "" && t.pc.LookingUp?
  }

  ghost predicate AllAgree(w: World) {
    forall r :: 0 <= r < |w.rows| && w.rows[r].sfid != "" ==> RowAndStripeAgree(w, r)
  }

  /** Every run, whoever owns the subscriptions. */
  ghost predicate AlwaysAgrees(answers: Answers) {
    forall w, owner, steps :: Begun(w, owner) && InsertsOwned(steps, owner) ==> AllAgree(Run(answers, w, steps))
  }

  /** The lookup never matches a domain with one SFID and at another time with another. */
  ghost predicate OneAnswerEach(answers: Answers) {
    forall d, m, n :: d != "" && answers(d, m) != "" && answers(d, n) != "" ==> answers(d, m) == answers(d, n)
  }

  ghost function Chosen(answers: Answers, d: string): string {
    if n :| answers(d, n) != "" then answers(d, n) else ""
  }

  lemma RunAppend(answers: Answers, w: World, steps: seq<Step>, s: Step)
    ensures Run(answers, w, steps + [s]) == Next(answers, Run(answers, w, steps), s)
  {
    assert (steps + [s])[..|steps|] == steps;
  }

  /** A run to a stage, and a step on. */
  lemma Then(answers: Answers, w: World, steps: seq<Step>, now: World, s: Step, next: World) returns (steps': seq<Step>)
    requires Run(answers, w, steps) == now && Next(answers, now, s) == next
    requires !s.NewRow? && NoNewRow(steps)
    ensures Run(answers, w, steps') == next && NoNewRow(steps')
  {
    RunAppend(answers, w, steps, s);
    steps' := steps + [s];
  }

  predicate NoNewRow(steps: seq<Step>) {
    forall i :: 0 <= i < |steps| ==> !steps[i].NewRow?
  }

  /** Time passes. */
  lemma Waiting(answers: Answers, w: World, steps: seq<Step>, now: World, until: nat) returns (steps': seq<Step>)
    requires Run(answers, w, steps) == now && NoNewRow(steps) && now.clock <= until
    ensures Run(answers, w, steps') == now.(clock := until) && NoNewRow(steps')
    decreases until - now.clock
  {
    steps' := steps;
    if now.clock < until {
      var later := now.(clock := now.clock + 1);
      steps' := Then(answers, w, steps, now, Lookup(|now.tasks|), later);
      steps' := Waiting(answers, w, steps', later, until);
      assert later.(clock := until) == now.(clock := until);
    }
  }

  function Subscribed(domain: string): Row {
    Row(domain, "active", "sub", "item", "")
  }

  /** Just inserted, with its live resolver started and, later, a backfill at work on it. */
  function Stage(domain: string, workers: seq<Pc>, sub: map<string, string>, item: map<(string, string), string>,
                 sfid: string, clock: nat): World
  {
    World([Subscribed(domain).(sfid := sfid)], Stripe(sub, item, map["sub" := ["item"]], {}),
          seq(|workers|, t requires 0 <= t < |workers| => Task(0, Subscribed(domain), workers[t])), {}, clock)
  }

  /** The live resolver asks at m and is told `a`; the backfill asks at n and is told `b`. */
  lemma BothAsk(answers: Answers, domain: string, m: nat, n: nat) returns (steps: seq<Step>)
    requires domain != "" && m < n && answers(domain, m) != "" && answers(domain, n) != ""
    ensures NoNewRow(steps) && Run(answers, Stage(domain, [LookingUp], map[], map[], "", 0), steps) ==
      Stage(domain, [PatchingSub(answers(domain, m)), Checking(answers(domain, n))], map[], map[], "", n + 1)
  {
    var (a, b) := (answers(domain, m), answers(domain, n));
    var w := Stage(domain, [LookingUp], map[], map[], "", 0);
    steps := Waiting(answers, w, [], w, m);
    var asked := Stage(domain, [PatchingSub(a)], map[], map[], "", m + 1);
    steps := Then(answers, w, steps, w.(clock := m), Lookup(0), asked);
    steps := Waiting(answers, w, steps, asked, n);
    steps := Then(answers, w, steps, asked.(clock := n), StartBackfill(0),
                  Stage(domain, [PatchingSub(a), Checking(b)], map[], map[], "", n + 1));
  }

  /** Then each patches Stripe in its own order: the backfill the item and the live resolver
      the subscription ... */
  lemma EachPatchesOne(answers: Answers, w: World, before: seq<Step>, domain: string, a: string, b: string, c: nat)
    returns (steps: seq<Step>)
    requires NoNewRow(before) && Run(answers, w, before) == Stage(domain, [PatchingSub(a), Checking(b)], map[], map[], "", c)
    ensures NoNewRow(steps) && Run(answers, w, steps) ==
      Stage(domain, [PatchingItem(a), PatchingSubAfterItem(b, "item")], map["sub" := a], map[("sub", "item") := b], "", c + 3)
  {
    var s0 := Stage(domain, [PatchingSub(a), Checking(b)], map[], map[], "", c);
    var s1 := Stage(domain, [PatchingSub(a), PatchingCurrentItem(b, "item")], map[], map[], "", c + 1);
    var s2 := Stage(domain, [PatchingSub(a), PatchingSubAfterItem(b, "item")], map[], map[("sub", "item") := b], "", c + 2);
    steps := Then(answers, w, before, s0, Retrieve(1), s1);
    steps := Then(answers, w, steps, s1, AcceptItem(1), s2);
    steps := Then(answers, w, steps, s2, AcceptSub(0),
                  Stage(domain, [PatchingItem(a), PatchingSubAfterItem(b, "item")], map["sub" := a], map[("sub", "item") := b],
                        "", c + 3));
  }

  /** ... and then the backfill the subscription and the live resolver the item. */
  lemma EachPatchesTheOther(answers: Answers, w: World, before: seq<Step>, domain: string, a: string, b: string, c: nat)
    returns (steps: seq<Step>)
    requires NoNewRow(before) && Run(answers, w, before) ==
      Stage(domain, [PatchingItem(a), PatchingSubAfterItem(b, "item")], map["sub" := a], map[("sub", "item") := b], "", c)
    ensures NoNewRow(steps) && Run(answers, w, steps) ==
      Stage(domain, [Storing(a), Storing(b)], map["sub" := b], map[("sub", "item") := a], "", c + 2)
  {
    var x := ("sub", "item");
    var s0 := Stage(domain, [PatchingItem(a), PatchingSubAfterItem(b, "item")], map["sub" := a], map[x := b], "", c);
    var s1 := Stage(domain, [PatchingItem(a), Storing(b)], map["sub" := b], map[x := b], "", c + 1);
    assert map["sub" := a]["sub" := b] == map["sub" := b];
    steps := Then(answers, w, before, s0, AcceptSub(1), s1);
    assert map[x := b][x := a] == map[x := a];
    steps := Then(answers, w, steps, s1, AcceptItem(0),
                  Stage(domain, [Storing(a), Storing(b)], map["sub" := b], map[x := a], "", c + 2));
  }

  /** With two answers for one domain, whatever they are and whenever they come, there is a run
      without a single failure in which the live path stores its answer on the row and on the
      item while the subscription keeps the backfill's. Each path patches Stripe in two calls,
      in opposite orders, and only the row is fill-only. */
  lemma ChangedAnswerDisagrees(answers: Answers, domain: string, m: nat, n: nat) returns (steps: seq<Step>)
    requires domain != "" && m < n && answers(domain, m) != "" && answers(domain, n) != ""
    ensures NoNewRow(steps)
    ensures var w := Run(answers, Stage(domain, [LookingUp], map[], map[], "", 0), steps);
      && |w.rows| == 1 && w.rows[0].stripeId == "sub" && w.rows[0].sfid == answers(domain, m)
      && w.stripe.itemMeta == map[("sub", "item") := answers(domain, m)]
      && w.stripe.meta == map["sub" := answers(domain, n)]
  {
    var (a, b) := (answers(domain, m), answers(domain, n));
    var w := Stage(domain, [LookingUp], map[], map[], "", 0);
    steps := BothAsk(answers, domain, m, n);
    steps := EachPatchesOne(answers, w, steps, domain, a, b, n + 1);
    steps := EachPatchesTheOther(answers, w, steps, domain, a, b, n + 4);
    var ready := Stage(domain, [Storing(a), Storing(b)], map["sub" := b], map[("sub", "item") := a], "", n + 6);
    var stored := Stage(domain, [Stopped, Storing(b)], map["sub" := b], map[("sub", "item") := a], a, n + 7);
    steps := Then(answers, w, steps, ready, Store(0), stored);
  }

  /** So rows, items and subscriptions agree in every run exactly when the lookup never matches
      a domain with two SFIDs. */
  lemma AlwaysAgreesIff(answers: Answers)
    ensures AlwaysAgrees(answers) <==> OneAnswerEach(answers)
  {
    if OneAnswerEach(answers) {
      var lookup := (d: string) => Chosen(answers, d);
      forall w, owner, steps | Begun(w, owner) && InsertsOwned(steps, owner) ensures AllAgree(Run(answers, w, steps)) {
        FilledRowsAgreeWithStripe(answers, lookup, owner, w, steps);
      }
    }
    forall d, m: nat, n: nat | AlwaysAgrees(answers) && d != "" && m < n && answers(d, m) != "" && answers(d, n) != ""
      ensures answers(d, m) == answers(d, n)
    {
      var steps := ChangedAnswerDisagrees(answers, d, m, n);
      var w := Stage(d, [LookingUp], map[], map[], "", 0);
      assert Begun(w, (id: string) => d) && InsertsOwned(steps, (id: string) => d);
      assert RowAndStripeAgree(Run(answers, w, steps), 0);
    }
  }
}
