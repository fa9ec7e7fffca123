/** Agreement whatever the lookup answers: if no backfill starts on a subscription that another
    worker is still at, a filled row, its Stripe subscription and the item that bills it hold
    the same SFID, although the answers may change from call to call. The machine is that of
    module SfidFill. */
module SfidSerial {
  import opened SfidFill

  predicate HasStripeId(rows: seq<Row>, id: string) {
    exists r :: 0 <= r < |rows| && rows[r].stripeId == id
  }

  /** Nobody is at work on row r. */
  predicate Idle(w: World, r: nat) {
    forall t :: 0 <= t < |w.tasks| && w.tasks[t].row == r ==> w.tasks[t].pc.Stopped?
  }

  /** The step overlaps with no worker: a backfill takes a row up only when it is idle. Besides,
      a Stripe subscription belongs to one row, Create stores an item the subscription has,
      and the items of a stored subscription stay. */
  predicate Apart(w: World, s: Step) {
    match s
    case StartBackfill(r) => Idle(w, r)
    case NewRow(row, _) =>
      && (row.stripeId != "" ==> !HasStripeId(w.rows, row.stripeId))
      && (row.itemId != "" ==> row.itemId in ItemsOf(w.stripe, row.stripeId))
    case SetItems(id, _) => !HasStripeId(w.rows, id)
    case _ => true
  }

  ghost predicate NeverOverlap(answers: Answers, w: World, steps: seq<Step>) {
    forall i: nat :: i < |steps| ==> ApartAt(answers, w, steps, i)
  }

  ghost predicate ApartAt(answers: Answers, w: World, steps: seq<Step>, i: nat)
    requires i < |steps|
  {
    Enabled(answers, Run(answers, w, steps[..i]), steps[i]) ==> Apart(Run(answers, w, steps[..i]), steps[i])
  }

  /** Stripe holds this SFID on the row's subscription, and on its current item unless the row
      stores none. */
  predicate Holds(s: Stripe, row: Row, sfid: string) {
    var id := row.stripeId;
    && id in s.meta && s.meta[id] == sfid
    && (row.itemId != "" ==> ItemHolds(s, id, CurrentItem(ItemsOf(s, id), row.itemId), sfid))
  }

  predicate ItemHolds(s: Stripe, id: string, item: string, sfid: string) {
    (id, item) in s.itemMeta && s.itemMeta[(id, item)] == sfid
  }

  /** Stripe does not bill the row's subscription any more, or the backfill listed it as canceled. */
  predicate Excused(w: World, r: nat)
    requires r < |w.rows|
  {
    w.rows[r].stripeId == "" || w.rows[r].stripeId in w.stripe.ended || r in w.sawCanceled
  }

  /** How far a worker has come with Stripe. */
  ghost predicate OnTrack(w: World, t: Task)
    requires t.row < |w.rows|
  {
    var (id, item) := (t.read.stripeId, t.read.itemId);
    var items := ItemsOf(w.stripe, id);
    match t.pc
    case LookingUp => item == "" || item in items
    case PatchingSub(_) => item == "" || item in items
    case PatchingItem(sfid) => id != "" && item in items && id in w.stripe.meta && w.stripe.meta[id] == sfid
    case Checking(_) => t.read.status == CANCELED ==> t.row in w.sawCanceled
    case PatchingCurrentItem(_, current) => id != "" && current == CurrentItem(items, item)
    case PatchingSubAfterItem(sfid, current) =>
      id != "" && current == CurrentItem(items, item) && ItemHolds(w.stripe, id, current, sfid)
    case Storing(sfid) => Excused(w, t.row) || Holds(w.stripe, t.read, sfid)
    case Stopped => true
  }

  ghost predicate TaskFits(w: World, t: Task) {
    && t.row < |w.rows| && SameIdentity(t.read, w.rows[t.row])
    && (!t.pc.Stopped? ==> w.rows[t.row].sfid == "")
    && OnTrack(w, t)
  }

  ghost predicate RowFits(w: World, r: nat)
    requires r < |w.rows|
  {
    w.rows[r].sfid != "" ==> Excused(w, r) || Holds(w.stripe, w.rows[r], w.rows[r].sfid)
  }

  ghost predicate OneRowEach(rows: seq<Row>) {
    forall i, j :: 0 <= i < j < |rows| && rows[i].stripeId == rows[j].stripeId ==> rows[i].stripeId == ""
  }

  ghost predicate OneAtATime(tasks: seq<Task>) {
    forall t, u :: 0 <= t < u < |tasks| && tasks[t].row == tasks[u].row ==> tasks[t].pc.Stopped? || tasks[u].pc.Stopped?
  }

  ghost predicate SerialInv(w: World) {
    && OneRowEach(w.rows) && OneAtATime(w.tasks)
    && (forall t :: 0 <= t < |w.tasks| ==> TaskFits(w, w.tasks[t]))
    && (forall r :: 0 <= r < |w.rows| ==> RowFits(w, r))
  }

  /* ---- one step ---- */

  /** Stripe is as it was but for the metadata of one subscription and its items. */
  ghost predicate SameBut(s: Stripe, s': Stripe, id: string) {
    && s'.items == s.items && s'.ended == s.ended
    && (forall other :: other != id ==> (other in s'.meta <==> other in s.meta) && (other in s.meta ==> s'.meta[other] == s.meta[other]))
    && (forall other, item :: other != id ==>
          ((other, item) in s'.itemMeta <==> (other, item) in s.itemMeta) &&
          ((other, item) in s.itemMeta ==> s'.itemMeta[(other, item)] == s.itemMeta[(other, item)]))
  }

  lemma HoldsStays(s: Stripe, s': Stripe, id: string, row: Row, sfid: string)
    requires SameBut(s, s', id) && row.stripeId != id && Holds(s, row, sfid)
    ensures Holds(s', row, sfid)
  {
  }

  /** What the step of worker t does to Stripe concerns its own subscription only. */
  lemma PatchIsLocal(answers: Answers, w: World, s: Step, t: nat)
    requires Enabled(answers, w, s) && t < |w.tasks|
    requires s in {Lookup(t), AcceptSub(t), AcceptItem(t), Retrieve(t), Store(t), Stop(t)}
    ensures SameBut(w.stripe, Effect(answers, w, s).stripe, w.tasks[t].read.stripeId)
  {
  }

  /** Another worker, on another row, is where it was. */
  lemma OthersFit(w: World, w': World, t: nat, u: nat)
    requires SerialInv(w) && t < |w.tasks| && u < |w.tasks| && t != u && !w.tasks[t].pc.Stopped?
    requires |w'.rows| == |w.rows| && w'.sawCanceled == w.sawCanceled
    requires SameBut(w.stripe, w'.stripe, w.tasks[t].read.stripeId)
    requires forall r :: 0 <= r < |w.rows| && r != w.tasks[t].row ==> w'.rows[r] == w.rows[r]
    requires SameIdentity(w.rows[w.tasks[t].row], w'.rows[w.tasks[t].row])
    ensures TaskFits(w', w.tasks[u])
  {
    var (x, y) := (w.tasks[t], w.tasks[u]);
    assert TaskFits(w, x) && TaskFits(w, y);
    assert x.row != y.row ==> x.read.stripeId != y.read.stripeId || x.read.stripeId == "";
    if x.row != y.row && y.pc.Storing? && !Excused(w, y.row) {
      HoldsStays(w.stripe, w'.stripe, x.read.stripeId, y.read, y.pc.sfid);
    }
  }

  /** The worker that moves is on track after the move. */
  lemma MoverFits(answers: Answers, w: World, s: Step, t: nat)
    requires SerialInv(w) && Enabled(answers, w, s) && t < |w.tasks|
    requires s in {Lookup(t), AcceptSub(t), AcceptItem(t), Retrieve(t), Store(t), Stop(t)}
    ensures TaskFits(Effect(answers, w, s), Effect(answers, w, s).tasks[t])
  {
    assert TaskFits(w, w.tasks[t]);
  }

  /** Rows keep what they hold, and the one filled now has it from its worker. */
  lemma MoveKeepsRows(answers: Answers, w: World, s: Step, t: nat, r: nat)
    requires SerialInv(w) && Enabled(answers, w, s) && t < |w.tasks| && r < |w.rows| && !w.tasks[t].pc.Stopped?
    requires s in {Lookup(t), AcceptSub(t), AcceptItem(t), Retrieve(t), Store(t), Stop(t)}
    ensures RowFits(Effect(answers, w, s), r)
  {
    var w' := Effect(answers, w, s);
    var x := w.tasks[t];
    assert TaskFits(w, x) && RowFits(w, r);
    PatchIsLocal(answers, w, s, t);
    assert r != x.row ==> w.rows[r].stripeId != x.read.stripeId || x.read.stripeId == "";
    if r != x.row && w.rows[r].sfid != "" && !Excused(w, r) {
      HoldsStays(w.stripe, w'.stripe, x.read.stripeId, w.rows[r], w.rows[r].sfid);
    }
  }

  lemma MoveKeepsInv(answers: Answers, w: World, s: Step, t: nat)
    requires SerialInv(w) && Enabled(answers, w, s) && t < |w.tasks| && !w.tasks[t].pc.Stopped?
    requires s in {Lookup(t), AcceptSub(t), AcceptItem(t), Retrieve(t), Store(t), Stop(t)}
    ensures SerialInv(Effect(answers, w, s))
  {
    var w' := Effect(answers, w, s);
    assert TaskFits(w, w.tasks[t]);
    PatchIsLocal(answers, w, s, t);
    forall u | 0 <= u < |w'.tasks| ensures TaskFits(w', w'.tasks[u]) {
      if u == t { MoverFits(answers, w, s, t); } else { OthersFit(w, w', t, u); }
    }
    forall r | 0 <= r < |w'.rows| ensures RowFits(w', r) { MoveKeepsRows(answers, w, s, t, r); }
  }

  /** Steps of the surroundings: new rows and backfills, statuses, endings and items. */
  lemma OtherStepKeepsInv(answers: Answers, w: World, s: Step)
    requires SerialInv(w) && Enabled(answers, w, s) && Apart(w, s)
    requires s.NewRow? || s.StartBackfill? || s.SetStatus? || s.EndInStripe? || s.SetItems?
    ensures SerialInv(Effect(answers, w, s))
  {
    var w' := Effect(answers, w, s);
    forall t | 0 <= t < |w'.tasks| ensures TaskFits(w', w'.tasks[t]) {
      if t < |w.tasks| { OldTaskFits(answers, w, s, t); }
    }
    forall r | 0 <= r < |w'.rows| ensures RowFits(w', r) {
      if r < |w.rows| { assert RowFits(w, r); }
    }
    if s.NewRow? {
      forall t | 0 <= t < |w.tasks| ensures w.tasks[t].row < |w.rows| { assert TaskFits(w, w.tasks[t]); }
    }
  }

  lemma OldTaskFits(answers: Answers, w: World, s: Step, t: nat)
    requires SerialInv(w) && Enabled(answers, w, s) && Apart(w, s) && t < |w.tasks|
    requires s.NewRow? || s.StartBackfill? || s.SetStatus? || s.EndInStripe? || s.SetItems?
    ensures TaskFits(Effect(answers, w, s), w.tasks[t])
  {
    var x := w.tasks[t];
    assert TaskFits(w, x);
    assert HasStripeId(w.rows, x.read.stripeId) by { assert w.rows[x.row].stripeId == x.read.stripeId; }
  }

  lemma StepKeepsSerialInv(answers: Answers, w: World, s: Step)
    requires SerialInv(w) && (Enabled(answers, w, s) ==> Apart(w, s))
    ensures SerialInv(Next(answers, w, s))
  {
    var v := if Enabled(answers, w, s) then Effect(answers, w, s) else w;
    if Enabled(answers, w, s) {
      if s.NewRow? || s.StartBackfill? || s.SetStatus? || s.EndInStripe? || s.SetItems? {
        OtherStepKeepsInv(answers, w, s);
      } else if !w.tasks[s.task].pc.Stopped? {
        MoveKeepsInv(answers, w, s, s.task);
      } else {
        assert v.tasks == w.tasks;
      }
    }
    TickKeeps(v);
  }

  lemma TickKeeps(w: World)
    requires SerialInv(w)
    ensures SerialInv(w.(clock := w.clock + 1))
  {
    var v := w.(clock := w.clock + 1);
    forall t | 0 <= t < |v.tasks| ensures TaskFits(v, v.tasks[t]) { assert TaskFits(w, w.tasks[t]); }
    forall r | 0 <= r < |v.rows| ensures RowFits(v, r) { assert RowFits(w, r); }
  }

  /* ---- every run ---- */

  lemma OverlapPrefix(answers: Answers, w: World, steps: seq<Step>)
    requires steps != [] && NeverOverlap(answers, w, steps)
    ensures NeverOverlap(answers, w, steps[..|steps|-1])
  {
    var p := steps[..|steps|-1];
    forall i: nat | i < |p| ensures ApartAt(answers, w, p, i) {
      assert ApartAt(answers, w, steps, i) && p[..i] == steps[..i];
    }
  }

  /** Whatever the lookup answers and wherever workers fail: if no two overlap on a row, then
      after the run every filled row that Stripe still bills (and that was not listed as
      canceled) holds the SFID of its Stripe subscription, which is that of the subscription's
      current item too, unless the row stores no item. */
  lemma {:induction false} ApartWorkersAgree(answers: Answers, w: World, steps: seq<Step>)
    requires SerialInv(w) && NeverOverlap(answers, w, steps)
    ensures var v := Run(answers, w, steps);
      && SerialInv(v)
      && forall r :: 0 <= r < |v.rows| && v.rows[r].sfid != "" && !Excused(v, r) ==> Holds(v.stripe, v.rows[r], v.rows[r].sfid)
  {
    if steps != [] {
      var p := steps[..|steps|-1];
      OverlapPrefix(answers, w, steps);
      ApartWorkersAgree(answers, w, p);
      assert ApartAt(answers, w, steps, |p|);
      StepKeepsSerialInv(answers, Run(answers, w, p), steps[|p|]);
    }
    var v := Run(answers, w, steps);
    forall r | 0 <= r < |v.rows| && v.rows[r].sfid != "" && !Excused(v, r)
      ensures Holds(v.stripe, v.rows[r], v.rows[r].sfid)
    {
      assert RowFits(v, r);
    }
  }
}
