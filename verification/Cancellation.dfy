/** Canceling subscriptions: the user's Cancel, the initiative sweep's tasks and the webhook's
    cancellations, interleaved with everything else that touches a subscription row.
    Model of backend/internal/service/subscription_service.go (Cancel),
    backend/internal/service/initiative_service.go (one task of the sweep) and
    backend/internal/handler/webhook_handler.go (handleSubscriptionCanceled and the other
    subscription events). */
module Cancellation {
  import opened StripeErrors

  const CANCELED := "canceled"

  /** A subscription row; stripeId is "" when NULL. */
  datatype Sub = Sub(stripeId: string, status: string)

  /** Stripe's answer to a cancel call. `ended` says whether the call took effect although the
      caller only saw an error, as when the response is lost. */
  datatype Reply = Accepted | Refused(error: ApiError, ended: bool)

  datatype Canceler = ByUser | BySweep

  /** The error the caller shrugs off: the sweep also accepts Stripe's refusal to cancel an
      incomplete_expired subscription. */
  predicate Tolerated(who: Canceler, e: ApiError) {
    if who.ByUser? then SubscriptionMissing(e) else SubscriptionGone(e)
  }

  predicate Proceeds(who: Canceler, r: Reply) {
    r.Accepted? || Tolerated(who, r.error)
  }

  /** Stripe cannot bill the subscription after this answer: it canceled it, or reports it
      missing or terminal. That a "missing" answer means "not billable" is Stripe's promise. */
  predicate DeadAfter(r: Reply) {
    r.Accepted? || r.ended || SubscriptionGone(r.error)
  }

  function BillableAfter(billable: set<string>, id: string, r: Reply): set<string> {
    if DeadAfter(r) then billable - {id} else billable
  }

  /** The two cancel paths part on exactly one kind of error: a typed 400 naming
      incomplete_expired, which the sweep takes as done and the user's Cancel reports. */
  lemma PathsDifferIff(r: Reply)
    ensures (forall who :: Proceeds(who, r) ==> DeadAfter(r))
    ensures Proceeds(ByUser, r) ==> Proceeds(BySweep, r)
    ensures Proceeds(BySweep, r) && !Proceeds(ByUser, r) <==>
      r.Refused? && r.error.Typed? && r.error.http == 400 && Contains(r.error.msg, "incomplete_expired")
  {
  }

  /* ---- every interleaving ---- */

  datatype TaskPc = Calling | Marking | Finished | Failed

  /** One cancel in flight, holding the row it read. */
  datatype Task = Task(who: Canceler, row: nat, stripeId: string, pc: TaskPc)

  /** `minted` are all subscription IDs Stripe ever issued, `billable` those it may still charge;
      `sent` are the subscription events Stripe has sent, each delivered any number of times. */
  datatype World = World(rows: seq<Sub>, minted: set<string>, billable: set<string>,
                         created: seq<string>, tasks: seq<Task>, sent: set<SubEvent>)

  /** customer.subscription.deleted and customer.subscription.updated. */
  datatype SubEvent = Deleted(id: string) | Updated(id: string, canceledAt: int, status: string)

  predicate Terminal(status: string) {
    status == CANCELED || status == "incomplete_expired"
  }

  /** The events that mark the row canceled. */
  predicate IsCancellation(e: SubEvent) {
    e.Deleted? || (e.canceledAt != 0 && Terminal(e.status))
  }

  datatype Step =
    | CreateInStripe(id: string)                 // SubscriptionService.Create, its Stripe half
    | InsertRow(call: nat, status: string)       // and its row; a crash is never taking this step
    | EndInStripe(id: string)                    // dashboard, failed invoices, expiry
    | Send(event: SubEvent)                      // Stripe says deleted or terminal only of an ended subscription
    | Webhook(event: SubEvent)
    | WebhookStatus(id: string, status: string)  // invoice paid or failed
    | StartCancel(who: Canceler, row: nat)
    | CallStripe(task: nat, reply: Reply)
    | MarkRow(task: nat)
    | MarkFails(task: nat)

  predicate Enabled(w: World, s: Step) {
    match s
    case CreateInStripe(id) => id != "" && id !in w.minted && forall r | r in w.rows :: r.stripeId != id
    case InsertRow(c, status) => c < |w.created| && (status == CANCELED ==> w.created[c] !in w.billable)
    case EndInStripe(_) => true
    case Send(e) => e.id in w.minted && (e.Deleted? || Terminal(e.status) ==> e.id !in w.billable)
    case Webhook(e) => e in w.sent
    case WebhookStatus(_, status) => status != CANCELED
    case StartCancel(_, row) => row < |w.rows|
    case CallStripe(t, _) => t < |w.tasks| && w.tasks[t].pc.Calling?
    case MarkRow(t) => t < |w.tasks| && w.tasks[t].pc.Marking? && w.tasks[t].row < |w.rows|
    case MarkFails(t) => t < |w.tasks| && w.tasks[t].pc.Marking?
  }

  /** UPDATE subscriptions SET status WHERE stripe_subscription_id = id. */
  function StatusSet(rows: seq<Sub>, id: string, status: string): (r: seq<Sub>)
    ensures |r| == |rows|
  {
    seq(|rows|, i requires 0 <= i < |rows| =>
      if id != "" && rows[i].stripeId == id then rows[i].(status := status) else rows[i])
  }

  function Next(w: World, s: Step): World
    requires Enabled(w, s)
  {
    match s
    case CreateInStripe(id) => w.(minted := w.minted + {id}, billable := w.billable + {id}, created := w.created + [id])
    case InsertRow(c, status) => w.(rows := w.rows + [Sub(w.created[c], status)])
    case EndInStripe(id) => w.(billable := w.billable - {id})
    case Send(e) => w.(sent := w.sent + {e})
    case Webhook(e) => if IsCancellation(e) then w.(rows := StatusSet(w.rows, e.id, CANCELED)) else w
    case WebhookStatus(id, status) => w.(rows := StatusSet(w.rows, id, status))
    case StartCancel(who, row) =>
      var id := w.rows[row].stripeId;
      // The sweep has nothing to cancel remotely for a row without a Stripe ID.
      w.(tasks := w.tasks + [Task(who, row, id, if who.BySweep? && id == "" then Marking else Calling)])
    case CallStripe(t, reply) =>
      var task := w.tasks[t];
      w.(billable := BillableAfter(w.billable, task.stripeId, reply),
         tasks := w.tasks[t := task.(pc := if Proceeds(task.who, reply) then Marking else Failed)])
    case MarkRow(t) =>
      var task := w.tasks[t];
      // The update writes back the Stripe ID read at the start, along with the status.
      w.(rows := w.rows[task.row := Sub(task.stripeId, CANCELED)], tasks := w.tasks[t := task.(pc := Finished)])
    case MarkFails(t) => w.(tasks := w.tasks[t := w.tasks[t].(pc := Failed)])
  }

  function Run(start: World, steps: seq<Step>): World {
    if steps == [] then start
    else
      var w := Run(start, steps[..|steps|-1]);
      if Enabled(w, steps[|steps|-1]) then Next(w, steps[|steps|-1]) else w
  }

  /** No row says canceled while Stripe can still bill it. */
  ghost predicate Safe(rows: seq<Sub>, billable: set<string>) {
    forall i :: 0 <= i < |rows| && rows[i].status == CANCELED ==> rows[i].stripeId !in billable
  }

  ghost predicate Inv(w: World) {
    && Safe(w.rows, w.billable)
    && w.billable <= w.minted && "" !in w.minted
    && (forall id :: id in w.created ==> id in w.minted)
    && (forall e :: e in w.sent ==> e.id in w.minted && (e.Deleted? || Terminal(e.status) ==> e.id !in w.billable))
    && (forall t :: 0 <= t < |w.tasks| ==>
          && w.tasks[t].row < |w.rows|
          && w.rows[w.tasks[t].row].stripeId == w.tasks[t].stripeId
          && (w.tasks[t].pc.Marking? || w.tasks[t].pc.Finished? ==> w.tasks[t].stripeId !in w.billable))
  }

  /** A world the service may start from: nothing in flight and no lie in the table. */
  ghost predicate Quiet(w: World) {
    && Safe(w.rows, w.billable) && w.billable <= w.minted && "" !in w.minted
    && w.created == [] && w.tasks == [] && w.sent == {}
  }

  lemma NextKeepsInv(w: World, s: Step)
    requires Inv(w) && Enabled(w, s)
    ensures Inv(Next(w, s))
  {
    var w' := Next(w, s);
    match s
    case CallStripe(t, reply) =>
      PathsDifferIff(reply);
      assert w'.billable <= w.billable;
    case CreateInStripe(id) =>
      forall i | 0 <= i < |w.rows| ensures w.rows[i].stripeId != id { assert w.rows[i] in w.rows; }
    case _ =>
  }

  /** Over every interleaving of creations, user cancels, sweep tasks, webhook events and
      Stripe-side endings, with any step failing or never happening: a row marked canceled
      is never one Stripe can still bill. */
  lemma {:induction false} NeverCanceledYetBillable(start: World, steps: seq<Step>)
    requires Quiet(start)
    ensures var w := Run(start, steps); Inv(w) && Safe(w.rows, w.billable)
  {
    if steps != [] {
      NeverCanceledYetBillable(start, steps[..|steps|-1]);
      var w := Run(start, steps[..|steps|-1]);
      if Enabled(w, steps[|steps|-1]) { NextKeepsInv(w, steps[|steps|-1]); }
    }
  }

  /* ---- what is marked ---- */

  /** A cancellation event marks every row of its subscription and no other: a deletion, and an
      update that says when and that the subscription is canceled or expired. Other updates
      change nothing. */
  lemma EventMarks(w: World, e: SubEvent)
    requires Enabled(w, Webhook(e))
    ensures var rows := Next(w, Webhook(e)).rows;
      var cancels := e.Deleted? || (e.canceledAt != 0 && (e.status == "canceled" || e.status == "incomplete_expired"));
      && |rows| == |w.rows|
      && forall i :: 0 <= i < |rows| ==>
           && rows[i].stripeId == w.rows[i].stripeId
           && rows[i].status == if cancels && e.id != "" && w.rows[i].stripeId == e.id then "canceled" else w.rows[i].status
  {
  }

  /** An invoice event gives its status to every row of its subscription and no other. */
  lemma StatusEventMarks(w: World, id: string, status: string)
    requires Enabled(w, WebhookStatus(id, status))
    ensures var rows := Next(w, WebhookStatus(id, status)).rows;
      && |rows| == |w.rows|
      && forall i :: 0 <= i < |rows| ==>
           && rows[i].stripeId == w.rows[i].stripeId
           && rows[i].status == if id != "" && w.rows[i].stripeId == id then status else w.rows[i].status
  {
  }

  /** A cancel that Stripe accepts, or whose error its caller shrugs off, ends with the row
      marked and the subscription dead, and with every other row as it was. */
  lemma CancelMarks(w: World, who: Canceler, row: nat, reply: Reply)
    requires Inv(w) && row < |w.rows| && w.rows[row].stripeId != "" && Proceeds(who, reply)
    ensures var t := |w.tasks|;
      var started := Next(w, StartCancel(who, row));
      Enabled(started, CallStripe(t, reply)) &&
      var called := Next(started, CallStripe(t, reply));
      Enabled(called, MarkRow(t)) &&
      var marked := Next(called, MarkRow(t));
      && marked.rows == w.rows[row := Sub(w.rows[row].stripeId, "canceled")]
      && w.rows[row].stripeId !in marked.billable
  {
    PathsDifferIff(reply);
  }

  /** What is not a cancel: Stripe makes a billable subscription, its row is inserted, Stripe ends
      one by itself and says so. */
  lemma SurroundingsMean(w: World, s: Step)
    requires Inv(w) && Enabled(w, s)
    ensures var w' := Next(w, s);
      match s
      case CreateInStripe(id) => id in w'.billable && w'.created == w.created + [id] && w'.rows == w.rows
      case InsertRow(c, status) => w'.rows == w.rows + [Sub(w.created[c], status)] && w'.billable == w.billable
      case EndInStripe(id) => w'.billable == w.billable - {id} && w'.rows == w.rows
      case Send(e) => e in w'.sent && w'.rows == w.rows && w'.billable == w.billable
      case MarkFails(t) => w'.tasks[t].pc.Failed? && w'.rows == w.rows
      case _ => true
  {
  }

  /** Anybody may cancel any row at any time, with any answer from Stripe; the write may fail; and
      events that Stripe has sent may come, late or again. */
  lemma AnythingMayHappen(w: World, who: Canceler, reply: Reply)
    requires Inv(w)
    ensures forall r :: 0 <= r < |w.rows| ==> Enabled(w, StartCancel(who, r))
    ensures forall t :: 0 <= t < |w.tasks| && w.tasks[t].pc.Calling? ==> Enabled(w, CallStripe(t, reply))
    ensures forall t :: 0 <= t < |w.tasks| && w.tasks[t].pc.Marking? ==> Enabled(w, MarkRow(t)) && Enabled(w, MarkFails(t))
    ensures forall e :: e in w.sent ==> Enabled(w, Webhook(e))
    ensures forall id: string, status: string :: status != "canceled" ==> Enabled(w, WebhookStatus(id, status))
  {
  }

  /** Any other error of Stripe's leaves every row as it was. */
  lemma FailedCallMarksNothing(w: World, t: nat, reply: Reply)
    requires Enabled(w, CallStripe(t, reply)) && !Proceeds(w.tasks[t].who, reply)
    ensures Next(w, CallStripe(t, reply)).rows == w.rows && !Enabled(Next(w, CallStripe(t, reply)), MarkRow(t))
  {
  }

  /** The errors that the callers shrug off, field by field. */
  lemma ToleratedMeans(who: Canceler, e: ApiError)
    ensures Tolerated(who, e) <==>
      || (e.Typed? && e.http == 404 && e.code == "resource_missing")
      || (e.Untyped? && Contains(e.text, "resource_missing"))
      || (who.BySweep? && e.Typed? && e.http == 400 && Contains(e.msg, "incomplete_expired"))
  {
  }

  /* ---- after a cancel ---- */

  /** An invoice event for a subscription, paid or failed. */
  predicate IsStatusFor(s: Step, id: string) {
    s.WebhookStatus? && s.id == id
  }

  /** A row marked canceled leaves that status only by an invoice event for its subscription,
      whose UPDATE is not guarded, and Stripe never bills it again, whatever the row says. */
  lemma {:induction false} CanceledRowsStayDead(w: World, steps: seq<Step>, r: nat)
    requires Inv(w) && r < |w.rows| && w.rows[r].status == CANCELED
    ensures var v := Run(w, steps);
      && Inv(v) && r < |v.rows| && v.rows[r].stripeId == w.rows[r].stripeId
      && v.rows[r].stripeId !in v.billable
      && (v.rows[r].status == CANCELED || exists i :: 0 <= i < |steps| && IsStatusFor(steps[i], w.rows[r].stripeId))
  {
    if steps != [] {
      var p, s := steps[..|steps|-1], steps[|steps|-1];
      CanceledRowsStayDead(w, p, r);
      var v := Run(w, p);
      if Enabled(v, s) {
        NextKeepsInv(v, s);
        DeadStaysDead(v, s, r);
        assert IsStatusFor(s, v.rows[r].stripeId) ==> IsStatusFor(steps[|p|], w.rows[r].stripeId);
      }
      assert forall i :: 0 <= i < |p| ==> steps[i] == p[i];
    }
  }

  lemma DeadStaysDead(w: World, s: Step, r: nat)
    requires Inv(w) && Enabled(w, s) && r < |w.rows| && w.rows[r].stripeId !in w.billable
    ensures var v := Next(w, s);
      && r < |v.rows| && v.rows[r].stripeId == w.rows[r].stripeId && v.rows[r].stripeId !in v.billable
      && (w.rows[r].status == CANCELED ==> v.rows[r].status == CANCELED || IsStatusFor(s, w.rows[r].stripeId))
  {
    if s.CreateInStripe? { assert w.rows[r] in w.rows; }
  }

  lemma CancelMarksIt(id: string)
    requires id != ""
    ensures var start := World([Sub(id, "active")], {id}, {id}, [], [], {});
      Run(start, [StartCancel(ByUser, 0), CallStripe(0, Accepted), MarkRow(0)])
      == World([Sub(id, CANCELED)], {id}, {}, [], [Task(ByUser, 0, id, Finished)], {})
  {
    var start := World([Sub(id, "active")], {id}, {id}, [], [], {});
    var steps := [StartCancel(ByUser, 0), CallStripe(0, Accepted), MarkRow(0)];
    assert steps[..2][..1] == steps[..1] && steps[..1][..0] == [];
    assert Run(start, steps[..1]) == start.(tasks := [Task(ByUser, 0, id, Calling)]);
    assert Run(start, steps[..2]) == start.(tasks := [Task(ByUser, 0, id, Marking)], billable := {});
  }

  /** Such a run: the donor cancels, and the event of an invoice paid before comes late or again. */
  lemma LatePaidInvoiceReactivates(id: string)
    requires id != ""
    ensures var start := World([Sub(id, "active")], {id}, {id}, [], [], {});
      var steps := [StartCancel(ByUser, 0), CallStripe(0, Accepted), MarkRow(0), WebhookStatus(id, "active")];
      && Quiet(start)
      && Run(start, steps[..3]).rows == [Sub(id, CANCELED)]
      && Run(start, steps).rows == [Sub(id, "active")] && id !in Run(start, steps).billable
  {
    var steps := [StartCancel(ByUser, 0), CallStripe(0, Accepted), MarkRow(0), WebhookStatus(id, "active")];
    CancelMarksIt(id);
    assert steps[..|steps|-1] == [StartCancel(ByUser, 0), CallStripe(0, Accepted), MarkRow(0)];
    assert StatusSet([Sub(id, CANCELED)], id, "active") == [Sub(id, "active")];
  }
}
