/** A donor's new subscription against an initiative being closed: SubscriptionService.Create
    reads the initiative's status once, long before it asks Stripe and inserts the row, and the
    sweep cancels what it lists. Model of backend/internal/service/subscription_service.go
    (Create) and of Update and ProcessApproval in initiative_service.go around their sweep,
    which is one of the schedules of module Sweep that ends without error. */
module LateSubscription {

  /** A Create call: past its check, with its Stripe subscription, with its row, or given up. */
  datatype Call = Checked | Minted(id: string) | Inserted(id: string) | Gone

  /** `open` is the published status; `rows` the initiative's subscriptions; `minted` all that
      Stripe ever issued for it and `billable` those it may still charge; `listed` the rows the
      last sweep read, `todo` those it has still to cancel. Other endings would only remove
      from `billable`. */
  datatype World = World(open: bool, calls: seq<Call>, rows: set<string>, minted: set<string>, billable: set<string>,
                         sweeping: bool, listed: set<string>, todo: set<string>)

  datatype Step =
    | Check                       // Create: is the initiative published?
    | Mint(call: nat, id: string) // Stripe issues the subscription
    | Insert(call: nat)
    | GiveUp(call: nat)
    | List                        // a decline or hide begins its sweep
    | CancelOne(id: string)
    | GiveUpSweep
    | Close                       // and writes the status once the sweep is through

  predicate At(w: World, c: nat) {
    c < |w.calls|
  }

  predicate Enabled(w: World, s: Step) {
    match s
    case Check => w.open
    case Mint(c, id) => At(w, c) && w.calls[c].Checked? && id !in w.minted
    case Insert(c) => At(w, c) && w.calls[c].Minted?
    case GiveUp(c) => At(w, c)
    case List => w.open && !w.sweeping
    case CancelOne(id) => w.sweeping && id in w.todo
    case GiveUpSweep => w.sweeping
    case Close => w.sweeping && w.todo == {}
  }

  function Next(w: World, s: Step): World
    requires Enabled(w, s)
  {
    match s
    case Check => w.(calls := w.calls + [Checked])
    case Mint(c, id) => w.(calls := w.calls[c := Minted(id)], minted := w.minted + {id}, billable := w.billable + {id})
    case Insert(c) => w.(calls := w.calls[c := Inserted(w.calls[c].id)], rows := w.rows + {w.calls[c].id})
    case GiveUp(c) => w.(calls := w.calls[c := Gone])
    case List => w.(sweeping := true, listed := w.rows, todo := w.rows)
    case CancelOne(id) => w.(todo := w.todo - {id}, billable := w.billable - {id})
    case GiveUpSweep => w.(sweeping := false)
    case Close => w.(sweeping := false, open := false)
  }

  function Run(w: World, steps: seq<Step>): World {
    if steps == [] then w
    else
      var v := Run(w, steps[..|steps|-1]);
      if Enabled(v, steps[|steps|-1]) then Next(v, steps[|steps|-1]) else v
  }

  /** A published initiative with some subscriptions and nothing under way. */
  predicate Starts(w: World) {
    w.open && !w.sweeping && w.calls == [] && w.minted == w.rows && w.billable <= w.rows && w.listed == w.todo == {}
  }

  ghost predicate Inv(w: World) {
    && w.rows <= w.minted && w.billable <= w.minted && w.listed <= w.rows && w.todo <= w.listed
    && (forall c :: 0 <= c < |w.calls| && (w.calls[c].Minted? || w.calls[c].Inserted?) ==> w.calls[c].id in w.minted)
    && (forall id :: id in w.minted && id !in w.billable ==> id in w.rows && (w.sweeping || !w.open ==> id in w.listed))
    && (w.sweeping ==> w.open && forall id :: id in w.listed && id in w.billable ==> id in w.todo)
    && (!w.open ==> forall id :: id in w.listed ==> id !in w.billable)
  }

  lemma NextKeepsInv(w: World, s: Step)
    requires Inv(w) && Enabled(w, s)
    ensures Inv(Next(w, s))
  {
  }

  lemma {:induction false} RunKeepsInv(w: World, steps: seq<Step>)
    requires Starts(w)
    ensures Inv(Run(w, steps))
  {
    if steps != [] {
      RunKeepsInv(w, steps[..|steps|-1]);
      var v := Run(w, steps[..|steps|-1]);
      if Enabled(v, steps[|steps|-1]) { NextKeepsInv(v, steps[|steps|-1]); }
    }
  }

  /** Once the initiative is closed, in any run, Stripe may still bill exactly those of its
      subscriptions whose rows were not there when the sweep listed them. So it bills none if
      and only if every Create that got a subscription had inserted its row by then; having
      read "published" before the status was written is not enough. */
  lemma ClosedStillBills(w: World, steps: seq<Step>)
    requires Starts(w) && !Run(w, steps).open
    ensures var v := Run(w, steps);
      v.billable == v.minted - v.listed && (v.billable == {} <==> v.minted <= v.listed)
  {
    RunKeepsInv(w, steps);
    var v := Run(w, steps);
    forall id ensures id in v.billable <==> id in v.minted && id !in v.listed {}
  }

  ghost predicate ListsAt(w: World, steps: seq<Step>, i: nat)
    requires i < |steps|
  {
    steps[i].List? && Enabled(Run(w, steps[..i]), steps[i])
  }

  /** The listed rows are those inserted when the last sweep began. */
  lemma {:induction false} ListedThen(w: World, steps: seq<Step>)
    requires Starts(w) && (Run(w, steps).sweeping || !Run(w, steps).open)
    ensures exists i: nat :: i < |steps| && ListsAt(w, steps, i) && Run(w, steps).listed == Run(w, steps[..i]).rows
  {
    var p, s := steps[..|steps|-1], steps[|steps|-1];
    var v := Run(w, p);
    if s.List? && Enabled(v, s) {
      assert ListsAt(w, steps, |p|);
    } else {
      ListedThen(w, p);
      var i: nat :| i < |p| && ListsAt(w, p, i) && v.listed == Run(w, p[..i]).rows;
      assert p[..i] == steps[..i];
      assert ListsAt(w, steps, i);
    }
  }

  /** No Create passes its check once the initiative is closed, and a closed one stays so. */
  lemma {:induction false} ClosedRefuses(w: World, steps: seq<Step>)
    requires !w.open
    ensures !Run(w, steps).open && |Run(w, steps).calls| == |w.calls|
  {
    if steps != [] { ClosedRefuses(w, steps[..|steps|-1]); }
  }

  /** A sweep that gives up leaves the initiative open to a new one; one that is through closes it. */
  lemma SweepEnds(w: World)
    requires Inv(w) && w.sweeping
    ensures Next(w, GiveUpSweep).open && Enabled(Next(w, GiveUpSweep), List)
    ensures w.todo == {} ==> !Next(w, Close).open && Next(w, Close).rows == w.rows
    ensures forall id :: id in w.todo ==> id !in Next(w, CancelOne(id)).billable && Next(w, CancelOne(id)).rows == w.rows
  {
  }

  /** Such a run: a donor's Create passes its check, the initiative is declined, and then the
      subscription is made. */
  lemma SubscribedAfterDecline(id: string)
    ensures var start := World(true, [], {}, {}, {}, false, {}, {});
      var v := Run(start, [Check, List, Close, Mint(0, id), Insert(0)]);
      Starts(start) && !v.open && v.rows == {id} && v.billable == {id}
  {
    var start := World(true, [], {}, {}, {}, false, {}, {});
    var steps := [Check, List, Close, Mint(0, id), Insert(0)];
    var w1 := start.(calls := [Checked]);
    var w4 := w1.(open := false, calls := [Minted(id)], minted := {id}, billable := {id});
    assert steps[..4][..3] == steps[..3] && steps[..3][..2] == steps[..2] && steps[..2][..1] == steps[..1] && steps[..1][..0] == [];
    assert Run(start, steps[..1]) == w1;
    assert Run(start, steps[..2]) == w1.(sweeping := true);
    assert Run(start, steps[..3]) == w1.(open := false);
    assert Run(start, steps[..4]) == w4;
    assert steps[..|steps|-1] == steps[..4];
  }
}
