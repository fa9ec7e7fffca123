/** Owner edits and approvals as they are: a read of the whole initiative and, later, a write of
    all its columns, with anything in between. Update and ProcessApproval of
    backend/internal/service/initiative_service.go over the UPDATE of
    backend/internal/infrastructure/db/initiative_repository.go, which sets the status, the
    attribution and nearly every other column from the object read, and guards none. */
module StaleEdits {
  import opened Options
  import opened Lifecycle

  /** The columns other than status and attribution that the UPDATE takes from the object read.
      It leaves the rest alone (type, owner, amounts, Stripe IDs), but for updated_by. */
  type Columns = map<string, string>

  /** The stored initiative; `w` holds its status, attribution and open attribution requests. */
  datatype Row = Row(w: World, columns: Columns, updatedBy: string)

  /** What is asked for: an owner's edit, with the columns it sets, whether the slug among them
      is well formed, and who asks; or an approver's decision. */
  datatype Request = Edit(to: Option<string>, sets: Columns, slugOk: bool, editor: string) | Decide(action: string)

  /** A request that passed its checks and holds the row as it read it. */
  datatype Held = Held(status: string, attribution: string, columns: Columns, request: Request, written: bool)

  function SlugOf(columns: Columns): string {
    if "slug" in columns then columns["slug"] else ""
  }

  /** Only a changed slug must be well formed. */
  predicate SlugFits(columns: Columns, r: Request) {
    r.Edit? && "slug" in r.sets ==> r.slugOk || r.sets["slug"] == SlugOf(columns)
  }

  predicate StatusFits(status: string, r: Request) {
    match r
    case Edit(to, _, _, _) => OwnerMayRequest(status, to)
    case Decide(action) => Reviewable(status) && ParseApprovalAction(action).Some?
  }

  /** May a row with this status and these columns be given the request? */
  predicate Admits(status: string, columns: Columns, r: Request) {
    StatusFits(status, r) && SlugFits(columns, r)
  }

  function StatusAfter(status: string, r: Request): string {
    match r
    case Edit(to, _, _, _) => if to.None? then status else to.value
    case Decide(action) => AfterApproval(status, action)
  }

  function ColumnsAfter(columns: Columns, r: Request): Columns {
    if r.Edit? then columns + r.sets else columns
  }

  /** COALESCE: a decision gives no editor, and the stored one stays. */
  function EditorAfter(updatedBy: string, r: Request): string {
    if r.Edit? && r.editor != "" then r.editor else updatedBy
  }

  predicate Approves(r: Request) {
    r.Decide? && r.action == "approve"
  }

  /** The write: every column from the held object, which has no editor of its own. */
  function Written(row: Row, h: Held): Row {
    Row(row.w.(status := StatusAfter(h.status, h.request), attribution := h.attribution,
               approved := row.w.approved || Approves(h.request)),
        ColumnsAfter(h.columns, h.request), EditorAfter(row.updatedBy, h.request))
  }

  /* ---- what an atomic request would do ---- */

  function StepOf(r: Request): Step {
    match r
    case Edit(to, _, _, _) => OwnerUpdate(to)
    case Decide(action) => Approval(action)
  }

  /** One atomic move: a lifecycle step, and the columns it sets if it is an owner's edit. */
  datatype Move = Asked(request: Request) | Attribute(step: Step)

  predicate MoveEnabled(row: Row, m: Move) {
    match m
    case Asked(r) => Enabled(row.w, StepOf(r)) && SlugFits(row.columns, r)
    case Attribute(s) => (s.ReadForAttribution? || s.WriteAttribution?) && Enabled(row.w, s)
  }

  function Moved(row: Row, m: Move): Row {
    if !MoveEnabled(row, m) then row
    else
      match m
      case Asked(r) => Row(Next(row.w, StepOf(r)), ColumnsAfter(row.columns, r), EditorAfter(row.updatedBy, r))
      case Attribute(s) => row.(w := Next(row.w, s))
  }

  function RunMoves(row: Row, moves: seq<Move>): Row {
    if moves == [] then row else Moved(RunMoves(row, moves[..|moves|-1]), moves[|moves|-1])
  }

  /** Atomic runs are the runs of module Lifecycle. */
  lemma {:induction false} MovesAreSteps(row: Row, moves: seq<Move>) returns (steps: seq<Step>)
    ensures RunMoves(row, moves).w == Run(row.w, steps)
  {
    if moves == [] {
      steps := [];
    } else {
      var m := moves[|moves|-1];
      var before := MovesAreSteps(row, moves[..|moves|-1]);
      if MoveEnabled(RunMoves(row, moves[..|moves|-1]), m) {
        var s := if m.Asked? then StepOf(m.request) else m.step;
        steps := before + [s];
        assert steps[..|before|] == before;
      } else {
        steps := before;
      }
    }
  }

  /* ---- when a write is as good as atomic ---- */

  /** The two owner transitions with a common target. */
  predicate BothBefore(status: string, status': string, to: string) {
    Is(to, DECLINED) && status in {SUBMITTED, PENDING} && status' in {SUBMITTED, PENDING}
  }

  /** The row at the write against what was read: nothing that the request does not itself set
      has changed, the status is the one read, or one from which the request leads to the same
      place, and a slug that it sets without being well formed is the one in the row. */
  ghost predicate Fresh(row: Row, h: Held) {
    && row.w.attribution == h.attribution
    && (row.w.status == h.status ||
        match h.request
        case Edit(to, _, _, _) => to.Some? && BothBefore(h.status, row.w.status, to.value)
        case Decide(action) => Reviewable(row.w.status) && action in {"approve", "decline"})
    && SameExcept(row.columns, h.columns, if h.request.Edit? then h.request.sets.Keys else {})
    && SlugFits(row.columns, h.request)
  }

  ghost predicate SameExcept(a: Columns, b: Columns, changed: set<string>) {
    forall c :: c !in changed ==> (c in a <==> c in b) && (c in a ==> a[c] == b[c])
  }

  lemma SameExceptIff(a: Columns, b: Columns, sets: Columns)
    ensures a + sets == b + sets <==> SameExcept(a, b, sets.Keys)
  {
    if a + sets == b + sets {
      forall c | c !in sets.Keys ensures (c in a <==> c in b) && (c in a ==> a[c] == b[c]) {
        assert (c in a + sets <==> c in a) && (c in b + sets <==> c in b);
        if c in a { assert (a + sets)[c] == a[c] && (b + sets)[c] == b[c]; }
      }
    }
  }

  /** From which statuses the request leads to the status it was given by `status`. */
  lemma SameStatusIff(status: string, now: string, r: Request)
    requires StatusFits(status, r)
    ensures StatusFits(now, r) && StatusAfter(now, r) == StatusAfter(status, r) <==>
      now == status ||
      match r
      case Edit(to, _, _, _) => to.Some? && BothBefore(status, now, to.value)
      case Decide(action) => Reviewable(now) && action in {"approve", "decline"}
  {
    ConstantsFold();
    if r.Edit? && r.to.Some? {
      OwnerMayIff(status, r.to.value);
      OwnerMayIff(now, r.to.value);
      SourcesOf(status, now, r.to.value);
    }
  }

  /** Two statuses, spelled as stored, that both lead to a target are equal or are the two
      sources of declined. */
  lemma SourcesOf(status: string, now: string, to: string)
    requires OwnerMay(status, to)
    ensures OwnerMay(now, to) <==> now == status || BothBefore(status, now, to)
  {
    ConstantsFold();
    OwnerMayIff(status, to);
    OwnerMayIff(now, to);
  }

  /** A write leaves the row as the whole request run at that moment would, in status,
      attribution and every other column, if and only if it is fresh. */
  lemma WriteIsAtomicIff(row: Row, h: Held)
    requires Admits(h.status, h.columns, h.request)
    ensures MoveEnabled(row, Asked(h.request)) && Moved(row, Asked(h.request)) == Written(row, h) <==> Fresh(row, h)
  {
    SameStatusIff(h.status, row.w.status, h.request);
    SameExceptIff(row.columns, h.columns, if h.request.Edit? then h.request.sets else map[]);
    assert h.columns + map[] == h.columns && row.columns + map[] == row.columns;
  }

  /** What an atomic request leaves: an edit the columns and the status it names, all others as
      they were, and its editor; a decision its status. Neither touches the attribution. */
  lemma AtomicMeans(row: Row, r: Request)
    requires MoveEnabled(row, Asked(r))
    ensures var now := Moved(row, Asked(r));
      && now.w.attribution == row.w.attribution
      && (r.Edit? ==>
            && now.w.status == (if r.to.Some? then r.to.value else row.w.status)
            && (forall c :: c in r.sets ==> c in now.columns && now.columns[c] == r.sets[c])
            && (forall c :: c !in r.sets ==> (c in now.columns <==> c in row.columns) && (c in row.columns ==> now.columns[c] == row.columns[c]))
            && (r.editor != "" ==> now.updatedBy == r.editor))
      && (r.Decide? ==>
            && now.columns == row.columns && now.updatedBy == row.updatedBy
            && (r.action == "approve" ==> now.w.status == "published")
            && (r.action == "decline" ==> now.w.status == "declined"))
  {
  }

  /** What the write of a held request leaves: the attribution as it was read, and every column
      that the request does not set; only the editor of a decision is the row's. */
  lemma WriteMeans(row: Row, h: Held)
    ensures var now := Written(row, h);
      && now.w.attribution == h.attribution
      && (h.request.Edit? && h.request.to.None? ==> now.w.status == h.status)
      && (forall c :: !(h.request.Edit? && c in h.request.sets) ==>
            (c in now.columns <==> c in h.columns) && (c in h.columns ==> now.columns[c] == h.columns[c]))
      && (h.request.Decide? ==> now.updatedBy == row.updatedBy)
  {
  }

  /* ---- every interleaving of reads and writes ---- */

  datatype Store = Store(row: Row, held: seq<Held>)

  datatype Event =
    | ReadIt(request: Request)
    | WriteIt(held: nat)
    | Attribution(step: Step)   // UpdateAttribution reads and writes apart already

  predicate Happens(s: Store, e: Event) {
    match e
    case ReadIt(r) => Admits(s.row.w.status, s.row.columns, r)
    case WriteIt(h) => h < |s.held| && !s.held[h].written
    case Attribution(step) => MoveEnabled(s.row, Attribute(step))
  }

  function After(s: Store, e: Event): Store {
    if !Happens(s, e) then s
    else
      match e
      case ReadIt(r) => s.(held := s.held + [Held(s.row.w.status, s.row.w.attribution, s.row.columns, r, false)])
      case WriteIt(h) => Store(Written(s.row, s.held[h]), s.held[h := s.held[h].(written := true)])
      case Attribution(step) => s.(row := Moved(s.row, Attribute(step)))
  }

  function RunEvents(s: Store, events: seq<Event>): Store {
    if events == [] then s else After(RunEvents(s, events[..|events|-1]), events[|events|-1])
  }

  /** The moves whose whole effect happens at the writes. */
  function AsMoves(s: Store, events: seq<Event>): seq<Move> {
    if events == [] then []
    else
      var (before, e) := (RunEvents(s, events[..|events|-1]), events[|events|-1]);
      AsMoves(s, events[..|events|-1]) +
      if !Happens(before, e) || e.ReadIt? then []
      else if e.WriteIt? then [Asked(before.held[e.held].request)]
      else [Attribute(e.step)]
  }

  ghost predicate Admitted(s: Store) {
    forall h :: 0 <= h < |s.held| ==> Admits(s.held[h].status, s.held[h].columns, s.held[h].request)
  }

  ghost predicate FreshAt(s: Store, events: seq<Event>, i: nat)
    requires i < |events|
  {
    var before := RunEvents(s, events[..i]);
    events[i].WriteIt? && Happens(before, events[i]) ==> Fresh(before.row, before.held[events[i].held])
  }

  ghost predicate AllFresh(s: Store, events: seq<Event>) {
    forall i: nat :: i < |events| ==> FreshAt(s, events, i)
  }

  lemma {:induction false} StaysAdmitted(s: Store, events: seq<Event>)
    requires Admitted(s)
    ensures Admitted(RunEvents(s, events))
  {
    if events != [] { StaysAdmitted(s, events[..|events|-1]); }
  }

  lemma FreshPrefix(s: Store, events: seq<Event>)
    requires events != [] && AllFresh(s, events)
    ensures AllFresh(s, events[..|events|-1])
  {
    var p := events[..|events|-1];
    forall i: nat | i < |p| ensures FreshAt(s, p, i) {
      assert FreshAt(s, events, i);
      assert p[..i] == events[..i];
    }
  }

  /** A run whose writes are all fresh is an atomic run: the same requests, each whole at the
      moment of its write, give the same row. */
  lemma {:induction false} FreshRunsAreAtomic(s: Store, events: seq<Event>)
    requires Admitted(s) && AllFresh(s, events)
    ensures RunEvents(s, events).row == RunMoves(s.row, AsMoves(s, events))
  {
    if events != [] {
      var p, e := events[..|events|-1], events[|events|-1];
      FreshPrefix(s, events);
      FreshRunsAreAtomic(s, p);
      StaysAdmitted(s, p);
      var before, moves := RunEvents(s, p), AsMoves(s, p);
      if Happens(before, e) && !e.ReadIt? {
        var m := if e.WriteIt? then Asked(before.held[e.held].request) else Attribute(e.step);
        assert (moves + [m])[..|moves|] == moves;
        assert AsMoves(s, events) == moves + [m];
        if e.WriteIt? {
          assert FreshAt(s, events, |p|);
          WriteIsAtomicIff(before.row, before.held[e.held]);
        }
      } else {
        assert AsMoves(s, events) == moves;
      }
    }
  }

  /** So what is proved of atomic runs holds of these: once an initiative has left submitted,
      it does not return, its attribution does not change, and declined is final. */
  lemma FreshRunsKeepTheRules(s: Store, events: seq<Event>)
    requires Admitted(s) && AllFresh(s, events) && Inv(s.row.w) && !Is(s.row.w.status, SUBMITTED)
    ensures var w := RunEvents(s, events).row.w;
      && !Is(w.status, SUBMITTED)
      && w.attribution == s.row.w.attribution
      && (Is(s.row.w.status, DECLINED) ==> w.status == s.row.w.status)
  {
    FreshRunsAreAtomic(s, events);
    var steps := MovesAreSteps(s.row, AsMoves(s, events));
    LeavingSubmittedIsFinal(s.row.w, steps);
  }

  /* ---- what needs no hypothesis ---- */

  predicate Open(status: string) {
    Is(status, PUBLISHED) || Is(status, HIDDEN)
  }

  ghost predicate OpenWasApproved(s: Store) {
    && (Open(s.row.w.status) ==> s.row.w.approved)
    && forall h :: 0 <= h < |s.held| ==>
         Admits(s.held[h].status, s.held[h].columns, s.held[h].request) && (Open(s.held[h].status) ==> s.row.w.approved)
  }

  lemma WriteStaysApproved(s: Store, h: nat)
    requires OpenWasApproved(s) && h < |s.held|
    ensures Open(Written(s.row, s.held[h]).w.status) ==> Written(s.row, s.held[h]).w.approved
  {
    ConstantsFold();
    var held := s.held[h];
    if held.request.Edit? && held.request.to.Some? { OwnerMayIff(held.status, held.request.to.value); }
  }

  /** However stale the writes, an initiative is published or hidden only after an approval. */
  lemma {:induction false} PublishedWasApprovedAnyway(s: Store, events: seq<Event>)
    requires OpenWasApproved(s)
    ensures OpenWasApproved(RunEvents(s, events))
  {
    if events != [] {
      PublishedWasApprovedAnyway(s, events[..|events|-1]);
      var before, e := RunEvents(s, events[..|events|-1]), events[|events|-1];
      if Happens(before, e) && e.WriteIt? { WriteStaysApproved(before, e.held); }
    }
  }

  /* ---- what does ---- */

  function Start(attribution: string): Store {
    Store(Row(Created(attribution), map[], ""), [])
  }

  /** A run given by its stores. */
  lemma {:induction false} RunIs(s: Store, events: seq<Event>, ss: seq<Store>, n: nat)
    requires n <= |events| && |ss| == |events| + 1 && ss[0] == s
    requires forall i :: 0 <= i < |events| ==> After(ss[i], events[i]) == ss[i+1]
    ensures RunEvents(s, events[..n]) == ss[n]
  {
    if n > 0 {
      RunIs(s, events, ss, n - 1);
      assert events[..n][..n-1] == events[..n-1];
    } else {
      assert events[..0] == [];
    }
  }

  function Touch(): Request {
    Edit(None, map[], true, "owner")
  }

  function Taken(a: string, r: Request): Held {
    Held(SUBMITTED, a, map[], r, false)
  }

  lemma SubmittedAdmits()
    ensures StatusFits(SUBMITTED, Touch()) && StatusFits(SUBMITTED, Decide("approve")) && StatusFits(SUBMITTED, Decide("decline"))
    ensures Is(SUBMITTED, SUBMITTED) && SqlLower(SUBMITTED) == SUBMITTED
  {
    ConstantsFold();
    ActionsParse();
  }

  lemma ReadsSubmitted(s: Store, r: Request)
    requires s.row.w.status == SUBMITTED && r in {Touch(), Decide("approve"), Decide("decline")}
    ensures After(s, ReadIt(r)) == s.(held := s.held + [Held(SUBMITTED, s.row.w.attribution, s.row.columns, r, false)])
  {
    SubmittedAdmits();
  }

  lemma AttributionSubmitted(s: Store, b: string)
    requires s.row.w.status == SUBMITTED && s.row.w.pendingAttributions == []
    ensures var s' := After(s, Attribution(ReadForAttribution(b)));
      && s' == s.(row := s.row.(w := s.row.w.(pendingAttributions := [b])))
      && After(s', Attribution(WriteAttribution(0))) == s'.(row := s'.row.(w := s'.row.w.(attribution := b)))
  {
    SubmittedAdmits();
  }

  /** An edit that names no status, read before an accepted change of attribution and written
      after it, puts the old attribution back while the initiative is still submitted. */
  lemma StaleEditLosesAttribution(a: string, b: string)
    ensures var events := [ReadIt(Touch()), Attribution(ReadForAttribution(b)), Attribution(WriteAttribution(0)), WriteIt(0)];
      && RunEvents(Start(a), events[..3]).row.w.attribution == b
      && RunEvents(Start(a), events[..4]).row.w.attribution == a
      && RunEvents(Start(a), events[..4]).row.w.status == SUBMITTED
  {
    var events := [ReadIt(Touch()), Attribution(ReadForAttribution(b)), Attribution(WriteAttribution(0)), WriteIt(0)];
    var h, w := Taken(a, Touch()), Created(a).(pendingAttributions := [b]);
    var ss := [Start(a), Store(Row(Created(a), map[], ""), [h]), Store(Row(w, map[], ""), [h]),
               Store(Row(w.(attribution := b), map[], ""), [h]), Store(Row(w, map[], "owner"), [h.(written := true)])];
    ReadsSubmitted(ss[0], Touch());
    AttributionSubmitted(ss[1], b);
    assert After(ss[0], events[0]) == ss[1];
    assert After(ss[1], events[1]) == ss[2];
    assert After(ss[2], events[2]) == ss[3];
    assert After(ss[3], events[3]) == ss[4];
    RunIs(Start(a), events, ss, 3);
    RunIs(Start(a), events, ss, 4);
  }

  lemma BothRead(a: string, r: Request, r': Request)
    requires r in {Touch(), Decide("approve"), Decide("decline")} && r' in {Touch(), Decide("approve"), Decide("decline")}
    ensures var one := Start(a).(held := [Taken(a, r)]);
      After(Start(a), ReadIt(r)) == one && After(one, ReadIt(r')) == one.(held := [Taken(a, r), Taken(a, r')])
  {
    ReadsSubmitted(Start(a), r);
    ReadsSubmitted(Start(a).(held := [Taken(a, r)]), r');
  }

  /** Two decisions read together: the initiative is declined, and then published. */
  lemma StaleApprovalPublishesDeclined(a: string)
    ensures var events := [ReadIt(Decide("approve")), ReadIt(Decide("decline")), WriteIt(1), WriteIt(0)];
      && RunEvents(Start(a), events[..3]).row.w.status == DECLINED
      && RunEvents(Start(a), events[..4]).row.w.status == PUBLISHED
  {
    var events := [ReadIt(Decide("approve")), ReadIt(Decide("decline")), WriteIt(1), WriteIt(0)];
    var h, g, w := Taken(a, Decide("approve")), Taken(a, Decide("decline")), Created(a);
    var ss := [Start(a), Store(Row(w, map[], ""), [h]), Store(Row(w, map[], ""), [h, g]),
               Store(Row(w.(status := DECLINED), map[], ""), [h, g.(written := true)]),
               Store(Row(w.(status := PUBLISHED, approved := true), map[], ""), [h.(written := true), g.(written := true)])];
    BothRead(a, Decide("approve"), Decide("decline"));
    assert After(ss[2], events[2]) == ss[3];
    assert After(ss[3], events[3]) == ss[4];
    RunIs(Start(a), events, ss, 3);
    RunIs(Start(a), events, ss, 4);
  }

  /** An edit that names no status, read before an approval and written after it, puts the
      published initiative back to submitted. */
  lemma StaleEditReopens(a: string)
    ensures var events := [ReadIt(Touch()), ReadIt(Decide("approve")), WriteIt(1), WriteIt(0)];
      && RunEvents(Start(a), events[..3]).row.w.status == PUBLISHED
      && RunEvents(Start(a), events[..4]).row.w.status == SUBMITTED
  {
    var events := [ReadIt(Touch()), ReadIt(Decide("approve")), WriteIt(1), WriteIt(0)];
    var h, g, w := Taken(a, Touch()), Taken(a, Decide("approve")), Created(a);
    var ss := [Start(a), Store(Row(w, map[], ""), [h]), Store(Row(w, map[], ""), [h, g]),
               Store(Row(w.(status := PUBLISHED, approved := true), map[], ""), [h, g.(written := true)]),
               Store(Row(w.(approved := true), map[], "owner"), [h.(written := true), g.(written := true)])];
    BothRead(a, Touch(), Decide("approve"));
    assert After(ss[2], events[2]) == ss[3];
    assert After(ss[3], events[3]) == ss[4];
    RunIs(Start(a), events, ss, 3);
    RunIs(Start(a), events, ss, 4);
  }

  function Renames(slug: string, ok: bool): Request {
    Edit(None, map["slug" := slug], ok, "owner")
  }

  function SlugEvents(legacy: string, slug: string): seq<Event> {
    [ReadIt(Renames(legacy, false)), ReadIt(Renames(slug, true)), WriteIt(1), WriteIt(0)]
  }

  function SlugStores(a: string, legacy: string, slug: string): seq<Store> {
    var was := Row(Created(a), map["slug" := legacy], "owner");
    var h := Held(SUBMITTED, a, was.columns, Renames(legacy, false), false);
    var g := Held(SUBMITTED, a, was.columns, Renames(slug, true), false);
    [Store(was, []), Store(was, [h]), Store(was, [h, g]),
     Store(was.(columns := map["slug" := slug]), [h, g.(written := true)]), Store(was, [h.(written := true), g.(written := true)])]
  }

  lemma SlugReads(a: string, legacy: string, slug: string)
    ensures var ss, events := SlugStores(a, legacy, slug), SlugEvents(legacy, slug);
      After(ss[0], events[0]) == ss[1] && After(ss[1], events[1]) == ss[2]
  {
  }

  lemma SlugWrites(a: string, legacy: string, slug: string)
    ensures var ss, events := SlugStores(a, legacy, slug), SlugEvents(legacy, slug);
      After(ss[2], events[2]) == ss[3] && After(ss[3], events[3]) == ss[4]
  {
    assert map["slug" := legacy] + map["slug" := slug] == map["slug" := slug];
    assert map["slug" := legacy] + map["slug" := legacy] == map["slug" := legacy];
  }

  /** An edit that repeats a slug which is not well formed, read before another edit replaced
      the slug and written after it, puts it back, where the whole request would be refused. */
  lemma StaleEditRestoresSlug(a: string, legacy: string, slug: string)
    requires legacy != slug
    ensures var s, events := SlugStores(a, legacy, slug)[0], SlugEvents(legacy, slug);
      && SlugOf(RunEvents(s, events[..3]).row.columns) == slug
      && SlugOf(RunEvents(s, events[..4]).row.columns) == legacy
      && !MoveEnabled(RunEvents(s, events[..3]).row, Asked(Renames(legacy, false)))
  {
    var ss, events := SlugStores(a, legacy, slug), SlugEvents(legacy, slug);
    SlugReads(a, legacy, slug);
    SlugWrites(a, legacy, slug);
    RunIs(ss[0], events, ss, 3);
    RunIs(ss[0], events, ss, 4);
  }

  function RevertEvents(b: string): seq<Event> {
    [ReadIt(Decide("approve")), Attribution(ReadForAttribution(b)), Attribution(WriteAttribution(0)),
     ReadIt(Decide("approve")), WriteIt(1), WriteIt(0)]
  }

  function RevertStores(a: string, b: string): seq<Store> {
    var h, g := Taken(a, Decide("approve")), Taken(b, Decide("approve"));
    var w := Created(a).(pendingAttributions := [b]);
    var w' := w.(status := PUBLISHED, approved := true);
    [Start(a), Store(Row(Created(a), map[], ""), [h]), Store(Row(w, map[], ""), [h]),
     Store(Row(w.(attribution := b), map[], ""), [h]), Store(Row(w.(attribution := b), map[], ""), [h, g]),
     Store(Row(w'.(attribution := b), map[], ""), [h, g.(written := true)]),
     Store(Row(w', map[], ""), [h.(written := true), g.(written := true)])]
  }

  /** A second approval, read before a change of attribution that the first one published,
      changes the attribution of a published initiative. */
  lemma StaleApprovalRevertsAttribution(a: string, b: string)
    ensures
      && RunEvents(Start(a), RevertEvents(b)[..5]).row.w.status == PUBLISHED
      && RunEvents(Start(a), RevertEvents(b)[..6]).row.w.status == PUBLISHED
      && RunEvents(Start(a), RevertEvents(b)[..5]).row.w.attribution == b
      && RunEvents(Start(a), RevertEvents(b)[..6]).row.w.attribution == a
  {
    RevertReads(a, b);
    RevertWrites(a, b);
    RunIs(Start(a), RevertEvents(b), RevertStores(a, b), 5);
    RunIs(Start(a), RevertEvents(b), RevertStores(a, b), 6);
  }

  lemma RevertReads(a: string, b: string)
    ensures forall i :: 0 <= i < 4 ==> After(RevertStores(a, b)[i], RevertEvents(b)[i]) == RevertStores(a, b)[i+1]
  {
    var ss, events := RevertStores(a, b), RevertEvents(b);
    ReadsSubmitted(ss[0], Decide("approve"));
    AttributionSubmitted(ss[1], b);
    ReadsSubmitted(ss[3], Decide("approve"));
    assert After(ss[0], events[0]) == ss[1];
    assert After(ss[1], events[1]) == ss[2];
    assert After(ss[2], events[2]) == ss[3];
    assert After(ss[3], events[3]) == ss[4];
  }

  lemma RevertWrites(a: string, b: string)
    ensures forall i :: 4 <= i < 6 ==> After(RevertStores(a, b)[i], RevertEvents(b)[i]) == RevertStores(a, b)[i+1]
  {
    var ss, events := RevertStores(a, b), RevertEvents(b);
    assert After(ss[4], events[4]) == ss[5];
    assert After(ss[5], events[5]) == ss[6];
  }
}
