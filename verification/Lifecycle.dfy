/** The lifecycle of an initiative: owner edits, approver decisions and attribution.
    Model of Update, UpdateAttribution, ProcessApproval and validateOwnerStatusTransition in
    backend/internal/service/initiative_service.go, with the status type of
    backend/internal/domain/models/initiative.go. Statuses are the stored strings: the code
    writes an owner's spelling as it came and compares, mostly, ignoring case. */
module Lifecycle {
  import opened Options
  import Cancellation
  import opened Sweep

  const SUBMITTED := "submitted"
  const PENDING := "pending"
  const PUBLISHED := "published"
  const DECLINED := "declined"
  const HIDDEN := "hidden"

  /** Simple case folding towards ASCII: the letters, the long s and the Kelvin sign. */
  function FoldChar(c: char): char {
    if 'A' <= c <= 'Z' then c - 'A' + 'a'
    else if c == '\U{17F}' then 's'
    else if c == '\U{212A}' then 'k'
    else c
  }

  function Fold(s: string): (f: string)
    ensures |f| == |s|
  {
    seq(|s|, i requires 0 <= i < |s| => FoldChar(s[i]))
  }

  /** One letter of a lower-case word, in either case or as the two characters beyond ASCII that
      fold to a letter of ASCII. */
  predicate SameLetter(c: char, d: char) {
    || c == d
    || ('a' <= d <= 'z' && c as int == d as int - 32)
    || (d == 's' && c == '\U{17F}')
    || (d == 'k' && c == '\U{212A}')
  }

  /** What it means that a string equals a lower-case word ignoring case. */
  lemma FoldMeans(s: string, word: string)
    requires forall i :: 0 <= i < |word| ==> 'a' <= word[i] <= 'z'
    ensures Fold(s) == word <==> |s| == |word| && forall i :: 0 <= i < |s| ==> SameLetter(s[i], word[i])
  {
    if |s| == |word| {
      assert forall i :: 0 <= i < |s| ==> (Fold(s)[i] == word[i] <==> SameLetter(s[i], word[i]));
    }
  }

  /** strings.EqualFold against one of the lower-case constants. */
  predicate Is(s: string, status: string) {
    Fold(s) == status
  }

  predicate IsValid(s: string) {
    Is(s, SUBMITTED) || Is(s, PENDING) || Is(s, PUBLISHED) || Is(s, DECLINED) || Is(s, HIDDEN)
  }

  /** The permitted map, looked up by the stored string as it is. */
  function Allowed(from: string): seq<string> {
    if from == SUBMITTED then [PENDING, DECLINED]
    else if from == PENDING then [DECLINED]
    else if from == PUBLISHED then [HIDDEN]
    else if from == HIDDEN then [PUBLISHED]
    else []
  }

  /** The five transitions the service documents for owners, on folded statuses. */
  predicate OwnerPair(from: string, to: string) {
    || (from == SUBMITTED && (to == PENDING || to == DECLINED))
    || (from == PENDING && to == DECLINED)
    || (from == PUBLISHED && to == HIDDEN)
    || (from == HIDDEN && to == PUBLISHED)
  }

  method ValidateOwnerStatusTransition(from: string, to: string) returns (ok: bool)
    ensures ok <==> OwnerMay(from, to)
    // The five pairs, the stored status as it is spelled and the requested one ignoring case.
    ensures ok <==>
      || (from == "submitted" && (Fold(to) == "pending" || Fold(to) == "declined"))
      || (from == "pending" && Fold(to) == "declined")
      || (from == "published" && Fold(to) == "hidden")
      || (from == "hidden" && Fold(to) == "published")
  {
    OwnerMayIff(from, to);
    ConstantsFold();
    if !IsValid(to) { return false; }
    var allowed := Allowed(from);
    for i := 0 to |allowed|
      invariant forall j :: 0 <= j < i ==> !Is(to, allowed[j])
    {
      if Is(to, allowed[i]) { return true; }
    }
    ok := false;
  }

  predicate OwnerMay(from: string, to: string) {
    IsValid(to) && exists i :: 0 <= i < |Allowed(from)| && Is(to, Allowed(from)[i])
  }

  lemma ConstantsFold()
    ensures Fold(SUBMITTED) == SUBMITTED && Fold(PENDING) == PENDING && Fold(PUBLISHED) == PUBLISHED
    ensures Fold(DECLINED) == DECLINED && Fold(HIDDEN) == HIDDEN
  {
  }

  /** The documented transitions hold ignoring case exactly when the stored status is spelled
      in lower case; from any other spelling an owner is refused every change. */
  lemma OwnerMayIff(from: string, to: string)
    ensures OwnerMay(from, to) <==> OwnerPair(Fold(from), Fold(to)) && from == Fold(from)
  {
    ConstantsFold();
    if OwnerPair(Fold(from), Fold(to)) && from == Fold(from) {
      var a := Allowed(from);
      assert Is(to, a[0]) || (|a| == 2 && Is(to, a[1]));
    }
  }

  /* ---- approval ---- */

  datatype Action = Approve | Decline

  predicate IsSpace(c: char) {
    c in {' ', '\t', '\n', '\r', '\U{B}', '\U{C}', '\U{85}', '\U{A0}', '\U{1680}', '\U{2028}', '\U{2029}', '\U{202F}',
          '\U{205F}', '\U{3000}'} || '\U{2000}' <= c <= '\U{200A}'
  }

  function TrimSpace(s: string): string {
    if s != "" && IsSpace(s[0]) then TrimSpace(s[1..])
    else if s != "" && IsSpace(s[|s|-1]) then TrimSpace(s[..|s|-1])
    else s
  }

  /** unicode.ToLower where the result is an ASCII letter; other characters are left alone. */
  function LowerChar(c: char): char {
    if 'A' <= c <= 'Z' then c - 'A' + 'a'
    else if c == '\U{130}' then 'i'
    else if c == '\U{212A}' then 'k'
    else c
  }

  function Lower(s: string): string {
    seq(|s|, i requires 0 <= i < |s| => LowerChar(s[i]))
  }

  /** What lower-casing takes for a lower-case word. */
  lemma LowerMeans(s: string, word: string)
    requires forall i :: 0 <= i < |word| ==> 'a' <= word[i] <= 'z'
    ensures Lower(s) == word <==>
      |s| == |word| && forall i :: 0 <= i < |s| ==>
        s[i] == word[i] || s[i] as int == word[i] as int - 32 || (s[i] == '\U{130}' && word[i] == 'i') || (s[i] == '\U{212A}' && word[i] == 'k')
  {
    if |s| == |word| {
      assert forall i :: 0 <= i < |s| ==>
        (Lower(s)[i] == word[i] <==>
          s[i] == word[i] || s[i] as int == word[i] as int - 32 || (s[i] == '\U{130}' && word[i] == 'i') || (s[i] == '\U{212A}' && word[i] == 'k'));
    }
  }

  predicate Blank(s: string) {
    forall i :: 0 <= i < |s| ==> IsSpace(s[i])
  }

  /** Trimming takes the blanks off both ends ... */
  lemma {:induction false} TrimTakes(before: string, s: string, after: string)
    requires Blank(before) && Blank(after)
    requires s == "" || (!IsSpace(s[0]) && !IsSpace(s[|s|-1]))
    ensures TrimSpace(before + s + after) == s
    decreases |before| + |after|
  {
    var all := before + s + after;
    if before != "" {
      assert all[1..] == before[1..] + s + after;
      TrimTakes(before[1..], s, after);
    } else if s == "" && after != "" {
      assert all == after && all[1..] == before + s + after[1..];
      TrimTakes(before, s, after[1..]);
    } else if after != "" {
      assert all[0] == s[0] && all[..|all|-1] == before + s + after[..|after|-1];
      TrimTakes(before, s, after[..|after|-1]);
    } else {
      assert all == s;
    }
  }

  /** ... and nothing else. */
  lemma {:induction false} TrimLeaves(s: string) returns (before: string, after: string)
    ensures Blank(before) && Blank(after) && s == before + TrimSpace(s) + after
    ensures var t := TrimSpace(s); t == "" || (!IsSpace(t[0]) && !IsSpace(t[|t|-1]))
  {
    before, after := "", "";
    if s != "" && IsSpace(s[0]) {
      before, after := TrimLeaves(s[1..]);
      Rejoined([s[0]], before, TrimSpace(s), after, "", s);
      before := [s[0]] + before;
    } else if s != "" && IsSpace(s[|s|-1]) {
      before, after := TrimLeaves(s[..|s|-1]);
      Rejoined("", before, TrimSpace(s), after, [s[|s|-1]], s);
      after := after + [s[|s|-1]];
    }
  }

  lemma Rejoined(a: string, before: string, t: string, after: string, b: string, s: string)
    requires s == a + (before + t + after) + b && Blank(a) && Blank(before) && Blank(after) && Blank(b)
    ensures s == (a + before) + t + (after + b) && Blank(a + before) && Blank(after + b)
  {
  }

  /** lower(status) in SQL, on the letters that matter here. */
  function SqlLower(s: string): string {
    seq(|s|, i requires 0 <= i < |s| => if 'A' <= s[i] <= 'Z' then s[i] - 'A' + 'a' else s[i])
  }

  function ParseApprovalAction(s: string): Option<Action> {
    var n := Lower(TrimSpace(s));
    if n == "approve" then Some(Approve) else if n == "decline" then Some(Decline) else None
  }

  /** An action is read ignoring blanks around it and case. */
  lemma ParseMeans(before: string, word: string, after: string)
    requires Blank(before) && Blank(after) && word != "" && !IsSpace(word[0]) && !IsSpace(word[|word|-1])
    ensures ParseApprovalAction(before + word + after) ==
      if Lower(word) == "approve" then Some(Approve) else if Lower(word) == "decline" then Some(Decline) else None
  {
    TrimTakes(before, word, after);
  }

  lemma ActionsLower()
    ensures Lower("approve") == "approve" && Lower("decline") == "decline" && Lower("Approve") == "approve"
  {
  }

  lemma ActionParses(before: string, word: string, after: string, action: string)
    requires before + word + after == action && Blank(before) && Blank(after)
    requires word in {"approve", "decline", "Approve"}
    ensures ParseApprovalAction(action) == if word == "decline" then Some(Decline) else Some(Approve)
  {
    ActionsLower();
    ParseMeans(before, word, after);
  }

  lemma ActionsParse()
    ensures ParseApprovalAction("approve") == Some(Approve) && ParseApprovalAction("decline") == Some(Decline)
  {
    ActionParses("", "approve", "", "approve");
    ActionParses("", "decline", "", "decline");
  }

  /** The blanks and the capital do not matter to whether an action is accepted, though they do
      to what it does. */
  lemma SpacedActionParses(status: string)
    ensures ParseApprovalAction(" Approve\n") == Some(Approve) && AfterApproval(status, " Approve\n") == status
  {
    ActionParses(" ", "Approve", "\n", " Approve\n");
    assert " Approve\n"[0] != "approve"[0] && " Approve\n"[0] != "decline"[0];
  }

  predicate Reviewable(status: string) {
    Is(status, SUBMITTED) || Is(status, PENDING)
  }

  /** ProcessApproval switches on the string it was given, not on what it parsed. */
  function AfterApproval(status: string, action: string): string {
    if action == "approve" then PUBLISHED else if action == "decline" then DECLINED else status
  }

  /** Whether the write about to happen must be preceded by canceling all subscriptions. */
  predicate EndsFunding(status: string) {
    Is(status, DECLINED) || Is(status, HIDDEN)
  }

  /* ---- the service over one stored initiative ---- */

  /** The sweep's surroundings: see InitiativeSubscriptions.CancelAll. */
  datatype SweepEnv = SweepEnv(wired: bool, listed: nat -> bool, plan: nat -> nat -> Choice)

  ghost predicate NothingFails(env: SweepEnv) {
    (forall k :: env.listed(k)) && (forall k, m :: Kind(env.plan(k)(m)))
  }

  ghost predicate AllDead(s: InitiativeSubscriptions)
    reads s
  {
    forall j :: 0 <= j < |s.rows| ==> s.rows[j].status == Cancellation.CANCELED && s.rows[j].stripeId !in s.billable
  }

  class InitiativeService {
    var status: string
    var attribution: string
    const subs: InitiativeSubscriptions

    constructor (attribution: string, subs: InitiativeSubscriptions)
      ensures this.status == SUBMITTED && this.attribution == attribution && this.subs == subs
    {
      this.status, this.attribution, this.subs := SUBMITTED, attribution, subs;
    }

    ghost predicate Valid()
      reads this, subs
    {
      subs.Valid() && Cancellation.Safe(subs.rows, subs.billable)
    }

    /** An owner's edit: `to` is the requested status, `otherwiseValid` whether the rest of the
        input passes, `written` whether the repository write succeeds. */
    method Update(to: Option<string>, otherwiseValid: bool, env: SweepEnv, written: bool) returns (ok: bool)
      requires Valid()
      modifies this`status, subs
      ensures Valid()
      ensures !ok ==> status == old(status)
      ensures ok && to.None? ==> status == old(status)
      ensures ok && to.Some? ==> OwnerMay(old(status), to.value) && status == to.value
      ensures !OwnerMayRequest(old(status), to) || !otherwiseValid ==>
        !ok && subs.rows == old(subs.rows) && subs.billable == old(subs.billable)
      // Funding ends only once every subscription is dead and marked so, and on no other change.
      ensures ok && to.Some? && (Fold(to.value) == "declined" || Fold(to.value) == "hidden") && env.wired ==> AllDead(subs)
      ensures status != old(status) && (Fold(status) == "declined" || Fold(status) == "hidden") && env.wired ==> AllDead(subs)
      ensures to.None? || (Fold(to.value) != "declined" && Fold(to.value) != "hidden") ==>
        subs.rows == old(subs.rows) && subs.billable == old(subs.billable)
      // No cancellation fails, nothing else fails: the edit goes through.
      ensures OwnerMayRequest(old(status), to) && otherwiseValid && written && NothingFails(env) ==> ok
      ensures to.None? && otherwiseValid && written ==> ok
      // This is the step of the lifecycle below.
      ensures Enabled(Now(old(status), attribution), OwnerUpdate(to)) && otherwiseValid && written && NothingFails(env) ==>
        ok && status == Next(Now(old(status), attribution), OwnerUpdate(to)).status
    {
      var next := status;
      var cancelSubs := false;
      if to.Some? {
        var may := ValidateOwnerStatusTransition(status, to.value);
        if !may { return false; }
        next := to.value;
        cancelSubs := EndsFunding(next);
      }
      if !otherwiseValid { return false; }
      if cancelSubs {
        var swept := subs.CancelAll(env.wired, env.listed, env.plan);
        if !swept { return false; }
      }
      if !written { return false; }
      status := next;
      ok := true;
    }

    /** An approver's decision. */
    method ProcessApproval(action: string, env: SweepEnv, written: bool) returns (ok: bool)
      requires Valid()
      modifies this`status, subs
      ensures Valid()
      ensures !ok ==> status == old(status)
      ensures ok ==> Reviewable(old(status)) && ParseApprovalAction(action).Some?
                     && status == AfterApproval(old(status), action)
      // A decision is refused unless the initiative is submitted or pending, in any case ...
      ensures ok ==> Fold(old(status)) == "submitted" || Fold(old(status)) == "pending"
      // ... and else goes through, if nothing fails.
      ensures (Fold(old(status)) == "submitted" || Fold(old(status)) == "pending") && action == "approve" && written ==>
        ok && status == "published"
      ensures (Fold(old(status)) == "submitted" || Fold(old(status)) == "pending") && action == "decline" ==>
        (written && NothingFails(env) ==> ok) && (ok ==> status == "declined")
      ensures ok && action != "approve" && action != "decline" ==> status == old(status)
      ensures Enabled(Now(old(status), attribution), Approval(action)) && written && NothingFails(env) ==>
        ok && status == Next(Now(old(status), attribution), Approval(action)).status
      ensures ok && action == "decline" && env.wired ==> AllDead(subs)
      ensures action != "decline" ==> subs.rows == old(subs.rows) && subs.billable == old(subs.billable)
    {
      ActionsParse();
      if ParseApprovalAction(action).None? { return false; }
      if !Is(status, SUBMITTED) && !Is(status, PENDING) { return false; }
      var next := status;
      if action == "approve" {
        next := PUBLISHED;
      } else if action == "decline" {
        var swept := subs.CancelAll(env.wired, env.listed, env.plan);
        if !swept { return false; }
        next := DECLINED;
      }
      if !written { return false; }
      status := next;
      ok := true;
    }

    /** The status-guarded attribution write; the read and its checks came earlier. */
    method WriteAttribution(a: string) returns (ok: bool)
      modifies this`attribution
      ensures ok <==> SqlLower(status) == SUBMITTED
      ensures attribution == if ok then a else old(attribution)
    {
      ok := SqlLower(status) == SUBMITTED;
      if ok { attribution := a; }
    }
  }

  predicate OwnerMayRequest(from: string, to: Option<string>) {
    to.None? || OwnerMay(from, to.value)
  }

  /* ---- every run of service steps ---- */

  /** `approved`: some approval was accepted and written. `pendingAttributions`: attribution
      requests that passed their read and have not written yet. */
  datatype World = World(status: string, attribution: string, approved: bool, pendingAttributions: seq<string>)

  /** Update and ProcessApproval each read and write in one step; an attribution request reads
      in one step and writes in a later one. A step whose sweep or write fails is not taken. */
  datatype Step =
    | OwnerUpdate(to: Option<string>)
    | Approval(action: string)
    | ReadForAttribution(a: string)
    | WriteAttribution(request: nat)

  /** The world of the two. */
  function Now(status: string, attribution: string): World {
    World(status, attribution, false, [])
  }

  predicate Enabled(w: World, s: Step) {
    match s
    case OwnerUpdate(to) => OwnerMayRequest(w.status, to)
    case Approval(action) => Reviewable(w.status) && ParseApprovalAction(action).Some?
    case ReadForAttribution(_) => Is(w.status, SUBMITTED)
    case WriteAttribution(r) => r < |w.pendingAttributions| && SqlLower(w.status) == SUBMITTED
  }

  function Next(w: World, s: Step): World
    requires Enabled(w, s)
  {
    match s
    case OwnerUpdate(to) => if to.None? then w else w.(status := to.value)
    case Approval(action) =>
      w.(status := AfterApproval(w.status, action), approved := w.approved || action == "approve")
    case ReadForAttribution(a) => w.(pendingAttributions := w.pendingAttributions + [a])
    case WriteAttribution(r) => w.(attribution := w.pendingAttributions[r])
  }

  function Created(attribution: string): World {
    World(SUBMITTED, attribution, false, [])
  }

  function Run(w: World, steps: seq<Step>): World {
    if steps == [] then w
    else
      var v := Run(w, steps[..|steps|-1]);
      if Enabled(v, steps[|steps|-1]) then Next(v, steps[|steps|-1]) else v
  }

  ghost predicate Inv(w: World) {
    && IsValid(w.status)
    && (Is(w.status, SUBMITTED) ==> w.status == SUBMITTED && !w.approved)
    && (Is(w.status, PUBLISHED) || Is(w.status, HIDDEN) ==> w.approved)
  }

  lemma StepRules(w: World, s: Step)
    requires Inv(w) && Enabled(w, s)
    ensures var w' := Next(w, s);
      && Inv(w')
      && (!Is(w.status, SUBMITTED) ==> !Is(w'.status, SUBMITTED) && w'.attribution == w.attribution)
      && (Is(w.status, DECLINED) ==> w'.status == w.status)
      && (w.approved ==> w'.approved)
      && (w'.status != w.status ==>
            if s.OwnerUpdate? then OwnerPair(Fold(w.status), Fold(w'.status))
            else Reviewable(w.status) && (w'.status == PUBLISHED || w'.status == DECLINED))
  {
    ConstantsFold();
    if s.OwnerUpdate? && s.to.Some? { OwnerMayIff(w.status, s.to.value); }
    if s.WriteAttribution? { SqlGuard(w.status); }
  }

  /** The SQL guard compares ignoring the case of ASCII letters. */
  lemma SqlLowerMeans(s: string, word: string)
    requires forall i :: 0 <= i < |word| ==> 'a' <= word[i] <= 'z'
    ensures SqlLower(s) == word <==>
      |s| == |word| && forall i :: 0 <= i < |s| ==> s[i] == word[i] || s[i] as int == word[i] as int - 32
  {
    if |s| == |word| {
      assert forall i :: 0 <= i < |s| ==>
        (SqlLower(s)[i] == word[i] <==> s[i] == word[i] || s[i] as int == word[i] as int - 32);
    }
  }

  /** The SQL guard admits no status the service would not call submitted. */
  lemma SqlGuard(s: string)
    requires SqlLower(s) == SUBMITTED
    ensures Is(s, SUBMITTED)
  {
    forall i | 0 <= i < |s| ensures Fold(s)[i] == SUBMITTED[i] { assert SqlLower(s)[i] == SUBMITTED[i]; }
  }

  lemma {:induction false} RunKeepsInv(w: World, steps: seq<Step>)
    requires Inv(w)
    ensures Inv(Run(w, steps))
  {
    if steps != [] {
      RunKeepsInv(w, steps[..|steps|-1]);
      var v := Run(w, steps[..|steps|-1]);
      if Enabled(v, steps[|steps|-1]) { StepRules(v, steps[|steps|-1]); }
    }
  }

  /** In every run from creation: an initiative is published or hidden only after an approval. */
  lemma PublishedWasApproved(attribution: string, steps: seq<Step>)
    ensures var w := Run(Created(attribution), steps);
      Is(w.status, PUBLISHED) || Is(w.status, HIDDEN) ==> w.approved
  {
    ConstantsFold();
    RunKeepsInv(Created(attribution), steps);
  }

  /** Whatever happens after an initiative leaves submitted: it never comes back, its
      attribution never changes again (even by a request that read it while submitted), and a
      declined one stays declined. */
  lemma {:induction false} LeavingSubmittedIsFinal(w: World, steps: seq<Step>)
    requires Inv(w) && !Is(w.status, SUBMITTED)
    ensures var v := Run(w, steps);
      && !Is(v.status, SUBMITTED)
      && v.attribution == w.attribution
      && (Is(w.status, DECLINED) ==> v.status == w.status)
  {
    if steps != [] {
      LeavingSubmittedIsFinal(w, steps[..|steps|-1]);
      RunKeepsInv(w, steps[..|steps|-1]);
      var v := Run(w, steps[..|steps|-1]);
      if Enabled(v, steps[|steps|-1]) { StepRules(v, steps[|steps|-1]); }
    }
  }

  /** Runs compose, so the above speaks of every point of a run at which the status has left
      submitted. */
  lemma {:induction false} RunsCompose(w: World, a: seq<Step>, b: seq<Step>)
    ensures Run(w, a + b) == Run(Run(w, a), b)
  {
    if b == [] {
      assert a + b == a;
    } else {
      assert (a + b)[..|a + b|-1] == a + b[..|b|-1];
      RunsCompose(w, a, b[..|b|-1]);
    }
  }

  /** Every status change in a run is one of the five owner pairs or an approver's decision on
      a reviewable initiative. */
  lemma EveryChangeIsListed(attribution: string, steps: seq<Step>, s: Step)
    ensures var w := Run(Created(attribution), steps); var w' := Run(Created(attribution), steps + [s]);
      w'.status != w.status ==>
        if s.OwnerUpdate? then OwnerPair(Fold(w.status), Fold(w'.status))
        else s.Approval? && Reviewable(w.status) && (w'.status == PUBLISHED || w'.status == DECLINED)
  {
    ConstantsFold();
    RunKeepsInv(Created(attribution), steps);
    assert (steps + [s])[..|steps|] == steps;
    var w := Run(Created(attribution), steps);
    if Enabled(w, s) { StepRules(w, s); }
  }

  /* ---- a spelling an owner cannot undo ---- */

  /** A published, hidden or declined initiative whose stored status is not in lower case keeps
      that status for ever: owners are refused by the exact-case lookup, approvers by the
      reviewable check. A hidden initiative then cannot be republished. */
  lemma {:induction false} MixedCaseIsStuck(w: World, steps: seq<Step>)
    requires w.status != Fold(w.status) && !Reviewable(w.status)
    ensures Run(w, steps).status == w.status
  {
    if steps != [] {
      MixedCaseIsStuck(w, steps[..|steps|-1]);
      var s := steps[|steps|-1];
      if s.OwnerUpdate? && s.to.Some? { OwnerMayIff(w.status, s.to.value); }
    }
  }

  lemma ApprovalPublishes(attribution: string)
    ensures Run(Created(attribution), [Approval("approve")])
      == Created(attribution).(status := PUBLISHED, approved := true)
  {
    ConstantsFold();
    ActionsParse();
    var w0 := Created(attribution);
    assert Enabled(w0, Approval("approve"));
    assert [Approval("approve")][..0] == [] && Run(w0, []) == w0;
  }

  /** And such a state is reached: an owner hiding a published initiative may spell it "Hidden". */
  lemma OwnerMayStoreMixedCase(attribution: string)
    ensures var w := Run(Created(attribution), [Approval("approve")] + [OwnerUpdate(Some("Hidden"))]);
      w.status == "Hidden" && w.status != Fold(w.status) && !Reviewable(w.status)
  {
    ConstantsFold();
    assert Fold("Hidden") == HIDDEN;
    ApprovalPublishes(attribution);
    OwnerMayIff(PUBLISHED, "Hidden");
    assert ([Approval("approve")] + [OwnerUpdate(Some("Hidden"))])[..1] == [Approval("approve")];
    assert "Hidden"[0] != HIDDEN[0];
  }
}
