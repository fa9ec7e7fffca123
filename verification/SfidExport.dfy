/** The export of matched domains after any number of backfills: donations and their live
    resolvers, the query over both tables, and the domains it leaves out.
    Model of ExportMatches and writeMatches (backend/cmd/b2b-org-backfill/store.go) over the
    subscriptions of module SfidFill. */
module SfidExport {
  import opened Backfill
  import opened SfidFill

  /* ---- donations ---- */

  /** Who may fill donations: a live resolver before and after its lookup, and a backfill
      between its lookup and its UPDATE. A worker may stop at any time. */
  datatype Filler = Asking(gift: nat) | Told(gift: nat, sfid: string) | Bulk(domain: string, sfid: string) | Over

  datatype Gifts = Gifts(gifts: seq<Gift>, fillers: seq<Filler>, clock: nat)

  datatype GiftStep =
    | NewGift(domain: string, live: bool)
    | Ask(filler: nat)
    | FillOne(filler: nat)          // SetB2BOrgSFID
    | Match(domain: string)         // a backfill's lookup
    | FillAll(filler: nat)          // SetDonationsSFID
    | GiveUp(filler: nat)

  predicate GiftEnabled(answers: Answers, g: Gifts, s: GiftStep) {
    match s
    case NewGift(_, _) => true
    case Ask(f) => f < |g.fillers| && g.fillers[f].Asking? && g.fillers[f].gift < |g.gifts|
    case FillOne(f) => f < |g.fillers| && g.fillers[f].Told?
    case Match(d) => d != "" && answers(d, g.clock) != ""
    case FillAll(f) => f < |g.fillers| && g.fillers[f].Bulk?
    case GiveUp(f) => f < |g.fillers|
  }

  function FilledAt(gifts: seq<Gift>, i: nat, sfid: string): seq<Gift> {
    if i < |gifts| && gifts[i].sfid == "" then gifts[i := gifts[i].(sfid := sfid)] else gifts
  }

  function GiftEffect(answers: Answers, g: Gifts, s: GiftStep): Gifts
    requires GiftEnabled(answers, g, s)
  {
    match s
    case NewGift(d, live) =>
      g.(gifts := g.gifts + [Gift(d, "")], fillers := g.fillers + if live && d != "" then [Asking(|g.gifts|)] else [])
    case Ask(f) =>
      var i := g.fillers[f].gift;
      var sfid := answers(g.gifts[i].domain, g.clock);
      g.(fillers := g.fillers[f := if sfid == "" then Over else Told(i, sfid)])
    case FillOne(f) =>
      g.(gifts := FilledAt(g.gifts, g.fillers[f].gift, g.fillers[f].sfid), fillers := g.fillers[f := Over])
    case Match(d) => g.(fillers := g.fillers + [Bulk(d, answers(d, g.clock))])
    case FillAll(f) =>
      g.(gifts := FilledGifts(g.gifts, g.fillers[f].domain, g.fillers[f].sfid), fillers := g.fillers[f := Over])
    case GiveUp(f) => g.(fillers := g.fillers[f := Over])
  }

  function GiftNext(answers: Answers, g: Gifts, s: GiftStep): Gifts {
    (if GiftEnabled(answers, g, s) then GiftEffect(answers, g, s) else g).(clock := g.clock + 1)
  }

  function GiftRun(answers: Answers, g: Gifts, steps: seq<GiftStep>): Gifts {
    if steps == [] then g else GiftNext(answers, GiftRun(answers, g, steps[..|steps|-1]), steps[|steps|-1])
  }

  /** A live resolver fills its own donation, and a backfill every donation of its domain, if
      they are not filled yet; no other donation changes. */
  lemma FillingMeans(answers: Answers, g: Gifts, f: nat)
    requires f < |g.fillers|
    ensures g.fillers[f].Told? ==>
      var now := GiftNext(answers, g, FillOne(f)).gifts;
      |now| == |g.gifts| && forall i :: 0 <= i < |now| ==>
        && now[i].domain == g.gifts[i].domain
        && now[i].sfid == (if i == g.fillers[f].gift && g.gifts[i].sfid == "" then g.fillers[f].sfid else g.gifts[i].sfid)
    ensures g.fillers[f].Bulk? ==>
      var now := GiftNext(answers, g, FillAll(f)).gifts;
      |now| == |g.gifts| && forall i :: 0 <= i < |now| ==>
        && now[i].domain == g.gifts[i].domain
        && now[i].sfid == (if g.gifts[i].domain == g.fillers[f].domain && g.gifts[i].sfid == "" then g.fillers[f].sfid
                           else g.gifts[i].sfid)
  {
  }

  ghost predicate GiftsAgree(gifts: seq<Gift>, lookup: string -> string) {
    forall i :: 0 <= i < |gifts| && gifts[i].sfid != "" ==> gifts[i].sfid == lookup(gifts[i].domain)
  }

  predicate FillerAgrees(gifts: seq<Gift>, f: Filler, lookup: string -> string) {
    match f
    case Asking(i) => i < |gifts| && gifts[i].domain != ""
    case Told(i, sfid) => i < |gifts| && sfid == lookup(gifts[i].domain)
    case Bulk(d, sfid) => sfid == lookup(d)
    case Over => true
  }

  ghost predicate DonationsAgree(g: Gifts, lookup: string -> string) {
    GiftsAgree(g.gifts, lookup) && forall f :: 0 <= f < |g.fillers| ==> FillerAgrees(g.gifts, g.fillers[f], lookup)
  }

  lemma GiftStepAgrees(answers: Answers, lookup: string -> string, g: Gifts, s: GiftStep)
    requires Settled(answers, lookup) && DonationsAgree(g, lookup) && GiftEnabled(answers, g, s)
    ensures DonationsAgree(GiftEffect(answers, g, s), lookup)
  {
    var g' := GiftEffect(answers, g, s);
    if s.Ask? || s.FillOne? || s.FillAll? { assert FillerAgrees(g.gifts, g.fillers[s.filler], lookup); }
    forall i | 0 <= i < |g'.gifts| && g'.gifts[i].sfid != "" ensures g'.gifts[i].sfid == lookup(g'.gifts[i].domain) {
      if i < |g.gifts| && g'.gifts[i] != g.gifts[i] { assert g'.gifts[i].domain == g.gifts[i].domain; }
    }
    forall f | 0 <= f < |g'.fillers| ensures FillerAgrees(g'.gifts, g'.fillers[f], lookup) {
      if f < |g.fillers| { assert FillerAgrees(g.gifts, g.fillers[f], lookup); }
    }
  }

  /** A filled donation holds its domain's answer, too. */
  lemma {:induction false} FilledDonationsAgree(answers: Answers, lookup: string -> string, g: Gifts, steps: seq<GiftStep>)
    requires Settled(answers, lookup) && DonationsAgree(g, lookup)
    ensures DonationsAgree(GiftRun(answers, g, steps), lookup)
  {
    if steps != [] {
      FilledDonationsAgree(answers, lookup, g, steps[..|steps|-1]);
      var before, s := GiftRun(answers, g, steps[..|steps|-1]), steps[|steps|-1];
      if GiftEnabled(answers, before, s) { GiftStepAgrees(answers, lookup, before, s); }
    }
  }

  /* ---- the export ---- */

  /** The filled rows of both tables that have a domain. */
  function Pairs(gifts: seq<Gift>, rows: seq<Row>): set<(string, string)> {
    (set g | g in gifts && g.sfid != "" && g.domain != "" :: (g.domain, g.sfid)) +
    (set r | r in rows && r.sfid != "" && r.domain != "" :: (r.domain, r.sfid))
  }

  lemma PairsMean(gifts: seq<Gift>, rows: seq<Row>, domain: string, sfid: string)
    ensures (domain, sfid) in Pairs(gifts, rows) <==>
      && domain != "" && sfid != ""
      && (Gift(domain, sfid) in gifts || exists r :: r in rows && r.domain == domain && r.sfid == sfid)
  {
    if Gift(domain, sfid) in gifts && domain != "" && sfid != "" {
      assert (Gift(domain, sfid).domain, Gift(domain, sfid).sfid) == (domain, sfid);
    }
  }

  function SfidsOf(pairs: set<(string, string)>, domain: string): set<string> {
    set p | p in pairs && p.0 == domain :: p.1
  }

  /** A line of the query: a domain, one of its SFIDs, and how many it has. */
  datatype MatchRow = MatchRow(domain: string, sfid: string, sfids: nat)

  /** The query's result, in any order. */
  ghost predicate Grouped(matches: seq<MatchRow>, pairs: set<(string, string)>) {
    && (forall i, j :: 0 <= i < j < |matches| ==> matches[i].domain != matches[j].domain)
    && (forall m :: m in matches ==> m.sfid in SfidsOf(pairs, m.domain) && m.sfids == |SfidsOf(pairs, m.domain)|)
    && (forall p :: p in pairs ==> exists m :: m in matches && m.domain == p.0)
  }

  function Singles(matches: seq<MatchRow>): seq<(string, string)> {
    if matches == [] then []
    else
      var m := matches[|matches|-1];
      Singles(matches[..|matches|-1]) + if m.sfids > 1 then [] else [(m.domain, m.sfid)]
  }

  function Conflicts(matches: seq<MatchRow>): seq<string> {
    if matches == [] then []
    else Conflicts(matches[..|matches|-1]) + if matches[|matches|-1].sfids > 1 then [matches[|matches|-1].domain] else []
  }

  method WriteMatches(matches: seq<MatchRow>) returns (csv: seq<(string, string)>, exported: nat, conflicts: seq<string>)
    ensures csv == Singles(matches) && conflicts == Conflicts(matches)
    ensures exported == |csv| && exported + |conflicts| == |matches|
  {
    csv, exported, conflicts := [], 0, [];
    for i := 0 to |matches|
      invariant csv == Singles(matches[..i]) && conflicts == Conflicts(matches[..i])
      invariant exported == |csv| && exported + |conflicts| == i
    {
      assert matches[..i+1][..i] == matches[..i];
      var m := matches[i];
      if m.sfids > 1 {
        conflicts := conflicts + [m.domain];
        continue;
      }
      csv := csv + [(m.domain, m.sfid)];
      exported := exported + 1;
    }
    assert matches[..|matches|] == matches;
  }

  lemma {:induction false} WrittenMeans(matches: seq<MatchRow>)
    ensures forall d, f :: (d, f) in Singles(matches) <==> exists m :: m in matches && m.domain == d && m.sfid == f && m.sfids <= 1
    ensures forall d :: d in Conflicts(matches) <==> exists m :: m in matches && m.domain == d && m.sfids > 1
    ensures (forall m :: m in matches ==> m.sfids <= 1) ==> Conflicts(matches) == []
  {
    if matches != [] {
      assert matches == matches[..|matches|-1] + [matches[|matches|-1]];
      WrittenMeans(matches[..|matches|-1]);
    }
  }

  lemma OnlyOne(s: set<string>, f: string)
    requires f in s && |s| <= 1
    ensures s == {f}
  {
    assert |s - {f}| == 0;
  }

  /** A domain is written with its SFID if it has exactly one, and left out if it has more. */
  lemma ExportMeans(matches: seq<MatchRow>, pairs: set<(string, string)>)
    requires Grouped(matches, pairs)
    ensures forall d, f :: (d, f) in Singles(matches) <==> SfidsOf(pairs, d) == {f}
    ensures forall d :: d in Conflicts(matches) <==> |SfidsOf(pairs, d)| > 1
  {
    WrittenMeans(matches);
    forall d, f ensures (d, f) in Singles(matches) <==> SfidsOf(pairs, d) == {f} { SinglesAt(matches, pairs, d, f); }
    forall d | |SfidsOf(pairs, d)| > 1 ensures d in Conflicts(matches) {
      var f :| f in SfidsOf(pairs, d);
      assert (d, f) in pairs;
    }
  }

  lemma SinglesAt(matches: seq<MatchRow>, pairs: set<(string, string)>, d: string, f: string)
    requires Grouped(matches, pairs)
    ensures (d, f) in Singles(matches) <==> SfidsOf(pairs, d) == {f}
  {
    WrittenMeans(matches);
    if (d, f) in Singles(matches) { OnlyOne(SfidsOf(pairs, d), f); }
    if SfidsOf(pairs, d) == {f} {
      assert f in SfidsOf(pairs, d) && (d, f) in pairs;
      var m :| m in matches && m.domain == d;
      assert m.sfid in SfidsOf(pairs, d);
    }
  }

  /** If the lookup gives no two answers for a domain, then after any runs over donations and
      subscriptions the export leaves out no domain: it has one line for each that is matched in
      either table, with the SFID of every filled row of it. */
  lemma ExportLeavesOutNone(answers: Answers, lookup: string -> string, owner: string -> string, w: World, steps: seq<Step>,
                            g: Gifts, giftSteps: seq<GiftStep>, matches: seq<MatchRow>)
    requires Settled(answers, lookup) && Inv(w) && Agrees(w, lookup, owner) && InsertsOwned(steps, owner)
    requires DonationsAgree(g, lookup)
    requires Grouped(matches, Pairs(GiftRun(answers, g, giftSteps).gifts, Run(answers, w, steps).rows))
    ensures var pairs := Pairs(GiftRun(answers, g, giftSteps).gifts, Run(answers, w, steps).rows);
      && Conflicts(matches) == []
      && (forall p :: p in Singles(matches) <==> p in pairs)
      && (forall p :: p in pairs ==> p.1 == lookup(p.0))
  {
    FilledRowsAgreeWithStripe(answers, lookup, owner, w, steps);
    FilledDonationsAgree(answers, lookup, g, giftSteps);
    PairsAgree(GiftRun(answers, g, giftSteps).gifts, Run(answers, w, steps).rows, lookup, owner);
    OneLineEach(matches, Pairs(GiftRun(answers, g, giftSteps).gifts, Run(answers, w, steps).rows), lookup);
  }

  lemma PairsAgree(gifts: seq<Gift>, rows: seq<Row>, lookup: string -> string, owner: string -> string)
    requires GiftsAgree(gifts, lookup) && RowsAgree(rows, lookup, owner)
    ensures forall p :: p in Pairs(gifts, rows) ==> p.1 == lookup(p.0)
  {
  }

  lemma OneLineEach(matches: seq<MatchRow>, pairs: set<(string, string)>, lookup: string -> string)
    requires Grouped(matches, pairs) && forall p :: p in pairs ==> p.1 == lookup(p.0)
    ensures Conflicts(matches) == [] && forall p :: p in Singles(matches) <==> p in pairs
  {
    ExportMeans(matches, pairs);
    forall d ensures |SfidsOf(pairs, d)| <= 1 {
      assert SfidsOf(pairs, d) <= {lookup(d)};
      SubsetSize(SfidsOf(pairs, d), {lookup(d)});
    }
    WrittenMeans(matches);
    forall p ensures p in Singles(matches) <==> p in pairs {
      if p in pairs { OnlyOne(SfidsOf(pairs, p.0), p.1); }
      assert p in Singles(matches) ==> p.1 in SfidsOf(pairs, p.0);
    }
  }

  lemma SubsetSize(a: set<string>, b: set<string>)
    requires a <= b
    ensures |a| <= |b|
  {
    assert b == a + (b - a);
  }
}
