/** The ledger-stats sync: from the Ledger's polluted balances to the stored statistics.
    Model of backend/cmd/ledger-stats-sync/syncer.go and flattenSponsors
    (backend/internal/service/initiative_service.go). */
module LedgerStats {
  import opened Lists
  import opened Options

  /** Names are set by the Ledger only for organizations it keys by domain; "" is unset. */
  datatype RawSponsor = RawSponsor(id: string, name: string, total: int)

  datatype RawBalance = RawBalance(projectID: string, totalCredit: int, totalDebit: int, feeBalance: int,
                                   totalBalance: int, availableBalance: int,
                                   orgs: seq<RawSponsor>, individuals: seq<RawSponsor>)

  datatype Profile = Profile(name: string, avatarURL: string)
  type Profiles = map<string, Profile>

  datatype Sponsor = Sponsor(id: string, name: string, avatarURL: string, total: int)

  datatype Stats = Stats(initiativeID: string, raised: int, debited: int, balance: int, available: int, fees: int,
                         supporters: nat, orgs: seq<Sponsor>, individuals: seq<Sponsor>)

  function Max(a: int, b: int): int {
    if a < b then b else a
  }

  function Abs(a: int): nat {
    if a < 0 then -a else a
  }

  /* ---- the specification of mapBalance ---- */

  /** What the sponsors with a negative total were paid. */
  function PaidOut(sponsors: seq<RawSponsor>): nat {
    if sponsors == [] then 0
    else PaidOut(sponsors[..|sponsors|-1]) + Max(0, -sponsors[|sponsors|-1].total)
  }

  /** Organizations keep the Ledger's name if it gave one; individuals always take their profile's. */
  function Enrich(s: RawSponsor, profiles: Profiles, org: bool): Sponsor {
    if s.id in profiles then
      Sponsor(s.id, if org && s.name != "" then s.name else profiles[s.id].name, profiles[s.id].avatarURL, s.total)
    else
      Sponsor(s.id, if org then s.name else "", "", s.total)
  }

  function Enriched(raw: seq<RawSponsor>, profiles: Profiles, org: bool): (r: seq<Sponsor>)
    ensures |r| <= |raw|
    ensures forall s :: s in r ==> s.id != ""
  {
    if raw == [] then []
    else
      var rest := Enriched(raw[..|raw|-1], profiles, org);
      if raw[|raw|-1].id == "" then rest else rest + [Enrich(raw[|raw|-1], profiles, org)]
  }

  /** It keeps exactly the sponsors with an ID, in order, each with its own ID and total. An
      organization's name is the Ledger's, or else its profile's; a person's is the profile's;
      without a profile there is no avatar. */
  lemma {:induction false} EnrichedMeans(raw: seq<RawSponsor>, profiles: Profiles, org: bool) returns (at: seq<nat>)
    ensures Positions(at, |raw|) && |at| == |Enriched(raw, profiles, org)|
    ensures forall i :: 0 <= i < |raw| ==> (i in at <==> raw[i].id != "")
    ensures forall k :: 0 <= k < |at| ==>
      var (s, r) := (Enriched(raw, profiles, org)[k], raw[at[k]]);
      && s.id == r.id && s.total == r.total
      && s.name == (if org && r.name != "" then r.name else if r.id in profiles then profiles[r.id].name else "")
      && s.avatarURL == (if r.id in profiles then profiles[r.id].avatarURL else "")
  {
    at := [];
    if raw != [] {
      var n := |raw| - 1;
      at := EnrichedMeans(raw[..n], profiles, org);
      if raw[n].id != "" { at := at + [n]; }
    }
  }

  lemma EnrichedIds(raw: seq<RawSponsor>, profiles: Profiles, org: bool, at: seq<nat>)
    requires Positions(at, |raw|) && |at| == |Enriched(raw, profiles, org)|
    requires forall i :: 0 <= i < |raw| ==> (i in at <==> raw[i].id != "")
    requires forall k :: 0 <= k < |at| ==>
      Enriched(raw, profiles, org)[k].id == raw[at[k]].id && Enriched(raw, profiles, org)[k].total == raw[at[k]].total
    ensures SupporterIds(Enriched(raw, profiles, org)) == set r | r in raw && r.id != "" && r.total > 0 :: r.id
  {
    var stored := Enriched(raw, profiles, org);
    forall r | r in raw && r.id != "" && r.total > 0 ensures r.id in SupporterIds(stored) {
      var i :| 0 <= i < |raw| && raw[i] == r;
      var k :| 0 <= k < |at| && at[k] == i;
      assert stored[k] in stored;
    }
    forall s | s in stored && s.total > 0 ensures exists r :: r in raw && r.id != "" && r.total > 0 && r.id == s.id {
      var k :| 0 <= k < |stored| && stored[k] == s;
      assert raw[at[k]] in raw && at[k] in at;
    }
  }

  function Donors(sponsors: seq<Sponsor>): (donors: seq<Sponsor>)
    ensures forall s :: s in donors <==> s in sponsors && s.total > 0
  {
    if sponsors == [] then []
    else
      var last := sponsors[|sponsors|-1];
      assert sponsors == sponsors[..|sponsors|-1] + [last];
      Donors(sponsors[..|sponsors|-1]) + if last.total > 0 then [last] else []
  }

  function Ids(sponsors: seq<Sponsor>): (ids: seq<string>)
    ensures |ids| == |sponsors|
    ensures forall i :: 0 <= i < |ids| ==> ids[i] == sponsors[i].id
  {
    seq(|sponsors|, i requires 0 <= i < |sponsors| => sponsors[i].id)
  }

  function SupporterIds(sponsors: seq<Sponsor>): set<string> {
    set s | s in sponsors && s.total > 0 :: s.id
  }

  /** Distinct IDs with a positive total; an organization and a person with one ID count once. */
  function Supporters(orgs: seq<Sponsor>, individuals: seq<Sponsor>): nat {
    |SupporterIds(orgs) + SupporterIds(individuals)|
  }

  function StatsOf(raw: RawBalance, orgs: Profiles, users: Profiles): Stats {
    var paidOut := PaidOut(raw.orgs) + PaidOut(raw.individuals);
    var enrichedOrgs := Enriched(raw.orgs, orgs, true);
    var enrichedUsers := Enriched(raw.individuals, users, false);
    Stats(raw.projectID, Max(0, raw.totalCredit + paidOut), Abs(raw.totalDebit) + paidOut,
          raw.totalBalance, raw.availableBalance, Abs(raw.feeBalance),
          Supporters(enrichedOrgs, enrichedUsers), enrichedOrgs, enrichedUsers)
  }

  /* ---- mapBalance ---- */

  method EnrichSponsors(raw: seq<RawSponsor>, profiles: Profiles, org: bool) returns (sponsors: seq<Sponsor>)
    ensures sponsors == Enriched(raw, profiles, org)
  {
    sponsors := [];
    for i := 0 to |raw|
      invariant sponsors == Enriched(raw[..i], profiles, org)
    {
      assert raw[..i+1][..i] == raw[..i];
      var s := raw[i];
      if s.id == "" { continue; }
      var entry := Sponsor(s.id, if org then s.name else "", "", s.total);
      if s.id in profiles {
        if !org || entry.name == "" { entry := entry.(name := profiles[s.id].name); }
        entry := entry.(avatarURL := profiles[s.id].avatarURL);
      }
      sponsors := sponsors + [entry];
    }
    assert raw[..|raw|] == raw;
  }

  method AddPaidOut(sponsors: seq<RawSponsor>, negSponsorAbs: nat) returns (sum: nat)
    ensures sum == negSponsorAbs + PaidOut(sponsors)
  {
    sum := negSponsorAbs;
    for i := 0 to |sponsors|
      invariant sum == negSponsorAbs + PaidOut(sponsors[..i])
    {
      assert sponsors[..i+1][..i] == sponsors[..i];
      if sponsors[i].total < 0 { sum := sum + -sponsors[i].total; }
    }
    assert sponsors[..|sponsors|] == sponsors;
  }

  method AddSeen(sponsors: seq<Sponsor>, seen: set<string>) returns (seen': set<string>)
    ensures seen' == seen + SupporterIds(sponsors)
  {
    seen' := seen;
    for i := 0 to |sponsors|
      invariant seen' == seen + SupporterIds(sponsors[..i])
    {
      assert sponsors[..i+1] == sponsors[..i] + [sponsors[i]];
      if sponsors[i].total > 0 { seen' := seen' + {sponsors[i].id}; }
    }
    assert sponsors[..|sponsors|] == sponsors;
  }

  method CountSupporters(orgs: seq<Sponsor>, individuals: seq<Sponsor>) returns (n: nat)
    ensures n == Supporters(orgs, individuals)
  {
    var seen := AddSeen(orgs, {});
    seen := AddSeen(individuals, seen);
    assert seen == SupporterIds(orgs) + SupporterIds(individuals);
    n := |seen|;
  }

  /** The amounts that are not copied. */
  method MapAmounts(raw: RawBalance) returns (totalRaised: int, totalDebit: int, feeBalance: int)
    ensures totalRaised == Max(0, raw.totalCredit + PaidOut(raw.orgs) + PaidOut(raw.individuals))
    ensures totalDebit == Abs(raw.totalDebit) + PaidOut(raw.orgs) + PaidOut(raw.individuals)
    ensures feeBalance == Abs(raw.feeBalance)
  {
    totalDebit := raw.totalDebit;
    if totalDebit < 0 { totalDebit := -totalDebit; }
    feeBalance := raw.feeBalance;
    if feeBalance < 0 { feeBalance := -feeBalance; }
    var negSponsorAbs := AddPaidOut(raw.orgs, 0);
    negSponsorAbs := AddPaidOut(raw.individuals, negSponsorAbs);
    totalRaised := raw.totalCredit + negSponsorAbs;
    if totalRaised < 0 { totalRaised := 0; }
    totalDebit := totalDebit + negSponsorAbs;
  }

  method MapBalance(raw: RawBalance, orgMap: Profiles, userMap: Profiles)
    returns (stats: Stats, ghost orgsAt: seq<nat>, ghost usersAt: seq<nat>)
    ensures stats == StatsOf(raw, orgMap, userMap)
    // Column by column, against the balance: what is copied, and what only loses its sign ...
    ensures stats.initiativeID == raw.projectID && stats.balance == raw.totalBalance && stats.available == raw.availableBalance
    ensures (raw.feeBalance >= 0 ==> stats.fees == raw.feeBalance) && (raw.feeBalance < 0 ==> stats.fees == -raw.feeBalance)
    // ... every organization with an ID, in order, under the Ledger's name or else its own ...
    ensures Positions(orgsAt, |raw.orgs|) && |stats.orgs| == |orgsAt|
    ensures forall i :: 0 <= i < |raw.orgs| ==> (i in orgsAt <==> raw.orgs[i].id != "")
    ensures forall k :: 0 <= k < |orgsAt| ==>
      var (s, r) := (stats.orgs[k], raw.orgs[orgsAt[k]]);
      && s.id == r.id && s.total == r.total
      && s.name == (if r.name != "" then r.name else if r.id in orgMap then orgMap[r.id].name else "")
      && s.avatarURL == (if r.id in orgMap then orgMap[r.id].avatarURL else "")
    // ... every person with an ID, in order, under their own name ...
    ensures Positions(usersAt, |raw.individuals|) && |stats.individuals| == |usersAt|
    ensures forall i :: 0 <= i < |raw.individuals| ==> (i in usersAt <==> raw.individuals[i].id != "")
    ensures forall k :: 0 <= k < |usersAt| ==>
      var (s, r) := (stats.individuals[k], raw.individuals[usersAt[k]]);
      && s.id == r.id && s.total == r.total
      && s.name == (if r.id in userMap then userMap[r.id].name else "")
      && s.avatarURL == (if r.id in userMap then userMap[r.id].avatarURL else "")
    // ... and how many IDs there are with a positive total.
    ensures stats.supporters == |(set r | r in raw.orgs && r.id != "" && r.total > 0 :: r.id) +
                                 (set r | r in raw.individuals && r.id != "" && r.total > 0 :: r.id)|
  {
    orgsAt := EnrichedMeans(raw.orgs, orgMap, true);
    usersAt := EnrichedMeans(raw.individuals, userMap, false);
    EnrichedIds(raw.orgs, orgMap, true, orgsAt);
    EnrichedIds(raw.individuals, userMap, false, usersAt);
    var totalRaised, totalDebit, feeBalance := MapAmounts(raw);
    var orgs := EnrichSponsors(raw.orgs, orgMap, true);
    var individuals := EnrichSponsors(raw.individuals, userMap, false);
    var supporters := CountSupporters(orgs, individuals);
    stats := Stats(raw.projectID, totalRaised, totalDebit, raw.totalBalance, raw.availableBalance, feeBalance,
                   supporters, orgs, individuals);
  }

  /* ---- recovering gross donations ---- */

  datatype Payer = Org(id: string) | Person(id: string) | Nobody

  /** One signed credit of the Ledger. A disbursement misrecorded as a credit has a negative amount. */
  datatype Credit = Credit(payer: Payer, amount: int)

  function Sum(credits: seq<Credit>): int {
    if credits == [] then 0 else Sum(credits[..|credits|-1]) + credits[|credits|-1].amount
  }

  function By(credits: seq<Credit>, payers: set<Payer>): (r: seq<Credit>)
    ensures forall c :: c in r <==> c in credits && c.payer in payers
  {
    if credits == [] then []
    else
      var last := credits[|credits|-1];
      assert credits == credits[..|credits|-1] + [last];
      By(credits[..|credits|-1], payers) + if last.payer in payers then [last] else []
  }

  function Positive(credits: seq<Credit>): nat {
    if credits == [] then 0 else Positive(credits[..|credits|-1]) + Max(0, credits[|credits|-1].amount)
  }

  function Of(credits: seq<Credit>, p: Payer): int {
    Sum(By(credits, {p}))
  }

  /** The payers a balance lists, organizations first. */
  function Payers(raw: RawBalance): (payers: seq<Payer>)
    ensures |payers| == |raw.orgs| + |raw.individuals|
    ensures forall i :: 0 <= i < |raw.orgs| ==> payers[i] == Org(raw.orgs[i].id)
    ensures forall i :: |raw.orgs| <= i < |payers| ==> payers[i] == Person(raw.individuals[i-|raw.orgs|].id)
  {
    seq(|raw.orgs|, i requires 0 <= i < |raw.orgs| => Org(raw.orgs[i].id)) +
    seq(|raw.individuals|, i requires 0 <= i < |raw.individuals| => Person(raw.individuals[i].id))
  }

  /** The balance is the sum of these credits: each payer of a credit is listed once, with
      the sum of their credits; credits of nobody count only toward the total. */
  ghost predicate Summarizes(raw: RawBalance, credits: seq<Credit>) {
    && raw.totalCredit == Sum(credits)
    && Distinct(Payers(raw))
    && (forall c :: c in credits ==> c.payer == Nobody || c.payer in Payers(raw))
    && (forall s :: s in raw.orgs ==> s.total == Of(credits, Org(s.id)))
    && (forall s :: s in raw.individuals ==> s.total == Of(credits, Person(s.id)))
  }

  /** The payer has no negative credit, or no positive one. */
  ghost predicate Unmixed(credits: seq<Credit>, p: Payer) {
    || (forall c :: c in credits && c.payer == p ==> c.amount >= 0)
    || (forall c :: c in credits && c.payer == p ==> c.amount <= 0)
  }

  lemma {:induction false} SumParts(credits: seq<Credit>)
    ensures Sum(credits) <= Positive(credits)
    ensures Sum(credits) == Positive(credits) <==> forall c :: c in credits ==> c.amount >= 0
    ensures Positive(credits) == 0 <==> forall c :: c in credits ==> c.amount <= 0
  {
    if credits != [] {
      var rest, last := credits[..|credits|-1], credits[|credits|-1];
      SumParts(rest);
      assert credits == rest + [last];
      assert last in credits;
    }
  }

  /** Credits by either of two sets of payers. */
  lemma {:induction false} ByUnion(credits: seq<Credit>, ps: set<Payer>, qs: set<Payer>)
    requires ps !! qs
    ensures Sum(By(credits, ps + qs)) == Sum(By(credits, ps)) + Sum(By(credits, qs))
    ensures Positive(By(credits, ps + qs)) == Positive(By(credits, ps)) + Positive(By(credits, qs))
  {
    if credits != [] {
      ByUnion(credits[..|credits|-1], ps, qs);
      ByAppend(credits, ps);
      ByAppend(credits, qs);
      ByAppend(credits, ps + qs);
    }
  }

  lemma ByAppend(credits: seq<Credit>, ps: set<Payer>)
    requires credits != []
    ensures var last := credits[|credits|-1];
      && Sum(By(credits, ps)) == Sum(By(credits[..|credits|-1], ps)) + (if last.payer in ps then last.amount else 0)
      && Positive(By(credits, ps)) ==
           Positive(By(credits[..|credits|-1], ps)) + (if last.payer in ps then Max(0, last.amount) else 0)
  {
    var rest, last := By(credits[..|credits|-1], ps), credits[|credits|-1];
    if last.payer in ps {
      assert By(credits, ps) == rest + [last];
      assert (rest + [last])[..|rest|] == rest;
    } else {
      assert By(credits, ps) == rest;
    }
  }

  lemma {:induction false} ByEverybody(credits: seq<Credit>, ps: set<Payer>)
    requires forall c :: c in credits ==> c.payer in ps
    ensures By(credits, ps) == credits
  {
    if credits != [] {
      var rest, last := credits[..|credits|-1], credits[|credits|-1];
      assert credits == rest + [last];
      ByEverybody(rest, ps);
    }
  }

  /** One payer's total, with what they were paid out added back, is at most their positive
      credits, and equal unless they mix signs. */
  lemma OnePayer(credits: seq<Credit>, p: Payer)
    ensures Of(credits, p) + Max(0, -Of(credits, p)) <= Positive(By(credits, {p}))
    ensures Of(credits, p) + Max(0, -Of(credits, p)) == Positive(By(credits, {p})) <==> Unmixed(credits, p)
  {
    SumParts(By(credits, {p}));
    assert forall c :: c in By(credits, {p}) <==> c in credits && c.payer == p;
  }

  function Negatives(credits: seq<Credit>, payers: seq<Payer>): nat {
    if payers == [] then 0
    else Negatives(credits, payers[..|payers|-1]) + Max(0, -Of(credits, payers[|payers|-1]))
  }

  ghost predicate AllUnmixed(credits: seq<Credit>, payers: seq<Payer>) {
    forall p :: p in payers ==> Unmixed(credits, p)
  }

  lemma {:induction false} ManyPayers(credits: seq<Credit>, payers: seq<Payer>)
    requires Distinct(payers)
    ensures Sum(By(credits, Elements(payers))) + Negatives(credits, payers) <= Positive(By(credits, Elements(payers)))
    ensures Sum(By(credits, Elements(payers))) + Negatives(credits, payers) == Positive(By(credits, Elements(payers)))
      <==> AllUnmixed(credits, payers)
  {
    if payers == [] {
      NoCredits(credits);
      assert Elements(payers) == {};
    } else {
      var rest, last := payers[..|payers|-1], payers[|payers|-1];
      ManyPayers(credits, rest);
      LastPayer(credits, payers);
      OneMore(credits, Elements(rest), last);
    }
  }

  lemma LastPayer(credits: seq<Credit>, payers: seq<Payer>)
    requires payers != [] && Distinct(payers)
    ensures var rest, last := payers[..|payers|-1], payers[|payers|-1];
      && last !in Elements(rest) && Elements(payers) == Elements(rest) + {last}
      && (AllUnmixed(credits, payers) <==> AllUnmixed(credits, rest) && Unmixed(credits, last))
  {
    assert payers == payers[..|payers|-1] + [payers[|payers|-1]];
  }

  lemma OneMore(credits: seq<Credit>, ps: set<Payer>, p: Payer)
    requires p !in ps
    ensures Sum(By(credits, ps + {p})) == Sum(By(credits, ps)) + Of(credits, p)
    ensures Positive(By(credits, ps + {p})) == Positive(By(credits, ps)) + Positive(By(credits, {p}))
    ensures Of(credits, p) + Max(0, -Of(credits, p)) <= Positive(By(credits, {p}))
    ensures Of(credits, p) + Max(0, -Of(credits, p)) == Positive(By(credits, {p})) <==> Unmixed(credits, p)
  {
    ByUnion(credits, ps, {p});
    OnePayer(credits, p);
  }

  lemma {:induction false} NoCredits(credits: seq<Credit>)
    ensures By(credits, {}) == []
  {
    if credits != [] { NoCredits(credits[..|credits|-1]); }
  }

  lemma {:induction false} PaidOutAppend(a: seq<RawSponsor>, b: seq<RawSponsor>)
    ensures PaidOut(a + b) == PaidOut(a) + PaidOut(b)
  {
    if b == [] {
      assert a + b == a;
    } else {
      assert (a + b)[..|a+b|-1] == a + b[..|b|-1];
      PaidOutAppend(a, b[..|b|-1]);
    }
  }

  lemma {:induction false} PaidOutIsNegatives(credits: seq<Credit>, sponsors: seq<RawSponsor>, payers: seq<Payer>)
    requires |payers| == |sponsors| && forall i :: 0 <= i < |payers| ==> sponsors[i].total == Of(credits, payers[i])
    ensures PaidOut(sponsors) == Negatives(credits, payers)
  {
    if payers != [] { PaidOutIsNegatives(credits, sponsors[..|payers|-1], payers[..|payers|-1]); }
  }

  lemma ListedAndNobody(raw: RawBalance, credits: seq<Credit>)
    requires Summarizes(raw, credits)
    ensures var listed := Elements(Payers(raw));
      && Sum(credits) == Sum(By(credits, listed)) + Sum(By(credits, {Nobody}))
      && Positive(credits) == Positive(By(credits, listed)) + Positive(By(credits, {Nobody}))
    ensures PaidOut(raw.orgs) + PaidOut(raw.individuals) == Negatives(credits, Payers(raw))
  {
    var listed := Elements(Payers(raw));
    ByUnion(credits, listed, {Nobody});
    ByEverybody(credits, listed + {Nobody});
    PaidOutAppend(raw.orgs, raw.individuals);
    PaidOutIsNegatives(credits, raw.orgs + raw.individuals, Payers(raw));
  }

  ghost predicate NobodyOnlyGives(credits: seq<Credit>) {
    forall c :: c in credits && c.payer == Nobody ==> c.amount >= 0
  }

  lemma NobodysCredits(credits: seq<Credit>)
    ensures Sum(By(credits, {Nobody})) <= Positive(By(credits, {Nobody}))
    ensures Sum(By(credits, {Nobody})) == Positive(By(credits, {Nobody})) <==> NobodyOnlyGives(credits)
  {
    SumParts(By(credits, {Nobody}));
    assert NobodyOnlyGives(credits) <==> forall c :: c in By(credits, {Nobody}) ==> c.amount >= 0;
  }

  /** Against the Ledger's own credits: what is stored as raised lies between the Ledger's
      total and the true sum of positive credits. It is exactly the latter when no sponsor
      mixes donations with misrecorded disbursements and no unattributed credit is negative,
      and otherwise never, except that nothing raised is always stored as nothing. */
  lemma GrossRecovery(raw: RawBalance, credits: seq<Credit>, orgs: Profiles, users: Profiles)
    requires Summarizes(raw, credits)
    ensures raw.totalCredit <= StatsOf(raw, orgs, users).raised <= Positive(credits)
    ensures StatsOf(raw, orgs, users).raised == Positive(credits) <==>
      Positive(credits) == 0 || (NobodyOnlyGives(credits) && AllUnmixed(credits, Payers(raw)))
  {
    ListedAndNobody(raw, credits);
    ManyPayers(credits, Payers(raw));
    NobodysCredits(credits);
  }

  /** The disbursements moved from one side to the other cancel out, unless raised was clamped. */
  lemma NetIsKeptIff(raw: RawBalance, orgs: Profiles, users: Profiles)
    ensures var st := StatsOf(raw, orgs, users);
      st.raised - st.debited == raw.totalCredit - Abs(raw.totalDebit) <==>
        raw.totalCredit + PaidOut(raw.orgs) + PaidOut(raw.individuals) >= 0
  {
  }

  /** Which can happen only to a balance with negative unattributed credits. */
  lemma ClampedOnlyByNobody(raw: RawBalance, credits: seq<Credit>)
    requires Summarizes(raw, credits) && NobodyOnlyGives(credits)
    ensures raw.totalCredit + PaidOut(raw.orgs) + PaidOut(raw.individuals) >= 0
  {
    ListedAndNobody(raw, credits);
    NobodysCredits(credits);
    PayersNeverNegative(credits, Payers(raw));
  }

  lemma {:induction false} PayersNeverNegative(credits: seq<Credit>, payers: seq<Payer>)
    requires Distinct(payers)
    ensures Sum(By(credits, Elements(payers))) + Negatives(credits, payers) >= 0
  {
    if payers == [] {
      NoCredits(credits);
      assert Elements(payers) == {};
    } else {
      var rest, last := payers[..|payers|-1], payers[|payers|-1];
      LastPayer(credits, payers);
      PayersNeverNegative(credits, rest);
      OneMore(credits, Elements(rest), last);
    }
  }

  /* ---- the flattened sponsor list ---- */

  /** A sponsor as the API lists it. */
  datatype Listed = Listed(id: string, name: string, avatarURL: string, totalCents: int)

  type Avatars = (string, string) -> string

  function List(s: Sponsor, generated: Avatars, org: bool): Listed {
    Listed(if org then s.id else "", s.name, if s.avatarURL == "" then generated(s.id, s.name) else s.avatarURL, s.total)
  }

  function ListAll(sponsors: seq<Sponsor>, generated: Avatars, org: bool): (r: seq<Listed>)
    ensures |r| == |sponsors|
    ensures forall i :: 0 <= i < |r| ==> r[i] == List(sponsors[i], generated, org)
  {
    seq(|sponsors|, i requires 0 <= i < |sponsors| => List(sponsors[i], generated, org))
  }

  function Cents(): Listed -> int {
    (l: Listed) => l.totalCents
  }

  /** An organization is listed with its ID, a person without; either with an avatar. */
  lemma ListMeans(s: Sponsor, generated: Avatars, org: bool)
    ensures var l := List(s, generated, org);
      && (org ==> l.id == s.id) && (!org ==> l.id == "")
      && l.name == s.name && l.totalCents == s.total
      && (s.avatarURL != "" ==> l.avatarURL == s.avatarURL) && (s.avatarURL == "" ==> l.avatarURL == generated(s.id, s.name))
  {
  }

  /** The donors are the sponsors with a positive total, each once and in order. */
  lemma {:induction false} DonorsMeans(sponsors: seq<Sponsor>) returns (at: seq<nat>)
    ensures Picks(sponsors, (s: Sponsor) => s.total > 0, Donors(sponsors), at)
  {
    at := [];
    if sponsors != [] {
      var rest, last := sponsors[..|sponsors|-1], sponsors[|sponsors|-1];
      at := DonorsMeans(rest);
      at := PicksNext(rest, (s: Sponsor) => s.total > 0, Donors(rest), at, last);
      assert rest + [last] == sponsors;
    }
  }

  lemma ListedStep(sponsors: seq<Sponsor>, i: nat, generated: Avatars, org: bool)
    requires i < |sponsors|
    ensures ListAll(Donors(sponsors[..i+1]), generated, org) ==
            ListAll(Donors(sponsors[..i]), generated, org) +
            if sponsors[i].total > 0 then [List(sponsors[i], generated, org)] else []
  {
    assert sponsors[..i+1][..i] == sponsors[..i];
    var before, after := Donors(sponsors[..i]), Donors(sponsors[..i+1]);
    assert after == before + if sponsors[i].total > 0 then [sponsors[i]] else [];
  }

  method AppendDonors(listed: seq<Listed>, sponsors: seq<Sponsor>, generated: Avatars, org: bool) returns (r: seq<Listed>)
    ensures r == listed + ListAll(Donors(sponsors), generated, org)
  {
    r := [];
    for i := 0 to |sponsors|
      invariant r == ListAll(Donors(sponsors[..i]), generated, org)
    {
      ListedStep(sponsors, i, generated, org);
      if sponsors[i].total <= 0 { continue; }
      r := r + [List(sponsors[i], generated, org)];
    }
    assert sponsors[..|sponsors|] == sponsors;
    r := listed + r;
  }

  lemma ListedArePositive(sponsors: seq<Sponsor>, generated: Avatars, org: bool)
    ensures forall l :: l in ListAll(Donors(sponsors), generated, org) ==> l.totalCents > 0
  {
    forall l | l in ListAll(Donors(sponsors), generated, org) ensures l.totalCents > 0 {
      var i :| 0 <= i < |Donors(sponsors)| && ListAll(Donors(sponsors), generated, org)[i] == l;
      assert Donors(sponsors)[i] in Donors(sponsors);
    }
  }

  method FlattenSponsors(orgs: seq<Sponsor>, individuals: seq<Sponsor>, generated: Avatars) returns (sponsors: seq<Listed>)
    ensures multiset(sponsors) ==
            multiset(ListAll(Donors(orgs), generated, true) + ListAll(Donors(individuals), generated, false))
    ensures |sponsors| == |Donors(orgs)| + |Donors(individuals)|
    ensures Descending(sponsors, Cents())
    ensures forall i, j :: 0 <= i < j < |sponsors| ==> sponsors[i].totalCents >= sponsors[j].totalCents
    ensures forall s :: s in sponsors ==> s.totalCents > 0
  {
    sponsors := AppendDonors([], orgs, generated, true);
    sponsors := AppendDonors(sponsors, individuals, generated, false);
    ListedArePositive(orgs, generated, true);
    ListedArePositive(individuals, generated, false);
    SortedDescends(sponsors, Cents());
    sponsors := Sorted(sponsors, Cents());
  }

  /** The supporter count never exceeds the list shown for it, and matches it exactly when no
      ID is listed twice among the donors. */
  lemma SupportersAtMostListed(orgs: seq<Sponsor>, individuals: seq<Sponsor>)
    ensures var ids := Ids(Donors(orgs)) + Ids(Donors(individuals));
      && Supporters(orgs, individuals) <= |Donors(orgs)| + |Donors(individuals)|
      && (Supporters(orgs, individuals) == |Donors(orgs)| + |Donors(individuals)| <==> Distinct(ids))
  {
    var ids := Ids(Donors(orgs)) + Ids(Donors(individuals));
    assert Elements(ids) == SupporterIds(orgs) + SupporterIds(individuals) by {
      IdsOfDonors(orgs);
      IdsOfDonors(individuals);
    }
    ElementsCount(ids);
  }

  lemma IdsOfDonors(sponsors: seq<Sponsor>)
    ensures forall id :: id in Ids(Donors(sponsors)) <==> id in SupporterIds(sponsors)
  {
    forall id | id in SupporterIds(sponsors) ensures id in Ids(Donors(sponsors)) {
      var s :| s in sponsors && s.total > 0 && s.id == id;
      var i :| 0 <= i < |Donors(sponsors)| && Donors(sponsors)[i] == s;
      assert Ids(Donors(sponsors))[i] == id;
    }
    forall id | id in Ids(Donors(sponsors)) ensures id in SupporterIds(sponsors) {
      var i :| 0 <= i < |Donors(sponsors)| && Ids(Donors(sponsors))[i] == id;
      assert Donors(sponsors)[i] in Donors(sponsors);
    }
  }

  /* ---- the sync ---- */

  /** The last balance with this project ID, by scanning. */
  function LastBalance(balances: seq<RawBalance>, id: string): (r: Option<RawBalance>)
    ensures r.Some? ==> exists i :: 0 <= i < |balances| && balances[i] == r.value && r.value.projectID == id
                                    && forall j :: i < j < |balances| ==> balances[j].projectID != id
    ensures r.None? <==> forall b :: b in balances ==> b.projectID != id
  {
    if balances == [] then None
    else
      var last := balances[|balances|-1];
      assert balances == balances[..|balances|-1] + [last];
      if last.projectID == id then Some(last) else LastBalance(balances[..|balances|-1], id)
  }

  /** What the sync uses for an initiative. Balances without a project ID are nobody's. */
  function BalanceFor(balances: seq<RawBalance>, id: string): Option<RawBalance> {
    if id == "" then None else LastBalance(balances, id)
  }

  lemma BalanceForMeans(balances: seq<RawBalance>, id: string, i: nat)
    requires i < |balances| && balances[i].projectID == id && forall j :: i < j < |balances| ==> balances[j].projectID != id
    ensures BalanceFor(balances, id) == if id == "" then None else Some(balances[i])
  {
    assert balances[i] in balances;
  }

  predicate Indexes(index: map<string, RawBalance>, balances: seq<RawBalance>, id: string) {
    if id in index then BalanceFor(balances, id) == Some(index[id]) else BalanceFor(balances, id) == None
  }

  method BuildBalanceIndex(balances: seq<RawBalance>) returns (index: map<string, RawBalance>)
    ensures forall id :: Indexes(index, balances, id)
  {
    index := map[];
    for i := 0 to |balances|
      invariant forall id :: Indexes(index, balances[..i], id)
    {
      assert balances[..i+1][..i] == balances[..i];
      var b := balances[i];
      ghost var was, seen := index, balances[..i+1];
      if b.projectID != "" { index := index[b.projectID := b]; }
      forall id ensures Indexes(index, seen, id) {
        assert Indexes(was, balances[..i], id);
      }
    }
    assert balances[..|balances|] == balances;
  }

  datatype SyncResult = SyncResult(total: nat, matched: nat, upserted: nat, skipped: nat)

  /** What a run is told by the database and the Ledger; None is an error. */
  datatype Replies = Replies(active: Option<seq<string>>, balances: Option<seq<RawBalance>>,
                             orgs: Option<Profiles>, users: Option<Profiles>, upsertOk: bool)

  /** How many of the first n active initiatives have a balance. */
  function MatchedIDs(active: seq<string>, n: nat, balances: seq<RawBalance>): nat
    requires n <= |active|
  {
    if n == 0 then 0 else MatchedIDs(active, n - 1, balances) + if BalanceFor(balances, active[n-1]).Some? then 1 else 0
  }

  lemma {:induction false} NoneMatched(active: seq<string>, n: nat, balances: seq<RawBalance>)
    requires n <= |active|
    ensures MatchedIDs(active, n, balances) == 0 <==> forall id :: id in active[..n] ==> BalanceFor(balances, id).None?
  {
    if n > 0 {
      NoneMatched(active, n - 1, balances);
      assert active[..n] == active[..n-1] + [active[n-1]];
    }
  }

  /** initiative_ledger_stats after upserting rows in order. */
  function Upserted(table: map<string, Stats>, rows: seq<Stats>): map<string, Stats> {
    if rows == [] then table
    else Upserted(table, rows[..|rows|-1])[rows[|rows|-1].initiativeID := rows[|rows|-1]]
  }

  lemma UpsertedAppend(table: map<string, Stats>, rows: seq<Stats>, row: Stats)
    ensures Upserted(table, rows + [row]) == Upserted(table, rows)[row.initiativeID := row]
  {
    assert (rows + [row])[..|rows|] == rows;
  }

  /** An active initiative with a balance gets the statistics of its last one; no other row changes. */
  predicate SyncedAt(was: map<string, Stats>, now: map<string, Stats>, active: seq<string>,
                     balances: seq<RawBalance>, orgs: Profiles, users: Profiles, id: string)
  {
    if id in active && BalanceFor(balances, id).Some?
    then id in now && now[id] == StatsOf(BalanceFor(balances, id).value, orgs, users)
    else (id in now <==> id in was) && (id in was ==> now[id] == was[id])
  }

  ghost predicate Synced(was: map<string, Stats>, now: map<string, Stats>, active: seq<string>,
                         balances: seq<RawBalance>, orgs: Profiles, users: Profiles)
  {
    forall id :: SyncedAt(was, now, active, balances, orgs, users, id)
  }

  /** One more active initiative. */
  lemma SyncedNext(was: map<string, Stats>, rows: seq<Stats>, active: seq<string>, id: string,
                   balances: seq<RawBalance>, orgs: Profiles, users: Profiles)
    requires Synced(was, Upserted(was, rows), active, balances, orgs, users)
    ensures var last := BalanceFor(balances, id);
      var rows' := if last.Some? then rows + [StatsOf(last.value, orgs, users)] else rows;
      Synced(was, Upserted(was, rows'), active + [id], balances, orgs, users)
  {
    var last := BalanceFor(balances, id);
    var active' := active + [id];
    var next := if last.Some? then Upserted(was, rows)[id := StatsOf(last.value, orgs, users)] else Upserted(was, rows);
    forall other ensures SyncedAt(was, next, active', balances, orgs, users, other) {
      assert SyncedAt(was, Upserted(was, rows), active, balances, orgs, users, other);
    }
    if last.Some? { UpsertedAppend(was, rows, StatsOf(last.value, orgs, users)); }
  }

  class Syncer {
    var table: map<string, Stats>

    constructor (table: map<string, Stats>)
      ensures this.table == table
    {
      this.table := table;
    }

    /** Maps every active initiative the index knows; the others are the skipped ones. */
    method MatchAll(active: seq<string>, index: map<string, RawBalance>, ghost balances: seq<RawBalance>,
                    orgs: Profiles, users: Profiles) returns (toUpsert: seq<Stats>, matched: nat, skipped: nat)
      requires forall id :: Indexes(index, balances, id)
      ensures |toUpsert| == matched == MatchedIDs(active, |active|, balances) && matched + skipped == |active|
      ensures Synced(table, Upserted(table, toUpsert), active, balances, orgs, users)
    {
      toUpsert, matched, skipped := [], 0, 0;
      for i := 0 to |active|
        invariant |toUpsert| == matched == MatchedIDs(active, i, balances) && matched + skipped == i
        invariant Synced(table, Upserted(table, toUpsert), active[..i], balances, orgs, users)
      {
        assert active[..i+1] == active[..i] + [active[i]];
        var id := active[i];
        assert Indexes(index, balances, id);
        SyncedNext(table, toUpsert, active[..i], id, balances, orgs, users);
        if id in index {
          var stats;
          ghost var orgsAt, usersAt;
          stats, orgsAt, usersAt := MapBalance(index[id], orgs, users);
          toUpsert := toUpsert + [stats];
          matched := matched + 1;
        } else {
          skipped := skipped + 1;
        }
      }
      assert active[..|active|] == active;
    }

    method Run(r: Replies) returns (result: SyncResult, ok: bool)
      modifies this
      ensures !ok ==> result == SyncResult(0, 0, 0, 0) && table == old(table)
      // It fails exactly when something that it needs does: with nothing active nothing, and with
      // nothing matched no upsert.
      ensures r.active.None? ==> !ok
      ensures r.active.Some? && |r.active.value| == 0 ==> ok
      ensures r.active.Some? && |r.active.value| > 0 && (r.balances.None? || r.orgs.None? || r.users.None?) ==> !ok
      ensures r.active.Some? && |r.active.value| > 0 && r.balances.Some? && r.orgs.Some? && r.users.Some? ==>
        (ok <==> r.upsertOk || forall id :: id in r.active.value ==> BalanceFor(r.balances.value, id).None?)
      ensures ok ==> r.active.Some? && result.total == |r.active.value| == result.matched + result.skipped
      ensures ok && result.total > 0 ==>
        && r.balances.Some? && r.orgs.Some? && r.users.Some?
        && result.matched == MatchedIDs(r.active.value, |r.active.value|, r.balances.value) == result.upserted
        && Synced(old(table), table, r.active.value, r.balances.value, r.orgs.value, r.users.value)
      ensures ok && result.total == 0 ==> table == old(table)
    {
      result, ok := SyncResult(0, 0, 0, 0), false;
      if r.active.None? { return; }
      var active := r.active.value;
      if |active| == 0 { return result, true; }
      if r.balances.None? { return; }
      var balances := r.balances.value;
      var index := BuildBalanceIndex(balances);
      if r.orgs.None? || r.users.None? { return; }
      var toUpsert, matched, skipped := MatchAll(active, index, balances, r.orgs.value, r.users.value);
      var res := SyncResult(|active|, matched, 0, skipped);
      assert |toUpsert| == 0 ==> toUpsert == [];
      NoneMatched(active, |active|, balances);
      assert active[..|active|] == active;
      if |toUpsert| > 0 {
        if !r.upsertOk { return; }
        table := Upserted(table, toUpsert);
        res := res.(upserted := |toUpsert|);
      }
      return res, true;
    }
  }
}
