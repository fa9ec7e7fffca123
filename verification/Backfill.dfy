/** One run of the b2b_org backfill, alone on the tables but with any of its calls failing.
    Model of backfill.go, stripe.go and the writes of store.go in backend/cmd/b2b-org-backfill. */
module Backfill {
  import opened Lists
  import opened SfidFill

  /** The two columns the backfill knows of a donation. "" stands for NULL. */
  datatype Gift = Gift(domain: string, sfid: string)

  datatype Result = Result(domains: nat, matched: nat, noMatch: nat, lookupFailed: nat,
                           donations: nat, subscriptions: nat,
                           stripePatched: nat, stripeSkipped: nat, stripeFailed: nat)

  /* ---- counting rows ---- */

  function Count<T>(s: seq<T>, p: T -> bool): (n: nat)
    ensures n <= |s|
    ensures n == 0 ==> forall i :: 0 <= i < |s| ==> !p(s[i])
  {
    if s == [] then 0 else Count(s[..|s|-1], p) + (if p(s[|s|-1]) then 1 else 0)
  }

  lemma {:induction false} CountUpdate<T>(s: seq<T>, i: nat, x: T, p: T -> bool)
    requires i < |s|
    ensures Count(s[i := x], p) == Count(s, p) - (if p(s[i]) then 1 else 0) + (if p(x) then 1 else 0)
  {
    var n := |s| - 1;
    if i == n {
      assert s[i := x][..n] == s[..n];
    } else {
      assert s[i := x][..n] == s[..n][i := x];
      CountUpdate(s[..n], i, x, p);
    }
  }

  /** Rows satisfying one of two exclusive conditions. */
  lemma {:induction false} CountSplit<T(!new)>(s: seq<T>, p: T -> bool, q: T -> bool, both: T -> bool)
    requires forall x :: both(x) == (p(x) || q(x)) && !(p(x) && q(x))
    ensures Count(s, both) == Count(s, p) + Count(s, q)
  {
    if s != [] { CountSplit(s[..|s|-1], p, q, both); }
  }

  function Unfilled(): Row -> bool {
    (r: Row) => r.sfid == ""
  }

  function UnfilledIn(domains: set<string>): Row -> bool {
    (r: Row) => r.sfid == "" && r.domain in domains
  }

  function UnfilledGift(): Gift -> bool {
    (g: Gift) => g.sfid == ""
  }

  function UnfilledGiftOf(domain: string): Gift -> bool {
    (g: Gift) => g.sfid == "" && g.domain == domain
  }

  /* ---- the queries ---- */

  function FilledGift(g: Gift, domain: string, sfid: string): Gift {
    if g.domain == domain && g.sfid == "" then g.(sfid := sfid) else g
  }

  function FilledGifts(gifts: seq<Gift>, domain: string, sfid: string): (gifts': seq<Gift>)
    ensures |gifts'| == |gifts|
    ensures forall i :: 0 <= i < |gifts| ==> gifts'[i] == FilledGift(gifts[i], domain, sfid)
  {
    seq(|gifts|, i requires 0 <= i < |gifts| => FilledGift(gifts[i], domain, sfid))
  }

  /** The affected-row count of that UPDATE is the drop in unfilled donations. */
  lemma {:induction false} FilledGiftsCount(gifts: seq<Gift>, domain: string, sfid: string)
    requires sfid != ""
    ensures Count(FilledGifts(gifts, domain, sfid), UnfilledGift()) + Count(gifts, UnfilledGiftOf(domain)) ==
            Count(gifts, UnfilledGift())
  {
    if gifts != [] {
      var n := |gifts| - 1;
      FilledGiftsCount(gifts[..n], domain, sfid);
      assert FilledGifts(gifts, domain, sfid)[..n] == FilledGifts(gifts[..n], domain, sfid);
    }
  }

  /** Adds a domain to the UNION. */
  function Included(listed: seq<string>, domain: string, sfid: string): (r: seq<string>)
    requires Distinct(listed)
    ensures Distinct(r)
    ensures forall d :: d in r <==> d in listed || (d == domain && domain != "" && sfid == "")
  {
    if domain != "" && sfid == "" && domain !in listed then listed + [domain] else listed
  }

  /** The distinct domains with an unfilled donation or subscription. */
  function UnmatchedDomains(gifts: seq<Gift>, subs: seq<Row>): (domains: seq<string>)
    ensures Distinct(domains)
    ensures forall d :: d in domains <==> d != "" && HasUnfilled(gifts, subs, d)
    ensures forall g :: g in gifts && g.sfid == "" && g.domain != "" ==> g.domain in domains
    ensures forall r :: r in subs && r.sfid == "" && r.domain != "" ==> r.domain in domains
    decreases |gifts| + |subs|
  {
    if gifts != [] then
      assert gifts == gifts[..|gifts|-1] + [gifts[|gifts|-1]];
      Included(UnmatchedDomains(gifts[..|gifts|-1], subs), gifts[|gifts|-1].domain, gifts[|gifts|-1].sfid)
    else if subs != [] then
      assert subs == subs[..|subs|-1] + [subs[|subs|-1]];
      Included(UnmatchedDomains(gifts, subs[..|subs|-1]), subs[|subs|-1].domain, subs[|subs|-1].sfid)
    else []
  }

  /** A donation or a subscription. */
  predicate HasUnfilled(gifts: seq<Gift>, subs: seq<Row>, domain: string) {
    Gift(domain, "") in gifts || exists r :: 0 <= r < |subs| && subs[r].domain == domain && subs[r].sfid == ""
  }

  /** The unfilled subscriptions of a domain among the first n, by position. */
  function UnmatchedSubscriptions(subs: seq<Row>, n: nat, domain: string): seq<nat>
    requires n <= |subs|
  {
    if n == 0 then []
    else
      UnmatchedSubscriptions(subs, n - 1, domain) +
      if UnfilledIn({domain})(subs[n-1]) then [n - 1] else []
  }

  lemma {:induction false} UnmatchedMeans(subs: seq<Row>, n: nat, domain: string)
    requires n <= |subs|
    ensures var found := UnmatchedSubscriptions(subs, n, domain);
      && |found| == Count(subs[..n], UnfilledIn({domain}))
      && (forall k :: 0 <= k < |found| ==> found[k] < n && UnfilledIn({domain})(subs[found[k]]))
      && (forall j, k :: 0 <= j < k < |found| ==> found[j] < found[k])
      && (forall i :: 0 <= i < n ==> (i in found <==> subs[i].sfid == "" && subs[i].domain == domain))
  {
    if n > 0 {
      UnmatchedMeans(subs, n - 1, domain);
      assert subs[..n][..n-1] == subs[..n-1];
    }
  }

  /* ---- what a run may do to the rows ---- */

  ghost predicate GiftsFilled(was: seq<Gift>, now: seq<Gift>, lookup: string -> string) {
    |now| == |was| && forall i :: 0 <= i < |was| ==>
      now[i] == was[i] || now[i] == FilledGift(was[i], was[i].domain, lookup(was[i].domain))
  }

  predicate SubFilled(was: Row, now: Row, lookup: string -> string) {
    now == was || (was.sfid == "" && now == was.(sfid := lookup(was.domain)))
  }

  ghost predicate SubsFilled(was: seq<Row>, now: seq<Row>, lookup: string -> string) {
    |now| == |was| && forall r :: 0 <= r < |was| ==> SubFilled(was[r], now[r], lookup)
  }

  predicate NeverBilled(s: Stripe, row: Row) {
    row.status == CANCELED || row.stripeId == "" || row.stripeId in s.ended
  }

  /** There is nothing to patch in Stripe, or an item to patch. */
  predicate Patchable(s: Stripe, row: Row) {
    NeverBilled(s, row) || CurrentItem(ItemsOf(s, row.stripeId), row.itemId) != ""
  }

  /** Every unfilled subscription of a domain that Stripe may still bill has an item. */
  ghost predicate DomainPatchable(subs: seq<Row>, s: Stripe, domain: string) {
    forall r :: 0 <= r < |subs| && subs[r].sfid == "" && subs[r].domain == domain ==> Patchable(s, subs[r])
  }

  /** So has every one that the run is to fill. */
  ghost predicate BillableHaveItems(subs: seq<Row>, s: Stripe, lookup: string -> string) {
    forall r :: 0 <= r < |subs| && subs[r].sfid == "" && subs[r].domain != "" && lookup(subs[r].domain) != "" ==>
      Patchable(s, subs[r])
  }

  /** Stripe took the SFID for this subscription, or will never bill it again. */
  ghost predicate Cleared(s: Stripe, row: Row) {
    Patchable(s, row) && (NeverBilled(s, row) || ItemAndSubPatched(s, row))
  }

  /** Stripe has an SFID on the subscription and on the item that bills it. */
  predicate ItemAndSubPatched(s: Stripe, row: Row) {
    row.stripeId in s.meta && (row.stripeId, CurrentItem(ItemsOf(s, row.stripeId), row.itemId)) in s.itemMeta
  }

  /** That is: it is marked canceled, has no Stripe subscription or an ended one, or else Stripe
      has an SFID on the subscription and on an item it has, the stored one if it still has that. */
  ghost predicate Excused(s: Stripe, row: Row) {
    || row.status == "canceled" || row.stripeId == "" || row.stripeId in s.ended
    || (&& row.stripeId in s.meta && row.stripeId in s.items
        && exists item :: && item in s.items[row.stripeId] && (row.stripeId, item) in s.itemMeta
                          && (row.itemId in s.items[row.stripeId] ==> item == row.itemId))
  }

  lemma ClearedMeans(s: Stripe, row: Row)
    requires Cleared(s, row)
    ensures Excused(s, row)
  {
    var items := ItemsOf(s, row.stripeId);
    if items != [] { assert CurrentItem(items, row.itemId) in items; }
  }

  ghost predicate NewlyFilledCleared(was: seq<Row>, now: seq<Row>, s: Stripe)
    requires |now| == |was|
  {
    forall r :: 0 <= r < |was| && was[r].sfid != now[r].sfid ==> Cleared(s, now[r])
  }

  /** What a run has filled holds its own domain's answer, and not ahead of Stripe. */
  ghost predicate FilledRightly(was: seq<Row>, now: seq<Row>, s: Stripe, lookup: string -> string) {
    |now| == |was| && forall r :: 0 <= r < |was| && was[r].sfid != now[r].sfid ==>
      was[r].sfid == "" && now[r].sfid == lookup(was[r].domain) && Excused(s, now[r])
  }

  lemma RightlyFilled(was: seq<Row>, now: seq<Row>, s: Stripe, lookup: string -> string)
    requires SubsFilled(was, now, lookup) && NewlyFilledCleared(was, now, s)
    ensures FilledRightly(was, now, s, lookup)
  {
    forall r | 0 <= r < |was| && was[r].sfid != now[r].sfid ensures Excused(s, now[r]) && now[r].sfid == lookup(was[r].domain) {
      assert SubFilled(was[r], now[r], lookup);
      ClearedMeans(s, now[r]);
    }
  }

  predicate StripeGrows(s: Stripe, s': Stripe) {
    s'.items == s.items && s'.ended == s.ended && s.meta.Keys <= s'.meta.Keys && s.itemMeta.Keys <= s'.itemMeta.Keys
  }

  lemma ClearedGrows(s: Stripe, s': Stripe, row: Row)
    requires StripeGrows(s, s') && Cleared(s, row)
    ensures Cleared(s', row)
  {
    if ItemAndSubPatched(s, row) {
      assert (row.stripeId, CurrentItem(ItemsOf(s', row.stripeId), row.itemId)) in s'.itemMeta.Keys;
    }
  }

  /** Nothing left to do: no unfilled row has a domain the lookup matches. */
  ghost predicate Converged(gifts: seq<Gift>, subs: seq<Row>, lookup: string -> string) {
    forall d :: d != "" && lookup(d) != "" ==> !HasUnfilled(gifts, subs, d)
  }

  /** A row has no domain, or one without a match, or it is filled. */
  lemma ConvergedMeans(gifts: seq<Gift>, subs: seq<Row>, lookup: string -> string)
    ensures Converged(gifts, subs, lookup) <==>
      && (forall g :: g in gifts && g.domain != "" && lookup(g.domain) != "" ==> g.sfid != "")
      && (forall r :: r in subs && r.domain != "" && lookup(r.domain) != "" ==> r.sfid != "")
  {
    forall g | Converged(gifts, subs, lookup) && g in gifts && g.domain != "" && lookup(g.domain) != "" ensures g.sfid != "" {
      assert !HasUnfilled(gifts, subs, g.domain);
    }
    forall r | Converged(gifts, subs, lookup) && r in subs && r.domain != "" && lookup(r.domain) != "" ensures r.sfid != "" {
      assert !HasUnfilled(gifts, subs, r.domain);
    }
  }

  class Backfiller {
    var gifts: seq<Gift>
    var subs: seq<Row>
    var stripe: Stripe
    var calls: nat
    const dryRun: bool
    const lookup: string -> string   // "" is no match
    const fails: nat -> bool         // does the n-th call to the lookup, Stripe or the database fail?

    constructor (gifts: seq<Gift>, subs: seq<Row>, stripe: Stripe, dryRun: bool, lookup: string -> string, fails: nat -> bool)
      ensures this.gifts == gifts && this.subs == subs && this.stripe == stripe && this.calls == 0
      ensures this.dryRun == dryRun && this.lookup == lookup && this.fails == fails
    {
      this.gifts, this.subs, this.stripe, this.calls := gifts, subs, stripe, 0;
      this.dryRun, this.lookup, this.fails := dryRun, lookup, fails;
    }

    ghost predicate NoFaults() {
      forall n :: !fails(n)
    }

    method Call() returns (ok: bool)
      modifies this`calls
      ensures ok == !fails(old(calls)) && calls == old(calls) + 1
    {
      ok := !fails(calls);
      calls := calls + 1;
    }

    /** Item before subscription, so a subscription patched alone is impossible. */
    method PatchLiveSubscription(id: string, item: string, sfid: string) returns (live: bool, ok: bool)
      modifies this`calls, this`stripe
      ensures ok && live ==>
        && id !in stripe.ended && CurrentItem(ItemsOf(stripe, id), item) != ""
        && stripe == SubPatched(ItemPatched(old(stripe), id, CurrentItem(ItemsOf(stripe, id), item), sfid), id, sfid)
      ensures ok && !live ==> id in stripe.ended && stripe == old(stripe)
      ensures !ok ==> !live
      ensures !ok && stripe != old(stripe) ==>
        stripe == ItemPatched(old(stripe), id, CurrentItem(ItemsOf(stripe, id), item), sfid)
      ensures StripeGrows(old(stripe), stripe)
      ensures NoFaults() ==> (ok <==> id in stripe.ended || CurrentItem(ItemsOf(stripe, id), item) != "")
    {
      live := false;
      ok := Call();
      if !ok { return; }
      if id in stripe.ended { return; }
      var current := FindCurrentItem(ItemsOf(stripe, id), item);
      if current == "" { return false, false; }
      ok := Call();
      if !ok { return; }
      stripe := ItemPatched(stripe, id, current, sfid);
      ok := Call();
      if !ok { return; }
      stripe := SubPatched(stripe, id, sfid);
      live := true;
    }

    /** Should the row get the SFID? No after a Stripe failure, which the next run retries. */
    method PatchStripe(sub: Row, sfid: string, res: Result) returns (fill: bool, res': Result)
      modifies this`calls, this`stripe
      ensures StripeGrows(old(stripe), stripe)
      ensures fill ==> Cleared(stripe, sub)
      ensures fill && NeverBilled(stripe, sub) ==>
        stripe == old(stripe) && res' == res.(stripeSkipped := res.stripeSkipped + 1)
      ensures fill && !NeverBilled(stripe, sub) ==>
        && res' == res.(stripePatched := res.stripePatched + 1)
        && stripe == SubPatched(ItemPatched(old(stripe), sub.stripeId,
                                            CurrentItem(ItemsOf(stripe, sub.stripeId), sub.itemId), sfid), sub.stripeId, sfid)
      ensures !fill ==> res' == res.(stripeFailed := res.stripeFailed + 1)
      ensures NoFaults() && Patchable(stripe, sub) ==> fill
      // Stripe is left alone for a row that is canceled or has no Stripe ID, and for a
      // subscription that has ended there; any other is patched, item and subscription.
      ensures fill && sub.status != "canceled" && sub.stripeId != "" && sub.stripeId !in stripe.ended ==>
        && sub.stripeId in stripe.meta && stripe.meta[sub.stripeId] == sfid
        && sub.stripeId in stripe.items
        && exists item :: && item in stripe.items[sub.stripeId] && (sub.itemId in stripe.items[sub.stripeId] ==> item == sub.itemId)
                          && (sub.stripeId, item) in stripe.itemMeta && stripe.itemMeta[(sub.stripeId, item)] == sfid
      ensures sub.status == "canceled" || sub.stripeId == "" ==> fill && stripe == old(stripe)
      // It is the step from Checking of module SfidFill, and the two patches if it leads there.
      ensures AfterRetrieve(old(stripe), sub, sfid).Stopped? ==> !fill
      ensures fill ==>
        var pc := AfterRetrieve(old(stripe), sub, sfid);
        stripe == if pc.PatchingCurrentItem?
                  then SubPatched(ItemPatched(old(stripe), sub.stripeId, pc.item, sfid), sub.stripeId, sfid) else old(stripe)
      ensures NoFaults() ==> (fill <==> !AfterRetrieve(old(stripe), sub, sfid).Stopped?)
    {
      res' := res;
      if sub.status == CANCELED || sub.stripeId == "" {
        return true, res.(stripeSkipped := res.stripeSkipped + 1);
      }
      var live, ok := PatchLiveSubscription(sub.stripeId, sub.itemId, sfid);
      if !ok { return false, res.(stripeFailed := res.stripeFailed + 1); }
      if !live { return true, res.(stripeSkipped := res.stripeSkipped + 1); }
      assert CurrentItem(ItemsOf(stripe, sub.stripeId), sub.itemId) in stripe.items[sub.stripeId];
      return true, res.(stripePatched := res.stripePatched + 1);
    }

    /** One listed subscription: Stripe, then the row. `sub` is the row as it was listed. */
    method FillSubscription(r: nat, sub: Row, sfid: string, res: Result) returns (res': Result, ok: bool)
      requires r < |subs| && subs[r] == sub && sub.sfid == "" && sfid != ""
      modifies this`calls, this`stripe, this`subs
      ensures StripeGrows(old(stripe), stripe)
      ensures ok ==> Tried(old(subs), subs, stripe, r, sfid, res, res')
      ensures !ok ==> subs == old(subs) && CountersStopped(res, res')
      ensures NoFaults() ==> ok && (Patchable(stripe, sub) ==> res'.stripeFailed == res.stripeFailed)
    {
      var fill;
      fill, res' := PatchStripe(sub, sfid, res);
      ok := true;
      if fill {
        ok := Call();
        if !ok { return; }
        subs := Filled(subs, r, sfid);
        assert subs[r].sfid == sfid;
        res' := res'.(subscriptions := res'.subscriptions + 1);
      }
    }

    /** One listed row, with the books of its domain: `read` is the rows as listed, `res0` the
        counters then, `left` the rows still to try after this one. */
    method FillNext(domain: string, sfid: string, r: nat, res: Result,
                    ghost read: seq<Row>, ghost res0: Result, ghost left: nat)
      returns (res': Result, ok: bool)
      requires Underway(domain, sfid, read, subs, stripe, res0, res, left + 1) && sfid != ""
      requires r < |subs| && subs[r] == read[r] && UnfilledIn({domain})(read[r])
      modifies this`calls, this`stripe, this`subs
      ensures StripeGrows(old(stripe), stripe)
      ensures |subs| == |old(subs)| && forall i :: 0 <= i < |subs| && i != r ==> subs[i] == old(subs)[i]
      ensures ok ==> Underway(domain, sfid, read, subs, stripe, res0, res', left)
      ensures !ok ==> SomeFilled(domain, sfid, read, subs, stripe, res0, res')
      ensures NoFaults() ==> ok && (Patchable(stripe, read[r]) ==> res'.stripeFailed == res.stripeFailed)
    {
      ghost var was, before := stripe, subs;
      res', ok := FillSubscription(r, subs[r], sfid, res);
      if ok {
        UnderwayStep(domain, sfid, read, before, subs, was, stripe, r, res0, res, res', left);
      } else {
        UnderwayStops(domain, sfid, read, subs, was, stripe, res0, res, res', left + 1);
      }
    }

    /** Fills the listed subscriptions in turn, stopping at a database error. */
    method FillListed(domain: string, sfid: string, found: seq<nat>, res: Result) returns (res': Result, ok: bool)
      requires sfid != "" && found == UnmatchedSubscriptions(subs, |subs|, domain)
      modifies this`calls, this`stripe, this`subs
      ensures StripeGrows(old(stripe), stripe)
      ensures SomeFilled(domain, sfid, old(subs), subs, stripe, res, res')
      ensures ok ==> Underway(domain, sfid, old(subs), subs, stripe, res, res', 0)
      ensures NoFaults() ==> ok && (DomainPatchable(old(subs), old(stripe), domain) ==> res'.stripeFailed == res.stripeFailed)
    {
      res', ok := res, true;
      ghost var read := subs;
      UnmatchedMeans(subs, |subs|, domain);
      assert subs[..|subs|] == subs;
      for j := 0 to |found|
        invariant ok && StripeGrows(old(stripe), stripe) && |subs| == |read|
        invariant Underway(domain, sfid, read, subs, stripe, res, res', |found| - j)
        invariant forall k :: j <= k < |found| ==> subs[found[k]] == read[found[k]]
        invariant NoFaults() && DomainPatchable(read, old(stripe), domain) ==> res'.stripeFailed == res.stripeFailed
      {
        assert DomainPatchable(read, old(stripe), domain) ==> Patchable(stripe, read[found[j]]);
        res', ok := FillNext(domain, sfid, found[j], res', read, res, |found| - j - 1);
        if !ok { return; }
      }
    }

    /** Lists a matched domain's unfilled subscriptions and fills them. */
    method FillSubscriptions(domain: string, sfid: string, res: Result) returns (res': Result, ok: bool)
      requires sfid != ""
      modifies this`calls, this`stripe, this`subs
      ensures StripeGrows(old(stripe), stripe)
      ensures SomeFilled(domain, sfid, old(subs), subs, stripe, res, res')
      ensures ok ==> Underway(domain, sfid, old(subs), subs, stripe, res, res', 0)
      ensures NoFaults() ==> ok && (DomainPatchable(old(subs), old(stripe), domain) ==> res'.stripeFailed == res.stripeFailed)
    {
      res' := res;
      ok := Call();
      if !ok { return; }
      res', ok := FillListed(domain, sfid, UnmatchedSubscriptions(subs, |subs|, domain), res);
    }

    /** A matched domain: its donations in one UPDATE, then its subscriptions. */
    method FillDomain(domain: string, sfid: string, res: Result) returns (res': Result, ok: bool)
      requires sfid != ""
      modifies this`calls, this`stripe, this`subs, this`gifts
      ensures gifts == old(gifts) || gifts == FilledGifts(old(gifts), domain, sfid)
      ensures ok ==> gifts == FilledGifts(old(gifts), domain, sfid)
      ensures res'.donations - res.donations == Count(old(gifts), UnfilledGift()) - Count(gifts, UnfilledGift())
      ensures StripeGrows(old(stripe), stripe)
      ensures SomeFilled(domain, sfid, old(subs), subs, stripe, res.(donations := res'.donations), res')
      ensures ok ==> Underway(domain, sfid, old(subs), subs, stripe, res.(donations := res'.donations), res', 0)
      ensures NoFaults() ==> ok && (DomainPatchable(old(subs), old(stripe), domain) ==> res'.stripeFailed == res.stripeFailed)
    {
      res' := res;
      ok := Call();
      if !ok { return; }
      var n := Count(gifts, UnfilledGiftOf(domain));
      FilledGiftsCount(gifts, domain, sfid);
      gifts := FilledGifts(gifts, domain, sfid);
      res' := res'.(donations := res'.donations + n);
      res', ok := FillSubscriptions(domain, sfid, res');
    }

    /** One listed domain. `was` is the state the run started from, `hits` what it matched so far. */
    method TryDomain(domains: seq<string>, i: nat, res: Result, ghost was: Snapshot, ghost hits: set<string>)
      returns (res': Result, ok: bool, ghost hits': set<string>)
      requires i < |domains| && Distinct(domains) && domains[i] != ""
      requires RunSoFar(was, Snapshot(gifts, subs, stripe), domains, i, hits, res, lookup, dryRun, NoFaults())
      modifies this`calls, this`stripe, this`subs, this`gifts
      ensures ok ==> RunSoFar(was, Snapshot(gifts, subs, stripe), domains, i + 1, hits', res', lookup, dryRun, NoFaults())
      ensures !ok ==> Filling(was, Snapshot(gifts, subs, stripe), lookup, res')
      ensures !ok ==> !dryRun && !NoneMatch(domains, lookup) && !NoFaults()
    {
      var domain := domains[i];
      ok, res', hits' := true, res, hits;
      ghost var before := Snapshot(gifts, subs, stripe);
      var found := Call();
      if !found {
        res' := res.(lookupFailed := res.lookupFailed + 1);
        Missed(was, before, domains, i, hits, res, res', lookup, dryRun, NoFaults());
      } else if lookup(domain) == "" {
        res' := res.(noMatch := res.noMatch + 1);
        Missed(was, before, domains, i, hits, res, res', lookup, dryRun, NoFaults());
      } else {
        res' := res.(matched := res.matched + 1);
        hits' := hits + {domain};
        if !dryRun {
          ghost var mid := res';
          res', ok := FillDomain(domain, lookup(domain), res');
          FillingStep(was, before, Snapshot(gifts, subs, stripe), lookup, domain, mid, res');
        }
        if ok { Hit(was, before, Snapshot(gifts, subs, stripe), domains, i, hits, res, res', lookup, dryRun, NoFaults()); }
      }
    }

    /** The job. `hits` is the set of domains the lookup matched in this run. */
    method Run() returns (res: Result, ok: bool, ghost hits: set<string>)
      modifies this`calls, this`stripe, this`subs, this`gifts
      // However it ends, it only fills: unfilled rows get their own domain's answer, nothing
      // else changes, no subscription row runs ahead of Stripe, and the rows are counted.
      ensures GiftsFilled(old(gifts), gifts, lookup) && SubsFilled(old(subs), subs, lookup)
      ensures NewlyFilledCleared(old(subs), subs, stripe) && StripeGrows(old(stripe), stripe)
      ensures FilledRightly(old(subs), subs, stripe, lookup)
      ensures res.donations == Count(old(gifts), UnfilledGift()) - Count(gifts, UnfilledGift())
      ensures res.subscriptions == Count(old(subs), Unfilled()) - Count(subs, Unfilled())
      ensures dryRun ==> gifts == old(gifts) && subs == old(subs) && stripe == old(stripe)
      // The counters partition the domains and the subscriptions tried.
      ensures ok ==> res.domains == res.matched + res.noMatch + res.lookupFailed && res.matched == |hits|
      ensures ok ==> res.domains == |UnmatchedDomains(old(gifts), old(subs))|
      ensures ok ==> forall d :: d in hits ==> d in UnmatchedDomains(old(gifts), old(subs)) && lookup(d) != ""
      ensures NoFaults() ==> forall d :: d in UnmatchedDomains(old(gifts), old(subs)) && lookup(d) != "" ==> d in hits
      ensures ok ==> res.subscriptions == res.stripePatched + res.stripeSkipped
      // Unless it was stopped, only Stripe failures leave a matched domain's row unfilled.
      ensures ok && !dryRun ==> Served(gifts, subs, hits, res)
      // Without failures it converges exactly when what Stripe may still bill can be patched,
      // and a run after that writes nothing.
      ensures NoFaults() ==> ok && res.lookupFailed == 0
      ensures NoFaults() && BillableHaveItems(old(subs), old(stripe), lookup) ==> res.stripeFailed == 0
      ensures NoFaults() && !dryRun ==>
        (Converged(gifts, subs, lookup) <==> BillableHaveItems(old(subs), old(stripe), lookup))
      ensures old(Converged(gifts, subs, lookup)) ==>
        gifts == old(gifts) && subs == old(subs) && stripe == old(stripe) && res.matched == 0
    {
      hits := {};
      res := Result(0, 0, 0, 0, 0, 0, 0, 0, 0);
      ok := Call();
      if !ok { return; }
      var domains := UnmatchedDomains(gifts, subs);
      res := res.(domains := |domains|);
      ghost var was := Snapshot(gifts, subs, stripe);
      NoneCounted(subs);
      for i := 0 to |domains|
        invariant ok && RunSoFar(was, Snapshot(gifts, subs, stripe), domains, i, hits, res, lookup, dryRun, NoFaults())
      {
        assert domains[i] in domains && domains[i] != "";
        res, ok, hits := TryDomain(domains, i, res, was, hits);
        if !ok {
          assert Converged(was.gifts, was.subs, lookup) ==> NoneMatch(domains, lookup);
          RightlyFilled(was.subs, subs, stripe, lookup);
          return;
        }
      }
      NothingLeft(was, Snapshot(gifts, subs, stripe), hits, lookup, res, dryRun);
      RightlyFilled(was.subs, subs, stripe, lookup);
      assert domains[..|domains|] == domains;
    }
  }

  datatype Snapshot = Snapshot(gifts: seq<Gift>, subs: seq<Row>, stripe: Stripe)

  /** The run after `i` domains; `faultless` when no call fails. */
  ghost predicate RunSoFar(was: Snapshot, now: Snapshot, domains: seq<string>, i: nat, hits: set<string>, res: Result,
                             lookup: string -> string, dryRun: bool, faultless: bool)
    requires i <= |domains|
  {
    && Filling(was, now, lookup, res)
    && res.domains == |domains| && res.matched + res.noMatch + res.lookupFailed == i && res.matched == |hits|
    && res.subscriptions == res.stripePatched + res.stripeSkipped
    && Matched(domains[..i], hits, lookup)
    && (NoneMatch(domains, lookup) ==> now == was)
    && (dryRun ==> now == was && res.stripeFailed == 0)
    && (!dryRun ==> Served(now.gifts, now.subs, hits, res))
    && (faultless ==> res.lookupFailed == 0 && AllMatched(domains[..i], hits, lookup))
    && (faultless && BillableHaveItems(was.subs, was.stripe, lookup) ==>
          BillableHaveItems(now.subs, now.stripe, lookup) && res.stripeFailed == 0)
  }

  /** The rows and the counters of them. */
  ghost predicate Filling(was: Snapshot, now: Snapshot, lookup: string -> string, res: Result) {
    && GiftsFilled(was.gifts, now.gifts, lookup) && SubsFilled(was.subs, now.subs, lookup)
    && NewlyFilledCleared(was.subs, now.subs, now.stripe) && StripeGrows(was.stripe, now.stripe)
    && res.donations == Count(was.gifts, UnfilledGift()) - Count(now.gifts, UnfilledGift())
    && res.subscriptions == Count(was.subs, Unfilled()) - Count(now.subs, Unfilled())
  }

  lemma FillingStep(was: Snapshot, before: Snapshot, now: Snapshot, lookup: string -> string, domain: string,
                    mid: Result, res: Result)
    requires Filling(was, before, lookup, mid)
    requires now.gifts == before.gifts || now.gifts == FilledGifts(before.gifts, domain, lookup(domain))
    requires res.donations - mid.donations == Count(before.gifts, UnfilledGift()) - Count(now.gifts, UnfilledGift())
    requires SomeFilled(domain, lookup(domain), before.subs, now.subs, now.stripe, mid.(donations := res.donations), res)
    requires StripeGrows(before.stripe, now.stripe)
    ensures Filling(was, now, lookup, res)
    ensures BillableHaveItems(before.subs, before.stripe, lookup) ==> BillableHaveItems(now.subs, now.stripe, lookup)
  {
    forall r | 0 <= r < |was.subs| && was.subs[r].sfid != now.subs[r].sfid ensures Cleared(now.stripe, now.subs[r]) {
      if before.subs[r].sfid == now.subs[r].sfid { ClearedGrows(before.stripe, now.stripe, before.subs[r]); }
    }
    if BillableHaveItems(before.subs, before.stripe, lookup) {
      forall r | 0 <= r < |now.subs| && now.subs[r].sfid == "" && now.subs[r].domain != "" && lookup(now.subs[r].domain) != ""
        ensures Patchable(now.stripe, now.subs[r])
      {
        assert now.subs[r] == before.subs[r] && Patchable(before.stripe, before.subs[r]);
      }
    }
  }

  lemma Missed(was: Snapshot, now: Snapshot, domains: seq<string>, i: nat, hits: set<string>, res: Result, res': Result,
               lookup: string -> string, dryRun: bool, faultless: bool)
    requires i < |domains| && Distinct(domains) && RunSoFar(was, now, domains, i, hits, res, lookup, dryRun, faultless)
    requires
      || (res' == res.(lookupFailed := res.lookupFailed + 1) && !faultless)
      || (res' == res.(noMatch := res.noMatch + 1) && lookup(domains[i]) == "")
    ensures RunSoFar(was, now, domains, i + 1, hits, res', lookup, dryRun, faultless)
  {
    HitsStep(domains, i, hits, lookup);
  }

  lemma Hit(was: Snapshot, before: Snapshot, now: Snapshot, domains: seq<string>, i: nat, hits: set<string>,
            res: Result, res': Result, lookup: string -> string, dryRun: bool, faultless: bool)
    requires i < |domains| && Distinct(domains) && RunSoFar(was, before, domains, i, hits, res, lookup, dryRun, faultless)
    requires lookup(domains[i]) != "" && Filling(was, now, lookup, res')
    requires var mid := res.(matched := res.matched + 1, donations := res'.donations);
      if dryRun then now == before && res' == mid
      else
        && now.gifts == FilledGifts(before.gifts, domains[i], lookup(domains[i]))
        && Underway(domains[i], lookup(domains[i]), before.subs, now.subs, now.stripe, mid, res', 0)
    requires faultless && BillableHaveItems(was.subs, was.stripe, lookup) ==>
      BillableHaveItems(now.subs, now.stripe, lookup) && res'.stripeFailed == res.stripeFailed
    ensures RunSoFar(was, now, domains, i + 1, hits + {domains[i]}, res', lookup, dryRun, faultless)
  {
    HitsStep(domains, i, hits, lookup);
    assert domains[i] in domains;
    if !dryRun { ServedStep(before, now, hits, domains[i], lookup, res.(matched := res.matched + 1), res'); }
  }

  ghost predicate NoneMatch(domains: seq<string>, lookup: string -> string) {
    forall d :: d in domains ==> lookup(d) == ""
  }

  ghost predicate Matched(domains: seq<string>, hits: set<string>, lookup: string -> string) {
    forall d :: d in hits ==> d in domains && lookup(d) != ""
  }

  ghost predicate AllMatched(domains: seq<string>, hits: set<string>, lookup: string -> string) {
    forall d :: d in domains && lookup(d) != "" ==> d in hits
  }

  /** What a matched domain has left: no donation, and one subscription per Stripe failure. */
  ghost predicate Served(gifts: seq<Gift>, subs: seq<Row>, hits: set<string>, res: Result) {
    && (forall g :: g in gifts && g.domain in hits ==> g.sfid != "")
    && res.stripeFailed == Count(subs, UnfilledIn(hits))
  }

  lemma {:induction false} SameCount<T>(s: seq<T>, s': seq<T>, p: T -> bool)
    requires |s| == |s'| && forall i :: 0 <= i < |s| ==> p(s[i]) == p(s'[i])
    ensures Count(s, p) == Count(s', p)
  {
    if s != [] { SameCount(s[..|s|-1], s'[..|s|-1], p); }
  }

  lemma {:induction false} NoneCounted(subs: seq<Row>)
    ensures Count(subs, UnfilledIn({})) == 0
  {
    if subs != [] { NoneCounted(subs[..|subs|-1]); }
  }

  lemma ServedStep(before: Snapshot, now: Snapshot, hits: set<string>, domain: string,
                   lookup: string -> string, mid: Result, res: Result)
    requires Served(before.gifts, before.subs, hits, mid) && domain !in hits && lookup(domain) != ""
    requires now.gifts == FilledGifts(before.gifts, domain, lookup(domain))
    requires Underway(domain, lookup(domain), before.subs, now.subs, now.stripe, mid.(donations := res.donations), res, 0)
    ensures Served(now.gifts, now.subs, hits + {domain}, res)
  {
    SameCount(before.subs, now.subs, UnfilledIn(hits));
    CountSplit(now.subs, UnfilledIn(hits), UnfilledIn({domain}), UnfilledIn(hits + {domain}));
    forall g | g in now.gifts && g.domain in hits + {domain} ensures g.sfid != "" {
      var i :| 0 <= i < |now.gifts| && now.gifts[i] == g;
      assert before.gifts[i] in before.gifts;
    }
  }

  lemma HitsStep(domains: seq<string>, i: nat, hits: set<string>, lookup: string -> string)
    requires i < |domains| && Distinct(domains) && Matched(domains[..i], hits, lookup)
    ensures domains[i] !in hits && |hits + {domains[i]}| == |hits| + 1
    ensures Matched(domains[..i+1], hits, lookup)
    ensures lookup(domains[i]) != "" ==> Matched(domains[..i+1], hits + {domains[i]}, lookup)
    ensures AllMatched(domains[..i], hits, lookup) ==> AllMatched(domains[..i+1], hits + {domains[i]}, lookup)
    ensures AllMatched(domains[..i], hits, lookup) && lookup(domains[i]) == "" ==> AllMatched(domains[..i+1], hits, lookup)
  {
    assert domains[..i+1] == domains[..i] + [domains[i]];
    assert domains[i] !in domains[..i];
  }

  lemma NothingLeft(was: Snapshot, now: Snapshot, hits: set<string>, lookup: string -> string, res: Result, dryRun: bool)
    requires GiftsFilled(was.gifts, now.gifts, lookup) && SubsFilled(was.subs, now.subs, lookup)
    requires NewlyFilledCleared(was.subs, now.subs, now.stripe) && StripeGrows(was.stripe, now.stripe)
    requires var domains := UnmatchedDomains(was.gifts, was.subs); Matched(domains[..|domains|], hits, lookup)
    requires !dryRun ==> Served(now.gifts, now.subs, hits, res)
    ensures Converged(was.gifts, was.subs, lookup) ==> hits == {} && NoneMatch(UnmatchedDomains(was.gifts, was.subs), lookup)
    ensures var domains := UnmatchedDomains(was.gifts, was.subs);
      !dryRun && res.stripeFailed == 0 && AllMatched(domains[..|domains|], hits, lookup) ==>
        Converged(now.gifts, now.subs, lookup)
    ensures Converged(now.gifts, now.subs, lookup) ==> BillableHaveItems(was.subs, was.stripe, lookup)
  {
    var domains := UnmatchedDomains(was.gifts, was.subs);
    assert domains[..|domains|] == domains;
    if Converged(now.gifts, now.subs, lookup) { FilledWerePatchable(was, now, lookup); }
    if !dryRun && res.stripeFailed == 0 && AllMatched(domains, hits, lookup) {
      forall d | d != "" && lookup(d) != "" ensures !HasUnfilled(now.gifts, now.subs, d) {
        if d in hits {
          forall r | 0 <= r < |now.subs| ensures now.subs[r].domain != d || now.subs[r].sfid != "" {
            assert !UnfilledIn(hits)(now.subs[r]);
          }
        } else {
          StaysFilled(was.gifts, now.gifts, was.subs, now.subs, lookup, d);
        }
      }
    }
  }

  /** What has been filled could be patched. */
  lemma FilledWerePatchable(was: Snapshot, now: Snapshot, lookup: string -> string)
    requires SubsFilled(was.subs, now.subs, lookup) && NewlyFilledCleared(was.subs, now.subs, now.stripe)
    requires StripeGrows(was.stripe, now.stripe) && Converged(now.gifts, now.subs, lookup)
    ensures BillableHaveItems(was.subs, was.stripe, lookup)
  {
    forall r | 0 <= r < |was.subs| && was.subs[r].sfid == "" && was.subs[r].domain != "" && lookup(was.subs[r].domain) != ""
      ensures Patchable(was.stripe, was.subs[r])
    {
      assert SubFilled(was.subs[r], now.subs[r], lookup);
      assert now.subs[r].domain == was.subs[r].domain && !HasUnfilled(now.gifts, now.subs, was.subs[r].domain);
      assert Cleared(now.stripe, now.subs[r]);
    }
  }

  lemma StaysFilled(gifts0: seq<Gift>, gifts: seq<Gift>, subs0: seq<Row>, subs: seq<Row>, lookup: string -> string, d: string)
    requires GiftsFilled(gifts0, gifts, lookup) && SubsFilled(subs0, subs, lookup) && !HasUnfilled(gifts0, subs0, d)
    ensures !HasUnfilled(gifts, subs, d)
  {
    forall i | 0 <= i < |gifts| ensures gifts[i] != Gift(d, "") {
      assert gifts0[i] in gifts0;
    }
    forall r | 0 <= r < |subs| ensures subs[r].domain != d || subs[r].sfid != "" {
      assert SubFilled(subs0[r], subs[r], lookup);
    }
  }

  /** The rows changed for one matched domain so far, and what was counted for them. */
  ghost predicate SomeFilled(domain: string, sfid: string, read: seq<Row>, now: seq<Row>, s: Stripe,
                             res: Result, res': Result)
  {
    && |now| == |read|
    && NewlyFilledCleared(read, now, s)
    && (forall r :: 0 <= r < |now| ==>
          now[r] == read[r] || (read[r].domain == domain && read[r].sfid == "" && now[r] == read[r].(sfid := sfid)))
    && SameDomainCounters(res, res')
    && res'.subscriptions - res.subscriptions == Count(read, Unfilled()) - Count(now, Unfilled())
  }

  /** The same with `left` rows still to try and no error yet: every filled row was patched
      in Stripe or rightly skipped, and every other row tried is a Stripe failure. */
  ghost predicate Underway(domain: string, sfid: string, read: seq<Row>, now: seq<Row>, s: Stripe,
                           res: Result, res': Result, left: int)
  {
    && SomeFilled(domain, sfid, read, now, s, res, res')
    && res'.subscriptions - res.subscriptions ==
       (res'.stripePatched - res.stripePatched) + (res'.stripeSkipped - res.stripeSkipped)
    && res'.stripeFailed - res.stripeFailed + left == Count(now, UnfilledIn({domain}))
  }

  /** One row tried: left alone after a Stripe failure, else filled behind Stripe. */
  ghost predicate Tried(before: seq<Row>, now: seq<Row>, s: Stripe, r: nat, sfid: string, res: Result, res': Result)
    requires r < |before|
  {
    || (now == before && res' == res.(stripeFailed := res.stripeFailed + 1))
    || (&& now == before[r := before[r].(sfid := sfid)]
        && Cleared(s, before[r])
        && CountersStopped(res.(subscriptions := res.subscriptions + 1), res'))
  }

  predicate CountersStopped(res: Result, res': Result) {
    res' == res.(stripePatched := res.stripePatched + 1) || res' == res.(stripeSkipped := res.stripeSkipped + 1)
  }

  lemma UnderwayStops(domain: string, sfid: string, read: seq<Row>, now: seq<Row>, s: Stripe, s': Stripe,
                      res: Result, mid: Result, res': Result, left: int)
    requires Underway(domain, sfid, read, now, s, res, mid, left) && StripeGrows(s, s') && CountersStopped(mid, res')
    ensures SomeFilled(domain, sfid, read, now, s', res, res')
  {
    forall i | 0 <= i < |read| && read[i].sfid != now[i].sfid ensures Cleared(s', now[i]) {
      ClearedGrows(s, s', now[i]);
    }
  }

  lemma UnderwayStep(domain: string, sfid: string, read: seq<Row>, before: seq<Row>, now: seq<Row>,
                     s: Stripe, s': Stripe, r: nat, res: Result, mid: Result, after: Result, left: int)
    requires Underway(domain, sfid, read, before, s, res, mid, left + 1) && StripeGrows(s, s') && sfid != ""
    requires r < |read| && before[r] == read[r] && UnfilledIn({domain})(read[r])
    requires Tried(before, now, s', r, sfid, mid, after)
    ensures Underway(domain, sfid, read, now, s', res, after, left)
  {
    ClearedStep(read, before, now, s, s', r);
    CountUpdate(before, r, read[r].(sfid := sfid), Unfilled());
    CountUpdate(before, r, read[r].(sfid := sfid), UnfilledIn({domain}));
  }

  lemma ClearedStep(read: seq<Row>, before: seq<Row>, now: seq<Row>, s: Stripe, s': Stripe, r: nat)
    requires |read| == |before| == |now| && NewlyFilledCleared(read, before, s) && StripeGrows(s, s')
    requires r < |read| && now == before[r := now[r]]
    requires now == before || (Cleared(s', before[r]) && now[r] == before[r].(sfid := now[r].sfid))
    ensures NewlyFilledCleared(read, now, s')
  {
    forall i | 0 <= i < |read| && read[i].sfid != now[i].sfid ensures Cleared(s', now[i]) {
      if now[i] == before[i] { ClearedGrows(s, s', now[i]); }
    }
  }

  predicate SameDomainCounters(res: Result, res': Result) {
    res' == res.(subscriptions := res'.subscriptions, stripePatched := res'.stripePatched,
                 stripeSkipped := res'.stripeSkipped, stripeFailed := res'.stripeFailed)
  }
}
