/** What the migration's tables hold: every foreign key, and a row for everything that may have one. */
module MigrationRows {
  import opened Migration
  import opened Options
  import opened Upserts

  /* ---- referential integrity ---- */

  predicate PledgeCloses(db: Db, r: PledgeRow) {
    r.user in db.users && r.initiative in db.initiatives && (r.org.Some? ==> r.org.value in db.orgs)
  }

  /** The foreign keys. */
  ghost predicate Closed(db: Db) {
    && (forall id :: id in db.orgs ==> db.orgs[id].updated.owner in db.users)
    && (forall id :: id in db.initiatives ==> db.initiatives[id].updated.owner in db.users)
    && (forall id :: id in db.goals ==> db.goals[id].kept.initiative in db.initiatives)
    && (forall id :: id in db.donations ==> PledgeCloses(db, db.donations[id].updated))
    && (forall id :: id in db.subscriptions ==> PledgeCloses(db, db.subscriptions[id].updated))
  }

  function UserIds(known: set<string>): set<Uuid> {
    set u | u in known :: UserId(u)
  }

  lemma {:induction false} UserRowsIds(users: seq<User>)
    ensures Ids(UserRows(users)) == UserIds(UserIDs(users))
  {
    if users != [] {
      var rest, u := users[..|users|-1], users[|users|-1];
      assert users == rest + [u];
      UserRowsIds(rest);
      var row := UserEntry(u);
      if u.id == "" {
        assert UserRows(users) == UserRows(rest) && UserIDs(users) == UserIDs(rest);
      } else {
        IdsAppend(UserRows(rest), row);
        assert UserRows(users) == UserRows(rest) + [row] && UserIDs(users) == UserIDs(rest) + {u.id};
      }
    }
  }

  /** Every known user has a row. */
  lemma KnownUsersHaveRows(text: Text, db: Db, s: Source, run: nat, order: seq<string>)
    requires PlaceholderOrder(order, s)
    ensures Tables(text, db, s, run, order).users.Keys == db.users.Keys + UserIds(KnownUsers(s))
  {
    UpsertedKeys(db.users, AllUserRows(s, order));
    AllUsersKnown(s, order);
    UserRowsIds(s.users + Placeholders(order));
  }

  lemma PlaceholdersAre(s: Source, order: seq<string>)
    requires PlaceholderOrder(order, s)
    ensures UserIDs(Placeholders(order)) == Referenced(s) - UserIDs(s.users) - {""}
  {
    var more := Placeholders(order);
    forall uid | uid in Referenced(s) - UserIDs(s.users) - {""} ensures uid in UserIDs(more) {
      var i :| 0 <= i < |order| && order[i] == uid;
      assert more[i] == User(uid, "");
    }
    forall u | u in more ensures u.id in Referenced(s) - UserIDs(s.users) - {""} {
      var i :| 0 <= i < |more| && more[i] == u;
      assert order[i] in order;
    }
  }

  lemma AllUsersKnown(s: Source, order: seq<string>)
    requires PlaceholderOrder(order, s)
    ensures UserIDs(s.users + Placeholders(order)) == KnownUsers(s)
  {
    PlaceholdersAre(s, order);
    assert UserIDs(s.users + Placeholders(order)) == UserIDs(s.users) + UserIDs(Placeholders(order));
  }

  lemma {:induction false} OrgRowsOwned(text: Text, orgs: seq<Org>, known: set<string>, run: nat)
    ensures forall i :: 0 <= i < |OrgRows(text, orgs, known, run)| ==>
      OrgRows(text, orgs, known, run)[i].1.updated.owner in UserIds(known)
  {
    if orgs != [] { OrgRowsOwned(text, orgs[..|orgs|-1], known, run); }
  }

  lemma {:induction false} ProjectRowsOwned(text: Text, projects: seq<Project>, known: set<string>)
    ensures forall i :: 0 <= i < |ProjectRows(text, projects, known)| ==>
      ProjectRows(text, projects, known)[i].1.updated.owner in UserIds(known)
  {
    if projects != [] { ProjectRowsOwned(text, projects[..|projects|-1], known); }
  }

  lemma {:induction false} EntityRowsOwned(text: Text, entities: seq<Entity>, known: set<string>)
    ensures forall i :: 0 <= i < |EntityRows(text, entities, known)| ==>
      EntityRows(text, entities, known)[i].1.updated.owner in UserIds(known)
  {
    if entities != [] { EntityRowsOwned(text, entities[..|entities|-1], known); }
  }

  lemma {:induction false} BudgetRowsPoint(rawId: string, id: Uuid, budgets: seq<Goal>)
    ensures forall i :: 0 <= i < |BudgetRows(rawId, id, budgets)| ==> BudgetRows(rawId, id, budgets)[i].1.kept.initiative == id
  {
    if budgets != [] { BudgetRowsPoint(rawId, id, budgets[..|budgets|-1]); }
  }

  lemma {:induction false} GoalListRowsPoint(rawId: string, id: Uuid, goals: seq<Goal>)
    ensures forall i :: 0 <= i < |GoalListRows(rawId, id, goals)| ==> GoalListRows(rawId, id, goals)[i].1.kept.initiative == id
  {
    if goals != [] { GoalListRowsPoint(rawId, id, goals[..|goals|-1]); }
  }

  lemma {:induction false} ProjectGoalsPoint(text: Text, projects: seq<Project>, known: set<string>)
    ensures forall i :: 0 <= i < |ProjectGoals(text, projects, known)| ==>
      ProjectGoals(text, projects, known)[i].1.kept.initiative in Ids(ProjectRows(text, projects, known))
  {
    if projects != [] {
      var rest, p := projects[..|projects|-1], projects[|projects|-1];
      ProjectGoalsPoint(text, rest, known);
      if ProjectMigrates(p, known) {
        var row := ProjectEntry(text, p);
        IdsAppend(ProjectRows(text, rest, known), row);
        assert ProjectRows(text, projects, known) == ProjectRows(text, rest, known) + [row];
        BudgetRowsPoint(p.id, ProjectId(text, p), p.budgets);
        if p.mentee.Some? { BudgetRowsPoint(p.id, ProjectId(text, p), [p.mentee.value.(name := "mentee")]); }
        assert forall i :: 0 <= i < |GoalsOf(text, p)| ==> GoalsOf(text, p)[i].1.kept.initiative == row.0;
        assert ProjectGoals(text, projects, known) == ProjectGoals(text, rest, known) + GoalsOf(text, p);
      } else {
        assert ProjectGoals(text, projects, known) == ProjectGoals(text, rest, known);
        assert ProjectRows(text, projects, known) == ProjectRows(text, rest, known);
      }
    }
  }

  lemma {:induction false} EntityGoalsPoint(text: Text, entities: seq<Entity>, known: set<string>)
    ensures forall i :: 0 <= i < |EntityGoals(text, entities, known)| ==>
      EntityGoals(text, entities, known)[i].1.kept.initiative in Ids(EntityRows(text, entities, known))
  {
    if entities != [] {
      var rest, e := entities[..|entities|-1], entities[|entities|-1];
      EntityGoalsPoint(text, rest, known);
      if EntityMigrates(e, known) {
        var row := EntityEntry(text, e);
        IdsAppend(EntityRows(text, rest, known), row);
        assert EntityRows(text, entities, known) == EntityRows(text, rest, known) + [row];
        GoalListRowsPoint(e.id, EntityId(text, e), e.goals);
        assert EntityGoals(text, entities, known) == EntityGoals(text, rest, known) + GoalListRows(e.id, row.0, e.goals);
      } else {
        assert EntityGoals(text, entities, known) == EntityGoals(text, rest, known);
        assert EntityRows(text, entities, known) == EntityRows(text, rest, known);
      }
    }
  }

  predicate RowCloses(r: PledgeRow, known: set<string>, initiatives: set<Uuid>, orgs: set<Uuid>) {
    r.user in UserIds(known) && r.initiative in initiatives && (r.org.Some? ==> r.org.value in orgs)
  }

  lemma {:induction false} PledgeRowsClose(text: Text, scope: string, pledges: seq<Pledge>, known: set<string>,
                                           initiatives: set<Uuid>, orgs: set<Uuid>)
    ensures forall i :: 0 <= i < |PledgeRows(text, scope, pledges, known, initiatives, orgs)| ==>
      RowCloses(PledgeRows(text, scope, pledges, known, initiatives, orgs)[i].1.updated, known, initiatives, orgs)
  {
    if pledges != [] { PledgeRowsClose(text, scope, pledges[..|pledges|-1], known, initiatives, orgs); }
  }

  /** Donations or subscriptions of the run, on top of old ones. */
  lemma PledgesStayClosed(db: Db, now: Db, t: Table<(), PledgeRow>, rows: Rows<(), PledgeRow>,
                          known: set<string>, initiatives: set<Uuid>, orgs: set<Uuid>)
    requires db.users.Keys + UserIds(known) <= now.users.Keys
    requires db.initiatives.Keys + initiatives <= now.initiatives.Keys && db.orgs.Keys + orgs <= now.orgs.Keys
    requires forall id :: id in t ==> PledgeCloses(db, t[id].updated)
    requires forall i :: 0 <= i < |rows| ==> RowCloses(rows[i].1.updated, known, initiatives, orgs)
    ensures forall id :: id in Upserted(t, rows) ==> PledgeCloses(now, Upserted(t, rows)[id].updated)
  {
    UpsertedAll(t, rows, (k: ()) => true, (r: PledgeRow) => PledgeCloses(now, r));
  }

  lemma TablesKeys(text: Text, db: Db, s: Source, run: nat, order: seq<string>)
    requires PlaceholderOrder(order, s)
    ensures var now := Tables(text, db, s, run, order);
      && now.users.Keys == db.users.Keys + UserIds(KnownUsers(s))
      && now.orgs.Keys == db.orgs.Keys + Ids(OrgRows(text, s.orgs, KnownUsers(s), run))
      && now.initiatives.Keys == db.initiatives.Keys + Ids(InitiativeRows(text, s))
  {
    KnownUsersHaveRows(text, db, s, run, order);
    UpsertedKeys(db.orgs, OrgRows(text, s.orgs, KnownUsers(s), run));
    UpsertedKeys(db.initiatives, InitiativeRows(text, s));
  }

  /** A run keeps every foreign key, whether it completes or not: each organization and
      initiative has its owner, each goal its initiative, and each donation and subscription its
      user, its initiative, and its organization or NULL. */
  lemma MigrationIsClosed(text: Text, db: Db, s: Source, run: nat, order: seq<string>)
    requires Closed(db) && PlaceholderOrder(order, s)
    ensures Closed(Migrated(text, db, s, run, order).db)
  {
    TablesClosed(text, db, s, run, order);
    TablesKeys(text, db, s, run, order);
    AbortedClosed(db, Tables(text, db, s, run, order));
  }

  lemma TablesClosed(text: Text, db: Db, s: Source, run: nat, order: seq<string>)
    requires Closed(db) && PlaceholderOrder(order, s)
    ensures Closed(Tables(text, db, s, run, order))
  {
    OrgsStayOwned(text, db, s, run, order);
    InitiativesStayOwned(text, db, s, run, order);
    GoalsStayPointed(text, db, s, run, order);
    DonationsStayClosed(text, db, s, run, order);
    SubscriptionsStayClosed(text, db, s, run, order);
  }

  lemma AbortedClosed(db: Db, all: Db)
    requires Closed(db) && Closed(all) && db.users.Keys <= all.users.Keys && db.orgs.Keys <= all.orgs.Keys
    ensures Closed(db.(users := all.users, orgs := all.orgs))
  {
  }

  lemma OrgsStayOwned(text: Text, db: Db, s: Source, run: nat, order: seq<string>)
    requires PlaceholderOrder(order, s)
    requires Closed(db)
    ensures var now := Tables(text, db, s, run, order);
      forall id :: id in now.orgs ==> now.orgs[id].updated.owner in now.users
  {
    var users := Tables(text, db, s, run, order).users.Keys;
    TablesKeys(text, db, s, run, order);
    OrgRowsOwned(text, s.orgs, KnownUsers(s), run);
    UpsertedAll(db.orgs, OrgRows(text, s.orgs, KnownUsers(s), run), (k: ()) => true, (r: OrgRow) => r.owner in users);
  }

  lemma DonationsStayClosed(text: Text, db: Db, s: Source, run: nat, order: seq<string>)
    requires PlaceholderOrder(order, s)
    requires Closed(db)
    ensures var now := Tables(text, db, s, run, order);
      forall id :: id in now.donations ==> PledgeCloses(now, now.donations[id].updated)
  {
    var known := KnownUsers(s);
    var orgs, initiatives := Ids(OrgRows(text, s.orgs, known, run)), Ids(InitiativeRows(text, s));
    TablesKeys(text, db, s, run, order);
    PledgeRowsClose(text, "proj_donation", s.projectDonations, known, initiatives, orgs);
    PledgeRowsClose(text, "entity_donation", s.entityDonations, known, initiatives, orgs);
    PledgesStayClosed(db, Tables(text, db, s, run, order), db.donations, DonationRows(text, s, run), known, initiatives, orgs);
  }

  lemma SubscriptionsStayClosed(text: Text, db: Db, s: Source, run: nat, order: seq<string>)
    requires PlaceholderOrder(order, s)
    requires Closed(db)
    ensures var now := Tables(text, db, s, run, order);
      forall id :: id in now.subscriptions ==> PledgeCloses(now, now.subscriptions[id].updated)
  {
    var known := KnownUsers(s);
    var orgs, initiatives := Ids(OrgRows(text, s.orgs, known, run)), Ids(InitiativeRows(text, s));
    TablesKeys(text, db, s, run, order);
    PledgeRowsClose(text, "proj_subscription", s.projectSubs, known, initiatives, orgs);
    PledgeRowsClose(text, "entity_subscription", s.entitySubs, known, initiatives, orgs);
    PledgesStayClosed(db, Tables(text, db, s, run, order), db.subscriptions, SubscriptionRows(text, s, run),
                      known, initiatives, orgs);
  }

  lemma InitiativesStayOwned(text: Text, db: Db, s: Source, run: nat, order: seq<string>)
    requires PlaceholderOrder(order, s)
    requires Closed(db)
    ensures var now := Tables(text, db, s, run, order);
      forall id :: id in now.initiatives ==> now.initiatives[id].updated.owner in now.users
  {
    var users := Tables(text, db, s, run, order).users.Keys;
    TablesKeys(text, db, s, run, order);
    InitiativeRowsOwned(text, s);
    UpsertedAll(db.initiatives, InitiativeRows(text, s), (k: string) => true, (r: InitiativeRow) => r.owner in users);
    ReclassifiedKeepsOwners(Upserted(db.initiatives, InitiativeRows(text, s)), Upserted(db.goals, GoalRows(text, s)), users);
  }

  lemma ReclassifiedKeepsOwners(t: Table<string, InitiativeRow>, goals: Table<GoalKey, GoalRow>, users: set<Uuid>)
    requires forall id :: id in t ==> t[id].updated.owner in users
    ensures forall id :: id in Reclassified(t, goals) ==> Reclassified(t, goals)[id].updated.owner in users
  {
  }

  lemma InitiativeRowsOwned(text: Text, s: Source)
    ensures forall i :: 0 <= i < |InitiativeRows(text, s)| ==>
      InitiativeRows(text, s)[i].1.updated.owner in UserIds(KnownUsers(s))
  {
    ProjectRowsOwned(text, s.projects, KnownUsers(s));
    EntityRowsOwned(text, s.entities, KnownUsers(s));
  }

  lemma GoalsStayPointed(text: Text, db: Db, s: Source, run: nat, order: seq<string>)
    requires PlaceholderOrder(order, s)
    requires Closed(db)
    ensures var now := Tables(text, db, s, run, order);
      forall id :: id in now.goals ==> now.goals[id].kept.initiative in now.initiatives
  {
    var ids, known := Tables(text, db, s, run, order).initiatives.Keys, KnownUsers(s);
    TablesKeys(text, db, s, run, order);
    ProjectGoalsPoint(text, s.projects, known);
    EntityGoalsPoint(text, s.entities, known);
    IdsJoin(ProjectRows(text, s.projects, known), EntityRows(text, s.entities, known));
    UpsertedAll(db.goals, GoalRows(text, s), (k: GoalKey) => k.initiative in ids, (r: GoalRow) => true);
  }

  /* ---- one key for each donor and initiative ---- */

  /** The joined key tells two (user, target) pairs apart when the targets contain no bar, as
      UUIDs do not; user IDs such as auth0|x may. */
  lemma JoinedApart(a: string, b: string, a': string, b': string)
    requires '|' !in b && '|' !in b'
    requires Joined(a, b) == Joined(a', b')
    ensures a == a' && b == b'
  {
    var k := Joined(a, b);
    LastBar(a, b);
    LastBar(a', b');
    assert |a| == |a'|;
    assert a == k[..|a|] && a' == k[..|a'|];
    assert b == k[|a|+1..] && b' == k[|a'|+1..];
  }

  lemma LastBar(a: string, b: string)
    requires '|' !in b
    ensures |Joined(a, b)| > |a| && Joined(a, b)[|a|] == '|'
    ensures forall i :: |a| < i < |Joined(a, b)| ==> Joined(a, b)[i] != '|'
  {
    forall i | |a| < i < |Joined(a, b)| ensures Joined(a, b)[i] != '|' {
      assert Joined(a, b)[i] == b[i - |a| - 1];
    }
  }

  /** Without that, two different pairs can share a row. */
  lemma BarsCollide(a: string, b: string, c: string)
    ensures Joined(a, Joined(b, c)) == Joined(Joined(a, b), c)
  {
    assert a + "|" + (b + "|" + c) == (a + "|" + b) + "|" + c;
  }

  /* ---- nothing is skipped ---- */

  /** Two pledges of one list never have one row ID: the source is keyed by user and target,
      and targets, being UUIDs, have no bar. */
  ghost predicate Keyed(pledges: seq<Pledge>) {
    && (forall d :: d in pledges ==> '|' !in d.target)
    && (forall d, e :: d in pledges && e in pledges && d.user == e.user && d.target == e.target ==> d == e)
  }

  lemma KeyedApart(pledges: seq<Pledge>, scope: string, d: Pledge, e: Pledge)
    requires Keyed(pledges) && d in pledges && e in pledges && PledgeId(scope, d) == PledgeId(scope, e)
    ensures d == e
  {
    JoinedApart(d.user, d.target, e.user, e.target);
  }

  /** A pledge whose user and initiative are migrated has a row, with its own columns. */
  lemma {:induction false} EmittedHasRow(text: Text, scope: string, pledges: seq<Pledge>, known: set<string>,
                                         initiatives: set<Uuid>, orgs: set<Uuid>, d: Pledge)
    requires Keyed(pledges) && d in pledges && Emitted(text, d, known, initiatives)
    ensures Last(PledgeRows(text, scope, pledges, known, initiatives, orgs), PledgeId(scope, d)) == Some(RowFor(text, d, orgs))
  {
    var rest, last := pledges[..|pledges|-1], pledges[|pledges|-1];
    assert pledges == rest + [last];
    var rows := PledgeRows(text, scope, rest, known, initiatives, orgs);
    var all := PledgeRows(text, scope, pledges, known, initiatives, orgs);
    if Emitted(text, last, known, initiatives) {
      assert all[..|all|-1] == rows;
    } else {
      assert all == rows;
    }
    if last != d {
      EmittedHasRow(text, scope, rest, known, initiatives, orgs, d);
      if PledgeId(scope, last) == PledgeId(scope, d) { KeyedApart(pledges, scope, last, d); }
    }
  }

  lemma {:induction false} PledgeRowsScope(text: Text, scope: string, pledges: seq<Pledge>, known: set<string>,
                                           initiatives: set<Uuid>, orgs: set<Uuid>)
    ensures forall i :: 0 <= i < |PledgeRows(text, scope, pledges, known, initiatives, orgs)| ==>
      var id := PledgeRows(text, scope, pledges, known, initiatives, orgs)[i].0; id.Named? && id.scope == scope
  {
    if pledges != [] { PledgeRowsScope(text, scope, pledges[..|pledges|-1], known, initiatives, orgs); }
  }

  /** Both lists of a table, whose scopes keep them apart. */
  lemma PledgeArrives(text: Text, t: Table<(), PledgeRow>, scopes: (string, string), lists: (seq<Pledge>, seq<Pledge>),
                      known: set<string>, initiatives: set<Uuid>, orgs: set<Uuid>, d: Pledge)
    requires scopes.0 != scopes.1 && Keyed(lists.0) && Keyed(lists.1) && Emitted(text, d, known, initiatives)
    ensures var now := Upserted(t, PledgeRows(text, scopes.0, lists.0, known, initiatives, orgs) +
                                   PledgeRows(text, scopes.1, lists.1, known, initiatives, orgs));
      && (d in lists.0 ==> Holds(now, PledgeId(scopes.0, d), RowFor(text, d, orgs)))
      && (d in lists.1 ==> Holds(now, PledgeId(scopes.1, d), RowFor(text, d, orgs)))
  {
    var a := PledgeRows(text, scopes.0, lists.0, known, initiatives, orgs);
    var b := PledgeRows(text, scopes.1, lists.1, known, initiatives, orgs);
    var (p, q) := (PledgeId(scopes.0, d), PledgeId(scopes.1, d));
    PledgeRowsScope(text, scopes.0, lists.0, known, initiatives, orgs);
    PledgeRowsScope(text, scopes.1, lists.1, known, initiatives, orgs);
    if d in lists.0 { EmittedHasRow(text, scopes.0, lists.0, known, initiatives, orgs, d); }
    if d in lists.1 { EmittedHasRow(text, scopes.1, lists.1, known, initiatives, orgs, d); }
    LastOfJoin(a, b, p);
    LastOfJoin(a, b, q);
    UpsertedAt(t, a + b, p);
    UpsertedAt(t, a + b, q);
  }

  predicate Holds(t: Table<(), PledgeRow>, id: Uuid, row: PledgeRow) {
    id in t && t[id].updated == row
  }

  lemma {:induction false} ProjectHasRow(text: Text, projects: seq<Project>, known: set<string>, p: Project)
    requires p in projects && ProjectMigrates(p, known)
    ensures ProjectId(text, p) in Ids(ProjectRows(text, projects, known))
  {
    var rest, last := projects[..|projects|-1], projects[|projects|-1];
    assert projects == rest + [last];
    var rows, all := ProjectRows(text, rest, known), ProjectRows(text, projects, known);
    if last == p {
      assert all[|rows|].0 == ProjectId(text, p);
    } else {
      ProjectHasRow(text, rest, known, p);
      var i :| 0 <= i < |rows| && rows[i].0 == ProjectId(text, p);
      assert all[i] == rows[i];
    }
  }

  lemma {:induction false} EntityHasRow(text: Text, entities: seq<Entity>, known: set<string>, e: Entity)
    requires e in entities && EntityMigrates(e, known)
    ensures EntityId(text, e) in Ids(EntityRows(text, entities, known))
  {
    var rest, last := entities[..|entities|-1], entities[|entities|-1];
    assert entities == rest + [last];
    var rows, all := EntityRows(text, rest, known), EntityRows(text, entities, known);
    if last == e {
      assert all[|rows|].0 == EntityId(text, e);
    } else {
      EntityHasRow(text, rest, known, e);
      var i :| 0 <= i < |rows| && rows[i].0 == EntityId(text, e);
      assert all[i] == rows[i];
    }
  }

  /** A run that completes skips no initiative with an ID for its owner's sake, as long as it
      names one ... */
  lemma NoInitiativeSkipped(text: Text, db: Db, s: Source, run: nat, order: seq<string>)
    requires Migrated(text, db, s, run, order).done
    ensures Ids(InitiativeRows(text, s)) <= Migrated(text, db, s, run, order).db.initiatives.Keys
    ensures forall p :: p in s.projects && p.owner != "" && p.id != "" ==> ProjectId(text, p) in Ids(InitiativeRows(text, s))
    ensures forall e :: e in s.entities && e.owner != "" && e.id != "" ==> EntityId(text, e) in Ids(InitiativeRows(text, s))
  {
    var known := KnownUsers(s);
    UpsertedKeys(db.initiatives, InitiativeRows(text, s));
    IdsJoin(ProjectRows(text, s.projects, known), EntityRows(text, s.entities, known));
    forall p | p in s.projects && p.owner != "" && p.id != "" ensures ProjectId(text, p) in Ids(InitiativeRows(text, s)) {
      ProjectHasRow(text, s.projects, known, p);
    }
    forall e | e in s.entities && e.owner != "" && e.id != "" ensures EntityId(text, e) in Ids(InitiativeRows(text, s)) {
      EntityHasRow(text, s.entities, known, e);
    }
  }

  /** A pledge's row has its own user, initiative and data, and its organization if there is
      such a one. */
  lemma RowForMeans(text: Text, d: Pledge, orgs: set<Uuid>)
    requires AsUuid(text, d.target).Some?
    ensures var row := RowFor(text, d, orgs);
      && row.user == Named("user", d.user) && Some(row.initiative) == AsUuid(text, d.target) && row.data == d.data
      && (forall id :: id in orgs && AsUuid(text, d.org) == Some(id) ==> row.org == Some(id))
      && (row.org.Some? ==> row.org == AsUuid(text, d.org) && row.org.value in orgs)
  {
  }

  /** ... and no donation or subscription to a migrated initiative for its user's: each
      arrives with its own user, known before or not, its initiative, and its organization if
      that was migrated too. */
  lemma NoPledgeSkipped(text: Text, db: Db, s: Source, run: nat, order: seq<string>, d: Pledge)
    requires PlaceholderOrder(order, s) && Migrated(text, db, s, run, order).done
    requires Keyed(s.projectDonations) && Keyed(s.entityDonations) && Keyed(s.projectSubs) && Keyed(s.entitySubs)
    requires d.user != "" && AsUuid(text, d.target).Some? && AsUuid(text, d.target).value in Ids(InitiativeRows(text, s))
    ensures var now := Migrated(text, db, s, run, order).db;
      var row := RowFor(text, d, Ids(OrgRows(text, s.orgs, KnownUsers(s), run)));
      && (d in s.projectDonations ==> Holds(now.donations, PledgeId("proj_donation", d), row) && row.user in now.users)
      && (d in s.entityDonations ==> Holds(now.donations, PledgeId("entity_donation", d), row) && row.user in now.users)
      && (d in s.projectSubs ==> Holds(now.subscriptions, PledgeId("proj_subscription", d), row) && row.user in now.users)
      && (d in s.entitySubs ==> Holds(now.subscriptions, PledgeId("entity_subscription", d), row) && row.user in now.users)
  {
    var known := KnownUsers(s);
    var initiatives, orgs := Ids(InitiativeRows(text, s)), Ids(OrgRows(text, s.orgs, known, run));
    if d in s.projectDonations + s.entityDonations || d in s.projectSubs + s.entitySubs {
      assert d.user in Referenced(s);
      KnownUsersHaveRows(text, db, s, run, order);
      PledgeArrives(text, db.donations, ("proj_donation", "entity_donation"), (s.projectDonations, s.entityDonations),
                    known, initiatives, orgs, d);
      PledgeArrives(text, db.subscriptions, ("proj_subscription", "entity_subscription"), (s.projectSubs, s.entitySubs),
                    known, initiatives, orgs, d);
    }
  }
}
