/** What a run of the migration that completes leaves in each column. */
module MigrationColumns {
  import opened Migration
  import opened MigrationRows
  import opened MigrationRuns
  import opened Options
  import opened Upserts

  /* ---- identifiers ---- */

  /** A blank value has no UUID; others keep theirs or get one made of them, blanks aside. */
  lemma AsUuidMeans(text: Text, value: string)
    ensures AsUuid(text, value) == None <==> text.strip(value) == ""
    ensures forall id :: text.strip(value) != "" && text.parse(text.strip(value)) == Some(id) ==> AsUuid(text, value) == Some(Given(id))
    ensures text.strip(value) != "" && text.parse(text.strip(value)) == None ==>
      AsUuid(text, value) == Some(Named("coerce", text.strip(value)))
  {
  }

  /** One provider prefix is taken off, and no more. */
  lemma UsernameMeans(rest: string, uid: string)
    ensures Username("auth0|" + rest) == rest && Username("github|" + rest) == rest
    ensures !("auth0|" <= uid) && !("github|" <= uid) ==> Username(uid) == uid
  {
    assert ("auth0|" + rest)[..6] == "auth0|" && ("auth0|" + rest)[6..] == rest;
    assert ("github|" + rest)[..7] == "github|" && ("github|" + rest)[7..] == rest;
    assert ("github|" + rest)[0] != "auth0|"[0];
  }

  /** Two initiatives clash in a slug or in a Jobspring ID. */
  lemma SlugsMeet(a: InitiativeRow, b: InitiativeRow)
    ensures !(SlugsOf(a) !! SlugsOf(b)) <==>
      (a.slug.Some? && a.slug == b.slug) || (a.jobspring.Some? && a.jobspring == b.jobspring)
  {
    if a.slug.Some? && a.slug == b.slug { assert Slug(a.slug.value) in SlugsOf(a) * SlugsOf(b); }
    if a.jobspring.Some? && a.jobspring == b.jobspring { assert Jobspring(a.jobspring.value) in SlugsOf(a) * SlugsOf(b); }
  }

  /* ---- users ---- */

  lemma {:induction false} LastOfUsers(users: seq<User>, u: User)
    requires u in users && u.id != "" && forall v :: v in users && v.id == u.id ==> v == u
    ensures Last(UserRows(users), Named("user", u.id)) == Some(UserRow(Some(u.id), Username(u.id), u.data))
  {
    var rest, last := users[..|users|-1], users[|users|-1];
    assert users == rest + [last];
    if last != u { LastOfUsers(rest, u); }
    if last.id != "" {
      LastAppend(UserRows(rest), UserEntry(last), Named("user", u.id));
    } else {
      assert UserRows(users) == UserRows(rest);
    }
  }

  /** A user of the table has a row with their own ID, username and profile ... */
  lemma UserArrives(text: Text, db: Db, s: Source, run: nat, order: seq<string>, u: User)
    requires PlaceholderOrder(order, s) && Migrated(text, db, s, run, order).done
    requires u in s.users && u.id != "" && forall v :: v in s.users && v.id == u.id ==> v == u
    ensures var users := Migrated(text, db, s, run, order).db.users; var id := Named("user", u.id);
      id in users && users[id].updated == UserRow(Some(u.id), Username(u.id), u.data)
  {
    var id := Named("user", u.id);
    assert u.id in UserIDs(s.users);
    LastUser(s, order, id);
    LastOfUsers(s.users, u);
    UpsertedAt(db.users, AllUserRows(s, order), id);
  }

  /** Some table but the users' names this user. */
  ghost predicate Mentioned(s: Source, uid: string) {
    || (exists o :: o in s.orgs && o.owner == uid)
    || (exists p :: p in s.projects && p.owner == uid)
    || (exists e :: e in s.entities && e.owner == uid)
    || (exists d :: d in s.projectDonations + s.entityDonations && d.user == uid)
    || (exists d :: d in s.projectSubs + s.entitySubs && d.user == uid)
  }

  lemma MentionedIff(s: Source, uid: string)
    ensures Mentioned(s, uid) <==> uid in Referenced(s)
  {
  }

  /** What was written last is what is stored. */
  lemma WrittenRow<K, U>(t: Table<K, U>, rows: Rows<K, U>, id: Uuid, u: U)
    requires Last(rows, id) == Some(u)
    ensures id in Upserted(t, rows) && Upserted(t, rows)[id].updated == u
  {
    UpsertedAt(t, rows, id);
  }

  lemma LastPlaceholder(s: Source, order: seq<string>, uid: string)
    requires PlaceholderOrder(order, s) && uid in Referenced(s) - UserIDs(s.users) - {""}
    ensures Last(AllUserRows(s, order), Named("user", uid)) == Some(UserRow(Some(uid), Username(uid), ""))
  {
    assert UserId(uid) in UserIds(Referenced(s) - UserIDs(s.users) - {""});
    LastUser(s, order, UserId(uid));
  }

  /** ... and a user that is only mentioned, one with the ID and the username. */
  lemma PlaceholderArrives(text: Text, db: Db, s: Source, run: nat, order: seq<string>, uid: string)
    requires PlaceholderOrder(order, s) && Migrated(text, db, s, run, order).done
    requires uid in Referenced(s) - UserIDs(s.users) - {""}
    ensures var users := Migrated(text, db, s, run, order).db.users; var id := Named("user", uid);
      id in users && users[id].updated == UserRow(Some(uid), Username(uid), "")
  {
    LastPlaceholder(s, order, uid);
    WrittenRow(db.users, AllUserRows(s, order), Named("user", uid), UserRow(Some(uid), Username(uid), ""));
  }

  /* ---- organizations ---- */

  lemma {:induction false} LastOfOrgs(text: Text, orgs: seq<Org>, known: set<string>, run: nat, o: Org, id: Uuid)
    requires o in orgs && o.owner in known && AsUuid(text, o.id) == Some(id)
    requires forall q :: q in orgs && AsUuid(text, q.id) == Some(id) ==> q == o
    ensures Last(OrgRows(text, orgs, known, run), id) == Some(OrgRow(Named("user", o.owner), o.data))
  {
    var n := |orgs| - 1;
    var rest, last := orgs[..n], orgs[n];
    assert orgs == rest + [last];
    if last != o { LastOfOrgs(text, rest, known, run, o, id); }
    if last.owner in known {
      LastAppend(OrgRows(text, rest, known, run), (OrgId(text, last.id, run, n), Entry((), OrgRow(UserId(last.owner), last.data))), id);
    } else {
      assert OrgRows(text, orgs, known, run) == OrgRows(text, rest, known, run);
    }
  }

  /** An organization with an ID and an owner has a row with that owner. */
  lemma OrgArrives(text: Text, db: Db, s: Source, run: nat, order: seq<string>, o: Org, id: Uuid)
    requires Migrated(text, db, s, run, order).done
    requires o in s.orgs && o.owner != "" && AsUuid(text, o.id) == Some(id)
    requires forall q :: q in s.orgs && AsUuid(text, q.id) == Some(id) ==> q == o
    ensures var orgs := Migrated(text, db, s, run, order).db.orgs;
      id in orgs && orgs[id].updated == OrgRow(Named("user", o.owner), o.data)
  {
    assert o.owner in KnownUsers(s);
    LastOfOrgs(text, s.orgs, KnownUsers(s), run, o, id);
    UpsertedAt(db.orgs, OrgRows(text, s.orgs, KnownUsers(s), run), id);
  }

  /* ---- initiatives ---- */

  /** The columns of a project; created_on is kept from the first run that brought it. */
  predicate HoldsProject(row: Entry<string, InitiativeRow>, p: Project) {
    && (row.updated.kind == "project" || row.updated.kind == "mentorship")
    && row.updated.owner == Named("user", p.owner) && row.updated.name == p.name && row.updated.slug == p.slug
    && (if p.jobspring == "" then row.updated.jobspring == None else row.updated.jobspring == Some(p.jobspring))
    && row.updated.data == p.data
  }

  /** The columns of an entity: what DynamoDB calls an initiative is a general fund. */
  predicate HoldsEntity(row: Entry<string, InitiativeRow>, e: Entity) {
    && (row.updated.kind == "mentorship" || (if e.entityType == "initiative" then row.updated.kind == "general fund"
                                             else row.updated.kind == e.entityType))
    && row.updated.owner == Named("user", e.owner) && row.updated.name == e.name
    && (if e.slug == "" then row.updated.slug == None else row.updated.slug == Some(e.slug))
    && row.updated.jobspring == None && row.updated.data == e.data
  }

  /** No other record is migrated under this ID. */
  ghost predicate OnlyProject(text: Text, s: Source, p: Project) {
    && (forall q :: q in s.projects && ProjectMigrates(q, KnownUsers(s)) && ProjectId(text, q) == ProjectId(text, p) ==> q == p)
    && (forall e :: e in s.entities && EntityMigrates(e, KnownUsers(s)) ==> EntityId(text, e) != ProjectId(text, p))
  }

  ghost predicate OnlyEntity(text: Text, s: Source, e: Entity) {
    && (forall q :: q in s.projects && ProjectMigrates(q, KnownUsers(s)) ==> ProjectId(text, q) != EntityId(text, e))
    && (forall f :: f in s.entities && EntityMigrates(f, KnownUsers(s)) && EntityId(text, f) == EntityId(text, e) ==> f == e)
  }

  lemma {:induction false} ProjectRowIs(text: Text, projects: seq<Project>, known: set<string>, i: nat) returns (p: Project)
    requires i < |ProjectRows(text, projects, known)|
    ensures p in projects && ProjectMigrates(p, known) && ProjectRows(text, projects, known)[i] == ProjectEntry(text, p)
  {
    var rest, last := projects[..|projects|-1], projects[|projects|-1];
    assert projects == rest + [last];
    if i < |ProjectRows(text, rest, known)| {
      p := ProjectRowIs(text, rest, known, i);
    } else {
      p := last;
    }
  }

  lemma {:induction false} EntityRowIs(text: Text, entities: seq<Entity>, known: set<string>, i: nat) returns (e: Entity)
    requires i < |EntityRows(text, entities, known)|
    ensures e in entities && EntityMigrates(e, known) && EntityRows(text, entities, known)[i] == EntityEntry(text, e)
  {
    var rest, last := entities[..|entities|-1], entities[|entities|-1];
    assert entities == rest + [last];
    if i < |EntityRows(text, rest, known)| {
      e := EntityRowIs(text, rest, known, i);
    } else {
      e := last;
    }
  }

  /** Each row is a migrated project's or a migrated entity's. */
  lemma InitiativeRowIs(text: Text, s: Source, i: nat) returns (p: Option<Project>, e: Option<Entity>)
    requires i < |InitiativeRows(text, s)|
    ensures p.Some? || e.Some?
    ensures p.Some? ==>
      p.value in s.projects && ProjectMigrates(p.value, KnownUsers(s)) && InitiativeRows(text, s)[i] == ProjectEntry(text, p.value)
    ensures e.Some? ==>
      e.value in s.entities && EntityMigrates(e.value, KnownUsers(s)) && InitiativeRows(text, s)[i] == EntityEntry(text, e.value)
  {
    var projects := ProjectRows(text, s.projects, KnownUsers(s));
    p, e := None, None;
    if i < |projects| {
      var q := ProjectRowIs(text, s.projects, KnownUsers(s), i);
      p := Some(q);
    } else {
      var f := EntityRowIs(text, s.entities, KnownUsers(s), i - |projects|);
      e := Some(f);
    }
  }

  /** The rows under the ID of an only project are its own. */
  lemma RowsOfProject(text: Text, s: Source, p: Project, i: nat)
    requires OnlyProject(text, s, p) && i < |InitiativeRows(text, s)| && InitiativeRows(text, s)[i].0 == ProjectId(text, p)
    ensures InitiativeRows(text, s)[i] == ProjectEntry(text, p)
  {
    var q, e := InitiativeRowIs(text, s, i);
  }

  lemma RowsOfEntity(text: Text, s: Source, e: Entity, i: nat)
    requires OnlyEntity(text, s, e) && i < |InitiativeRows(text, s)| && InitiativeRows(text, s)[i].0 == EntityId(text, e)
    ensures InitiativeRows(text, s)[i] == EntityEntry(text, e)
  {
    var q, f := InitiativeRowIs(text, s, i);
  }

  /** Only the kind of a stored initiative is not what its last row says. */
  lemma StoredInitiative(text: Text, db: Db, s: Source, run: nat, order: seq<string>, id: Uuid)
    requires Migrated(text, db, s, run, order).done && id in Ids(InitiativeRows(text, s))
    ensures var now := Migrated(text, db, s, run, order).db.initiatives; var rows := InitiativeRows(text, s);
      && id in now && Last(rows, id).Some?
      && (now[id].updated == Last(rows, id).value || now[id].updated == Last(rows, id).value.(kind := "mentorship"))
      && now[id].kept == (if id in db.initiatives then db.initiatives[id].kept else First(rows, id).value)
  {
    UpsertedAt(db.initiatives, InitiativeRows(text, s), id);
  }

  /** A project with an ID and an owner arrives with all its columns. */
  lemma ProjectArrives(text: Text, db: Db, s: Source, run: nat, order: seq<string>, p: Project)
    requires Migrated(text, db, s, run, order).done
    requires p in s.projects && p.owner != "" && p.id != "" && OnlyProject(text, s, p)
    ensures var now := Migrated(text, db, s, run, order).db.initiatives; var id := ProjectId(text, p);
      && id in now && HoldsProject(now[id], p)
      && now[id].kept == if id in db.initiatives then db.initiatives[id].kept else p.createdOn
  {
    var rows, id := InitiativeRows(text, s), ProjectId(text, p);
    NoInitiativeSkipped(text, db, s, run, order);
    var i := LastFrom(rows, id);
    var j := FirstFrom(rows, id);
    RowsOfProject(text, s, p, i);
    RowsOfProject(text, s, p, j);
    StoredInitiative(text, db, s, run, order, id);
  }

  /** So does an entity. */
  lemma EntityArrives(text: Text, db: Db, s: Source, run: nat, order: seq<string>, e: Entity)
    requires Migrated(text, db, s, run, order).done
    requires e in s.entities && e.owner != "" && e.id != "" && OnlyEntity(text, s, e)
    ensures var now := Migrated(text, db, s, run, order).db.initiatives; var id := EntityId(text, e);
      && id in now && HoldsEntity(now[id], e)
      && now[id].kept == if id in db.initiatives then db.initiatives[id].kept else e.createdOn
  {
    var rows, id := InitiativeRows(text, s), EntityId(text, e);
    NoInitiativeSkipped(text, db, s, run, order);
    var i := LastFrom(rows, id);
    var j := FirstFrom(rows, id);
    RowsOfEntity(text, s, e, i);
    RowsOfEntity(text, s, e, j);
    StoredInitiative(text, db, s, run, order, id);
  }

  /** An initiative's ID is its DynamoDB ID as a UUID, or else made of its owner and name. */
  lemma InitiativeIdMeans(text: Text, p: Project, e: Entity)
    ensures AsUuid(text, p.id).Some? ==> Some(ProjectId(text, p)) == AsUuid(text, p.id)
    ensures AsUuid(text, p.id).None? ==> ProjectId(text, p) == Named("project", p.owner + "|" + p.name)
    ensures AsUuid(text, e.id).Some? ==> Some(EntityId(text, e)) == AsUuid(text, e.id)
    ensures AsUuid(text, e.id).None? ==> EntityId(text, e) == Named("entity", e.owner + "|" + e.name)
  {
  }

  /* ---- goals ---- */

  /** The row of a goal: never a negative amount. */
  predicate IsGoalRow(row: (Uuid, Entry<GoalKey, GoalRow>), rawId: string, id: Uuid, g: Goal) {
    && row.0 == Named("goal", rawId + "|" + g.name)
    && row.1.kept.initiative == id && row.1.kept.name == g.name
    && row.1.updated.amount == (if g.amount < 0 then 0 else g.amount) && row.1.updated.detailed == g.detailed
  }

  ghost predicate HasGoalRow(rows: Rows<GoalKey, GoalRow>, rawId: string, id: Uuid, g: Goal) {
    exists i :: 0 <= i < |rows| && IsGoalRow(rows[i], rawId, id, g)
  }

  lemma HasInPart(a: Rows<GoalKey, GoalRow>, b: Rows<GoalKey, GoalRow>, rawId: string, id: Uuid, g: Goal)
    requires HasGoalRow(a, rawId, id, g) || HasGoalRow(b, rawId, id, g)
    ensures HasGoalRow(a + b, rawId, id, g)
  {
    if i :| 0 <= i < |a| && IsGoalRow(a[i], rawId, id, g) {
      assert IsGoalRow((a + b)[i], rawId, id, g);
    } else {
      var i :| 0 <= i < |b| && IsGoalRow(b[i], rawId, id, g);
      assert IsGoalRow((a + b)[|a| + i], rawId, id, g);
    }
  }

  lemma {:induction false} BudgetHasRow(rawId: string, id: Uuid, budgets: seq<Goal>, g: Goal)
    requires g in budgets && (g.amount > 0 || g.detailed)
    ensures HasGoalRow(BudgetRows(rawId, id, budgets), rawId, id, g)
  {
    var rest, last := budgets[..|budgets|-1], budgets[|budgets|-1];
    assert budgets == rest + [last];
    var more := if last.amount > 0 || last.detailed then [GoalEntry(rawId, id, last)] else [];
    if last == g {
      assert IsGoalRow(more[0], rawId, id, g);
    } else {
      BudgetHasRow(rawId, id, rest, g);
    }
    HasInPart(BudgetRows(rawId, id, rest), more, rawId, id, g);
  }

  lemma {:induction false} ListedHasRow(rawId: string, id: Uuid, goals: seq<Goal>, g: Goal)
    requires g in goals
    ensures HasGoalRow(GoalListRows(rawId, id, goals), rawId, id, g)
  {
    var rest, last := goals[..|goals|-1], goals[|goals|-1];
    assert goals == rest + [last];
    var more := [GoalEntry(rawId, id, last)];
    if last == g {
      assert IsGoalRow(more[0], rawId, id, g);
    } else {
      ListedHasRow(rawId, id, rest, g);
    }
    HasInPart(GoalListRows(rawId, id, rest), more, rawId, id, g);
  }

  lemma {:induction false} ProjectGoalHasRow(text: Text, projects: seq<Project>, known: set<string>, p: Project, g: Goal)
    requires p in projects && ProjectMigrates(p, known) && HasGoalRow(GoalsOf(text, p), p.id, ProjectId(text, p), g)
    ensures HasGoalRow(ProjectGoals(text, projects, known), p.id, ProjectId(text, p), g)
  {
    var rest, last := projects[..|projects|-1], projects[|projects|-1];
    assert projects == rest + [last];
    var more := if ProjectMigrates(last, known) then GoalsOf(text, last) else [];
    if last != p { ProjectGoalHasRow(text, rest, known, p, g); }
    HasInPart(ProjectGoals(text, rest, known), more, p.id, ProjectId(text, p), g);
  }

  lemma {:induction false} EntityGoalHasRow(text: Text, entities: seq<Entity>, known: set<string>, e: Entity, g: Goal)
    requires e in entities && EntityMigrates(e, known) && g in e.goals
    ensures HasGoalRow(EntityGoals(text, entities, known), e.id, EntityId(text, e), g)
  {
    var rest, last := entities[..|entities|-1], entities[|entities|-1];
    assert entities == rest + [last];
    var more := if EntityMigrates(last, known) then GoalListRows(last.id, EntityId(text, last), last.goals) else [];
    if last == e { ListedHasRow(e.id, EntityId(text, e), e.goals, g); } else { EntityGoalHasRow(text, rest, known, e, g); }
    HasInPart(EntityGoals(text, rest, known), more, e.id, EntityId(text, e), g);
  }

  /** Every goal of an initiative that is migrated is emitted with its columns: an entity's all,
      a project's if they have an amount or a detail, and its mentee budget under that name. */
  lemma NoGoalSkipped(text: Text, s: Source)
    ensures forall p, g :: p in s.projects && p.owner != "" && p.id != "" && g in p.budgets && (g.amount > 0 || g.detailed) ==>
      HasGoalRow(GoalRows(text, s), p.id, ProjectId(text, p), g)
    ensures forall p :: p in s.projects && p.owner != "" && p.id != "" && p.mentee.Some?
                        && (p.mentee.value.amount > 0 || p.mentee.value.detailed) ==>
      HasGoalRow(GoalRows(text, s), p.id, ProjectId(text, p), Goal("mentee", p.mentee.value.amount, p.mentee.value.detailed))
    ensures forall e, g :: e in s.entities && e.owner != "" && e.id != "" && g in e.goals ==>
      HasGoalRow(GoalRows(text, s), e.id, EntityId(text, e), g)
  {
    var known := KnownUsers(s);
    forall p, g | p in s.projects && p.owner != "" && p.id != "" && g in p.budgets && (g.amount > 0 || g.detailed)
      ensures HasGoalRow(GoalRows(text, s), p.id, ProjectId(text, p), g)
    {
      BudgetEmitted(text, s, p, g);
    }
    forall p | p in s.projects && p.owner != "" && p.id != "" && p.mentee.Some? && (p.mentee.value.amount > 0 || p.mentee.value.detailed)
      ensures HasGoalRow(GoalRows(text, s), p.id, ProjectId(text, p), Goal("mentee", p.mentee.value.amount, p.mentee.value.detailed))
    {
      MenteeEmitted(text, s, p);
    }
    forall e, g | e in s.entities && e.owner != "" && e.id != "" && g in e.goals
      ensures HasGoalRow(GoalRows(text, s), e.id, EntityId(text, e), g)
    {
      EntityGoalHasRow(text, s.entities, known, e, g);
      HasInPart(ProjectGoals(text, s.projects, known), EntityGoals(text, s.entities, known), e.id, EntityId(text, e), g);
    }
  }

  lemma BudgetEmitted(text: Text, s: Source, p: Project, g: Goal)
    requires p in s.projects && p.owner != "" && p.id != "" && g in p.budgets && (g.amount > 0 || g.detailed)
    ensures HasGoalRow(GoalRows(text, s), p.id, ProjectId(text, p), g)
  {
    var known, id := KnownUsers(s), ProjectId(text, p);
    var mentee := if p.mentee.None? then [] else BudgetRows(p.id, id, [p.mentee.value.(name := "mentee")]);
    BudgetHasRow(p.id, id, p.budgets, g);
    HasInPart(BudgetRows(p.id, id, p.budgets), mentee, p.id, id, g);
    ProjectGoalHasRow(text, s.projects, known, p, g);
    HasInPart(ProjectGoals(text, s.projects, known), EntityGoals(text, s.entities, known), p.id, id, g);
  }

  lemma MenteeEmitted(text: Text, s: Source, p: Project)
    requires p in s.projects && p.owner != "" && p.id != "" && p.mentee.Some?
    requires p.mentee.value.amount > 0 || p.mentee.value.detailed
    ensures HasGoalRow(GoalRows(text, s), p.id, ProjectId(text, p), Goal("mentee", p.mentee.value.amount, p.mentee.value.detailed))
  {
    var known, id, g := KnownUsers(s), ProjectId(text, p), p.mentee.value.(name := "mentee");
    assert g in [g];
    BudgetHasRow(p.id, id, [g], g);
    HasInPart(BudgetRows(p.id, id, p.budgets), BudgetRows(p.id, id, [g]), p.id, id, g);
    ProjectGoalHasRow(text, s.projects, known, p, g);
    HasInPart(ProjectGoals(text, s.projects, known), EntityGoals(text, s.entities, known), p.id, id, g);
  }
}
