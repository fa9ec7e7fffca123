/** The DynamoDB to PostgreSQL migration: which rows it emits, and its run phase by phase.
    Model of backend/db/scripts/migrate_dynamo_to_postgres.py for users,
    organizations, initiatives with their goals, donations and subscriptions. */
module Migration {
  import opened Options
  import opened Upserts

  /* ---- identifiers ---- */

  /** str.strip and uuid.UUID. */
  datatype Text = Text(strip: string -> string, parse: string -> Option<string>)

  /** _as_uuid. An absent value is "". */
  function AsUuid(text: Text, value: string): (id: Option<Uuid>)
    ensures id.Some? ==> !id.value.Random?
  {
    var s := text.strip(value);
    if s == "" then None
    else if text.parse(s).Some? then Some(Given(text.parse(s).value))
    else Some(Named("coerce", s))
  }

  function UserId(uid: string): Uuid {
    Named("user", uid)
  }

  /** Parts are joined with a bar. */
  function Joined(a: string, b: string): string {
    a + "|" + b
  }

  /* ---- the source ---- */

  /** `data` stands for the columns copied without further ado. */
  datatype User = User(id: string, data: string)
  datatype Org = Org(id: string, owner: string, data: string)
  datatype Goal = Goal(name: string, amount: int, detailed: bool)   // detailed: allocation, repo link, ...
  datatype Project = Project(id: string, owner: string, name: string, slug: Option<string>, jobspring: string,
                             createdOn: string, data: string, budgets: seq<Goal>, mentee: Option<Goal>)
  datatype Entity = Entity(id: string, owner: string, name: string, slug: string, entityType: string,
                           createdOn: string, data: string, goals: seq<Goal>)
  datatype Pledge = Pledge(user: string, target: string, org: string, data: string)

  datatype Source = Source(users: seq<User>, orgs: seq<Org>, projects: seq<Project>, entities: seq<Entity>,
                           projectDonations: seq<Pledge>, entityDonations: seq<Pledge>,
                           projectSubs: seq<Pledge>, entitySubs: seq<Pledge>)

  /* ---- the rows ---- */

  datatype UserRow = UserRow(legacyId: Option<string>, username: string, data: string)
  datatype OrgRow = OrgRow(owner: Uuid, data: string)
  datatype InitiativeRow = InitiativeRow(kind: string, owner: Uuid, name: string, slug: Option<string>,
                                         jobspring: Option<string>, data: string)
  datatype GoalKey = GoalKey(initiative: Uuid, name: string)
  datatype GoalRow = GoalRow(amount: nat, detailed: bool)
  datatype PledgeRow = PledgeRow(user: Uuid, initiative: Uuid, org: Option<Uuid>, data: string)

  /** created_on is not in the initiatives' DO UPDATE, nor initiative_id and name in the goals'. */
  datatype Db = Db(users: Table<(), UserRow>, orgs: Table<(), OrgRow>, initiatives: Table<string, InitiativeRow>,
                   goals: Table<GoalKey, GoalRow>, donations: Table<(), PledgeRow>, subscriptions: Table<(), PledgeRow>)

  predicate StartsWith(s: string, prefix: string) {
    |prefix| <= |s| && s[..|prefix|] == prefix
  }

  /** _strip_provider_prefix. */
  function Username(uid: string): string {
    if StartsWith(uid, "auth0|") then uid[6..] else if StartsWith(uid, "github|") then uid[7..] else uid
  }

  function UserEntry(u: User): (Uuid, Entry<(), UserRow>) {
    (UserId(u.id), Entry((), UserRow(Some(u.id), Username(u.id), u.data)))
  }

  function UserRows(users: seq<User>): Rows<(), UserRow> {
    if users == [] then []
    else UserRows(users[..|users|-1]) + if users[|users|-1].id == "" then [] else [UserEntry(users[|users|-1])]
  }

  /** The placeholders, in the order in which they come out of their set. */
  function Placeholders(order: seq<string>): seq<User> {
    seq(|order|, i requires 0 <= i < |order| => User(order[i], ""))
  }

  function UserIDs(users: seq<User>): set<string> {
    set u | u in users && u.id != "" :: u.id
  }

  /** Every user ID another table mentions. */
  function Referenced(s: Source): set<string> {
    (set o | o in s.orgs :: o.owner) + (set e | e in s.entities :: e.owner) + (set p | p in s.projects :: p.owner) +
    (set d | d in s.projectDonations + s.entityDonations :: d.user) + (set p | p in s.projectSubs + s.entitySubs :: p.user)
  }

  function KnownUsers(s: Source): set<string> {
    UserIDs(s.users) + (Referenced(s) - {""})
  }

  /** An order in which a set of placeholder IDs may come. */
  ghost predicate IsOrder(order: seq<string>, ids: set<string>) {
    forall uid :: uid in order <==> uid in ids
  }

  ghost predicate PlaceholderOrder(order: seq<string>, s: Source) {
    IsOrder(order, Referenced(s) - UserIDs(s.users) - {""})
  }

  function OrgId(text: Text, id: string, run: nat, n: nat): Uuid {
    if AsUuid(text, id).Some? then AsUuid(text, id).value else Random(run, n)
  }

  function OrgRows(text: Text, orgs: seq<Org>, known: set<string>, run: nat): Rows<(), OrgRow> {
    if orgs == [] then []
    else
      var n := |orgs| - 1;
      OrgRows(text, orgs[..n], known, run) +
      if orgs[n].owner !in known then []
      else [(OrgId(text, orgs[n].id, run, n), Entry((), OrgRow(UserId(orgs[n].owner), orgs[n].data)))]
  }

  predicate ProjectMigrates(p: Project, known: set<string>) {
    p.owner in known && p.id != ""
  }

  predicate EntityMigrates(e: Entity, known: set<string>) {
    e.owner in known && e.id != ""
  }

  function InitiativeId(text: Text, scope: string, id: string, owner: string, name: string): Uuid {
    if AsUuid(text, id).Some? then AsUuid(text, id).value else Named(scope, Joined(owner, name))
  }

  function ProjectId(text: Text, p: Project): Uuid {
    InitiativeId(text, "project", p.id, p.owner, p.name)
  }

  function EntityId(text: Text, e: Entity): Uuid {
    InitiativeId(text, "entity", e.id, e.owner, e.name)
  }

  function NullIfEmpty(s: string): Option<string> {
    if s == "" then None else Some(s)
  }

  function ProjectEntry(text: Text, p: Project): (Uuid, Entry<string, InitiativeRow>) {
    (ProjectId(text, p),
     Entry(p.createdOn, InitiativeRow("project", UserId(p.owner), p.name, p.slug, NullIfEmpty(p.jobspring), p.data)))
  }

  function EntityEntry(text: Text, e: Entity): (Uuid, Entry<string, InitiativeRow>) {
    var kind := if e.entityType == "initiative" then "general fund" else e.entityType;
    (EntityId(text, e), Entry(e.createdOn, InitiativeRow(kind, UserId(e.owner), e.name, NullIfEmpty(e.slug), None, e.data)))
  }

  function ProjectRows(text: Text, projects: seq<Project>, known: set<string>): Rows<string, InitiativeRow> {
    if projects == [] then []
    else
      var p := projects[|projects|-1];
      ProjectRows(text, projects[..|projects|-1], known) + if ProjectMigrates(p, known) then [ProjectEntry(text, p)] else []
  }

  function EntityRows(text: Text, entities: seq<Entity>, known: set<string>): Rows<string, InitiativeRow> {
    if entities == [] then []
    else
      var e := entities[|entities|-1];
      EntityRows(text, entities[..|entities|-1], known) + if EntityMigrates(e, known) then [EntityEntry(text, e)] else []
  }

  function GoalEntry(rawId: string, id: Uuid, g: Goal): (Uuid, Entry<GoalKey, GoalRow>) {
    var amount: nat := if g.amount < 0 then 0 else g.amount;
    (Named("goal", Joined(rawId, g.name)), Entry(GoalKey(id, g.name), GoalRow(amount, g.detailed)))
  }

  /** A project's goals: the budgets with an amount or a detail. */
  function BudgetRows(rawId: string, id: Uuid, budgets: seq<Goal>): Rows<GoalKey, GoalRow> {
    if budgets == [] then []
    else
      var g := budgets[|budgets|-1];
      BudgetRows(rawId, id, budgets[..|budgets|-1]) + if g.amount > 0 || g.detailed then [GoalEntry(rawId, id, g)] else []
  }

  function ProjectGoals(text: Text, projects: seq<Project>, known: set<string>): Rows<GoalKey, GoalRow> {
    if projects == [] then []
    else
      var p := projects[|projects|-1];
      ProjectGoals(text, projects[..|projects|-1], known) +
      if !ProjectMigrates(p, known) then [] else GoalsOf(text, p)
  }

  function GoalsOf(text: Text, p: Project): Rows<GoalKey, GoalRow> {
    BudgetRows(p.id, ProjectId(text, p), p.budgets) +
    if p.mentee.None? then [] else BudgetRows(p.id, ProjectId(text, p), [p.mentee.value.(name := "mentee")])
  }

  /** An entity's goals, all of them. */
  function GoalListRows(rawId: string, id: Uuid, goals: seq<Goal>): Rows<GoalKey, GoalRow> {
    if goals == [] then []
    else GoalListRows(rawId, id, goals[..|goals|-1]) + [GoalEntry(rawId, id, goals[|goals|-1])]
  }

  function EntityGoals(text: Text, entities: seq<Entity>, known: set<string>): Rows<GoalKey, GoalRow> {
    if entities == [] then []
    else
      var e := entities[|entities|-1];
      EntityGoals(text, entities[..|entities|-1], known) +
      if !EntityMigrates(e, known) then [] else GoalListRows(e.id, EntityId(text, e), e.goals)
  }

  /** The columns of a pledge whose initiative is migrated. */
  function RowFor(text: Text, d: Pledge, orgs: set<Uuid>): PledgeRow
    requires AsUuid(text, d.target).Some?
  {
    var org := AsUuid(text, d.org);
    PledgeRow(UserId(d.user), AsUuid(text, d.target).value, if org.Some? && org.value in orgs then org else None, d.data)
  }

  function PledgeId(scope: string, d: Pledge): Uuid {
    Named(scope, Joined(d.user, d.target))
  }

  predicate Emitted(text: Text, d: Pledge, known: set<string>, initiatives: set<Uuid>) {
    d.user in known && AsUuid(text, d.target).Some? && AsUuid(text, d.target).value in initiatives
  }

  function PledgeRows(text: Text, scope: string, pledges: seq<Pledge>, known: set<string>,
                      initiatives: set<Uuid>, orgs: set<Uuid>): Rows<(), PledgeRow>
  {
    if pledges == [] then []
    else
      var d := pledges[|pledges|-1];
      PledgeRows(text, scope, pledges[..|pledges|-1], known, initiatives, orgs) +
      if Emitted(text, d, known, initiatives) then [(PledgeId(scope, d), Entry((), RowFor(text, d, orgs)))] else []
  }

  predicate IsMentorship(goals: Table<GoalKey, GoalRow>, id: Uuid) {
    exists g :: g in goals && goals[g].kept == GoalKey(id, "mentee") && goals[g].updated.amount > 0
  }

  function Reclassified(t: Table<string, InitiativeRow>, goals: Table<GoalKey, GoalRow>): Table<string, InitiativeRow> {
    map id | id in t :: if IsMentorship(goals, id) then t[id].(updated := t[id].updated.(kind := "mentorship")) else t[id]
  }

  /* ---- the whole run ---- */

  function InitiativeRows(text: Text, s: Source): Rows<string, InitiativeRow> {
    ProjectRows(text, s.projects, KnownUsers(s)) + EntityRows(text, s.entities, KnownUsers(s))
  }

  function GoalRows(text: Text, s: Source): Rows<GoalKey, GoalRow> {
    ProjectGoals(text, s.projects, KnownUsers(s)) + EntityGoals(text, s.entities, KnownUsers(s))
  }

  function DonationRows(text: Text, s: Source, run: nat): Rows<(), PledgeRow> {
    var initiatives, orgs := Ids(InitiativeRows(text, s)), Ids(OrgRows(text, s.orgs, KnownUsers(s), run));
    PledgeRows(text, "proj_donation", s.projectDonations, KnownUsers(s), initiatives, orgs) +
    PledgeRows(text, "entity_donation", s.entityDonations, KnownUsers(s), initiatives, orgs)
  }

  function SubscriptionRows(text: Text, s: Source, run: nat): Rows<(), PledgeRow> {
    var initiatives, orgs := Ids(InitiativeRows(text, s)), Ids(OrgRows(text, s.orgs, KnownUsers(s), run));
    PledgeRows(text, "proj_subscription", s.projectSubs, KnownUsers(s), initiatives, orgs) +
    PledgeRows(text, "entity_subscription", s.entitySubs, KnownUsers(s), initiatives, orgs)
  }

  function AllUserRows(s: Source, order: seq<string>): Rows<(), UserRow> {
    UserRows(s.users + Placeholders(order))
  }

  /** What a run that no unique index aborts leaves. */
  function Tables(text: Text, db: Db, s: Source, run: nat, order: seq<string>): Db {
    var goals := Upserted(db.goals, GoalRows(text, s));
    Db(Upserted(db.users, AllUserRows(s, order)),
       Upserted(db.orgs, OrgRows(text, s.orgs, KnownUsers(s), run)),
       Reclassified(Upserted(db.initiatives, InitiativeRows(text, s)), goals),
       goals,
       Upserted(db.donations, DonationRows(text, s, run)),
       Upserted(db.subscriptions, SubscriptionRows(text, s, run)))
  }

  /* ---- unique indexes ---- */

  datatype UserKey = Name(username: string) | Legacy(id: string)
  datatype InitiativeKey = Slug(slug: string) | Jobspring(id: string)

  function NamesOf(u: UserRow): set<UserKey> {
    {Name(u.username)} + if u.legacyId.Some? then {Legacy(u.legacyId.value)} else {}
  }

  function SlugsOf(r: InitiativeRow): set<InitiativeKey> {
    (if r.slug.Some? then {Slug(r.slug.value)} else {}) + if r.jobspring.Some? then {Jobspring(r.jobspring.value)} else {}
  }

  function UserKeys(e: Entry<(), UserRow>): set<UserKey> {
    NamesOf(e.updated)
  }

  function InitiativeKeys(e: Entry<string, InitiativeRow>): set<InitiativeKey> {
    SlugsOf(e.updated)
  }

  function GoalKeys(e: Entry<GoalKey, GoalRow>): set<GoalKey> {
    {e.kept}
  }

  /** What the unique indexes promise of any database. */
  ghost predicate Indexed(db: Db) {
    Unique(db.users, UserKeys) && Unique(db.initiatives, InitiativeKeys) && Unique(db.goals, GoalKeys)
  }

  /** A run commits phase after phase. A phase that violates a unique index is rolled back and
      ends the run. */
  datatype Outcome = Outcome(db: Db, done: bool)

  function Migrated(text: Text, db: Db, s: Source, run: nat, order: seq<string>): Outcome {
    var users := Executed(db.users, AllUserRows(s, order), UserKeys);
    var initiatives := Executed(db.initiatives, InitiativeRows(text, s), InitiativeKeys);
    var goals := Executed(db.goals, GoalRows(text, s), GoalKeys);
    var all := Tables(text, db, s, run, order);
    if users.None? then Outcome(db, false)
    else if initiatives.None? || goals.None? then Outcome(db.(users := all.users, orgs := all.orgs), false)
    else Outcome(all, true)
  }

  /* ---- the script ---- */

  class Script {
    var db: Db
    const text: Text
    const run: nat

    constructor (db: Db, text: Text, run: nat)
      ensures this.db == db && this.text == text && this.run == run
    {
      this.db, this.text, this.run := db, text, run;
    }

    /** Returns known_users; user_id_to_uuid is UserId on it. Sets have no order, so the
        placeholders come in any. */
    method MigrateUsers(users: seq<User>, placeholderIds: set<string>)
      returns (known: set<string>, ok: bool, ghost order: seq<string>)
      modifies this
      ensures known == UserIDs(users) + (placeholderIds - {""})
      ensures IsOrder(order, placeholderIds - UserIDs(users) - {""})
      ensures var t := Executed(old(db).users, UserRows(users + Placeholders(order)), UserKeys);
        ok == t.Some? && db == old(db).(users := if ok then t.value else old(db).users)
    {
      var rows: Rows<(), UserRow> := [];
      known := {};
      for i := 0 to |users|
        invariant db == old(db) && rows == UserRows(users[..i]) && known == UserIDs(users[..i])
      {
        assert users[..i+1][..i] == users[..i] && users[..i+1] == users[..i] + [users[i]];
        var u := users[i];
        if u.id == "" { continue; }
        known := known + {u.id};
        rows := rows + [UserEntry(u)];
      }
      assert users[..|users|] == users;
      rows, known, order := AddPlaceholders(users, rows, placeholderIds, known);
      var t := Executed(db.users, rows, UserKeys);
      ok := t.Some?;
      if ok { db := db.(users := t.value); }
    }

    /** The loop over the placeholders. */
    method AddPlaceholders(ghost users: seq<User>, userRows: Rows<(), UserRow>, ids: set<string>, known: set<string>)
      returns (rows: Rows<(), UserRow>, known': set<string>, ghost order: seq<string>)
      requires userRows == UserRows(users)
      ensures rows == UserRows(users + Placeholders(order)) && IsOrder(order, ids - known - {""})
      ensures known' == known + (ids - {""})
    {
      rows, known', order := userRows, known, [];
      var left := ids;
      assert users + Placeholders(order) == users;
      while left != {}
        invariant left <= ids && known' <= known + ids - left - {""} + known
        invariant ids - left - {""} <= known' && known <= known'
        invariant rows == UserRows(users + Placeholders(order)) && IsOrder(order, known' - known)
        decreases left
      {
        var uid :| uid in left;
        left := left - {uid};
        if uid != "" && uid !in known' {
          PlaceholdersStep(users, order, uid);
          rows, known', order := rows + [UserEntry(User(uid, ""))], known' + {uid}, order + [uid];
        }
      }
      assert known' - known == ids - known - {""};
    }

    method MigrateOrganizations(orgs: seq<Org>, known: set<string>) returns (knownOrgs: set<Uuid>)
      modifies this
      ensures knownOrgs == Ids(OrgRows(text, orgs, known, run))
      ensures db == old(db).(orgs := Upserted(old(db).orgs, OrgRows(text, orgs, known, run)))
    {
      var rows: Rows<(), OrgRow> := [];
      knownOrgs := {};
      for i := 0 to |orgs|
        invariant db == old(db)
        invariant rows == OrgRows(text, orgs[..i], known, run) && knownOrgs == Ids(rows)
      {
        assert orgs[..i+1][..i] == orgs[..i];
        if orgs[i].owner !in known { continue; }
        var id := OrgId(text, orgs[i].id, run, i);
        knownOrgs := knownOrgs + {id};
        IdsAppend(rows, (id, Entry((), OrgRow(UserId(orgs[i].owner), orgs[i].data))));
        rows := rows + [(id, Entry((), OrgRow(UserId(orgs[i].owner), orgs[i].data)))];
      }
      assert orgs[..|orgs|] == orgs;
      db := db.(orgs := Upserted(db.orgs, rows));
    }

    /** Phase 3 of migrate_initiatives: one UPDATE joining the initiatives with their goals. */
    method Reclassify()
      modifies this
      ensures db == old(db).(initiatives := Reclassified(old(db).initiatives, old(db).goals))
    {
      db := db.(initiatives := Reclassified(db.initiatives, db.goals));
    }

    method MigrateInitiatives(entities: seq<Entity>, projects: seq<Project>, known: set<string>)
      returns (ids: set<Uuid>, ok: bool)
      modifies this
      ensures var rows := ProjectRows(text, projects, known) + EntityRows(text, entities, known);
        var goalRows := ProjectGoals(text, projects, known) + EntityGoals(text, entities, known);
        var initiatives, goals := Executed(old(db).initiatives, rows, InitiativeKeys), Executed(old(db).goals, goalRows, GoalKeys);
        && ids == Ids(rows)
        && ok == (initiatives.Some? && goals.Some?)
        && db == if ok then old(db).(goals := goals.value, initiatives := Reclassified(initiatives.value, goals.value))
                 else old(db)
    {
      var rows, goalRows := MigrateProjects(projects, known);
      var moreRows, moreGoals := MigrateEntities(entities, known);
      rows, goalRows := rows + moreRows, goalRows + moreGoals;
      ids := Ids(rows);
      ok := false;
      var initiatives := Executed(db.initiatives, rows, InitiativeKeys);
      if initiatives.None? { return; }
      var goals := Executed(db.goals, goalRows, GoalKeys);
      if goals.None? { return; }
      db := db.(initiatives := initiatives.value, goals := goals.value);
      Reclassify();
      ok := true;
    }

    /** The rows of migrate_initiatives' first loop. */
    method MigrateProjects(projects: seq<Project>, known: set<string>)
      returns (rows: Rows<string, InitiativeRow>, goals: Rows<GoalKey, GoalRow>)
      ensures rows == ProjectRows(text, projects, known) && goals == ProjectGoals(text, projects, known)
    {
      rows, goals := [], [];
      for i := 0 to |projects|
        invariant rows == ProjectRows(text, projects[..i], known) && goals == ProjectGoals(text, projects[..i], known)
      {
        assert projects[..i+1][..i] == projects[..i];
        var p := projects[i];
        if p.owner !in known || p.id == "" { continue; }
        rows := rows + [ProjectEntry(text, p)];
        var more := BudgetGoals(p.id, ProjectId(text, p), p.budgets);
        if p.mentee.Some? {
          var mentee := BudgetGoals(p.id, ProjectId(text, p), [p.mentee.value.(name := "mentee")]);
          more := more + mentee;
        }
        goals := goals + more;
      }
      assert projects[..|projects|] == projects;
    }

    /** The rows of its second loop. */
    method MigrateEntities(entities: seq<Entity>, known: set<string>)
      returns (rows: Rows<string, InitiativeRow>, goals: Rows<GoalKey, GoalRow>)
      ensures rows == EntityRows(text, entities, known) && goals == EntityGoals(text, entities, known)
    {
      rows, goals := [], [];
      for i := 0 to |entities|
        invariant rows == EntityRows(text, entities[..i], known) && goals == EntityGoals(text, entities[..i], known)
      {
        assert entities[..i+1][..i] == entities[..i];
        var e := entities[i];
        if e.owner !in known || e.id == "" { continue; }
        rows := rows + [EntityEntry(text, e)];
        var more := ListedGoals(e.id, EntityId(text, e), e.goals);
        goals := goals + more;
      }
      assert entities[..|entities|] == entities;
    }

    method BudgetGoals(rawId: string, id: Uuid, budgets: seq<Goal>) returns (rows: Rows<GoalKey, GoalRow>)
      ensures rows == BudgetRows(rawId, id, budgets)
    {
      rows := [];
      for i := 0 to |budgets|
        invariant rows == BudgetRows(rawId, id, budgets[..i])
      {
        assert budgets[..i+1][..i] == budgets[..i];
        if budgets[i].amount > 0 || budgets[i].detailed { rows := rows + [GoalEntry(rawId, id, budgets[i])]; }
      }
      assert budgets[..|budgets|] == budgets;
    }

    method ListedGoals(rawId: string, id: Uuid, goals: seq<Goal>) returns (rows: Rows<GoalKey, GoalRow>)
      ensures rows == GoalListRows(rawId, id, goals)
    {
      rows := [];
      for i := 0 to |goals|
        invariant rows == GoalListRows(rawId, id, goals[..i])
      {
        assert goals[..i+1][..i] == goals[..i];
        rows := rows + [GoalEntry(rawId, id, goals[i])];
      }
      assert goals[..|goals|] == goals;
    }

    /** One of the four loops over donations and subscriptions. */
    method BuildPledgeRows(scope: string, pledges: seq<Pledge>, known: set<string>, initiatives: set<Uuid>, orgs: set<Uuid>)
      returns (rows: Rows<(), PledgeRow>)
      ensures rows == PledgeRows(text, scope, pledges, known, initiatives, orgs)
    {
      rows := [];
      for i := 0 to |pledges|
        invariant rows == PledgeRows(text, scope, pledges[..i], known, initiatives, orgs)
      {
        assert pledges[..i+1][..i] == pledges[..i];
        var d := pledges[i];
        if d.user !in known { continue; }
        var target := AsUuid(text, d.target);
        if target.None? || target.value !in initiatives { continue; }
        var org := AsUuid(text, d.org);
        if org.Some? && org.value !in orgs { org := None; }
        rows := rows + [(PledgeId(scope, d), Entry((), PledgeRow(UserId(d.user), target.value, org, d.data)))];
      }
      assert pledges[..|pledges|] == pledges;
    }

    /** The referenced user IDs absent from the users table. */
    method CollectPlaceholders(s: Source) returns (extra: set<string>)
      ensures extra == Referenced(s) - UserIDs(s.users)
    {
      extra := {};
      for i := 0 to |s.orgs|
        invariant extra == set o | o in s.orgs[..i] :: o.owner
      {
        assert s.orgs[..i+1] == s.orgs[..i] + [s.orgs[i]];
        extra := extra + {s.orgs[i].owner};
      }
      assert s.orgs[..|s.orgs|] == s.orgs;
      ghost var orgs := extra;
      for i := 0 to |s.entities|
        invariant extra == orgs + set e | e in s.entities[..i] :: e.owner
      {
        assert s.entities[..i+1] == s.entities[..i] + [s.entities[i]];
        extra := extra + {s.entities[i].owner};
      }
      assert s.entities[..|s.entities|] == s.entities;
      ghost var entities := extra;
      for i := 0 to |s.projects|
        invariant extra == entities + set p | p in s.projects[..i] :: p.owner
      {
        assert s.projects[..i+1] == s.projects[..i] + [s.projects[i]];
        extra := extra + {s.projects[i].owner};
      }
      assert s.projects[..|s.projects|] == s.projects;
      extra := AddPledgers(extra, s.projectDonations + s.entityDonations);
      extra := AddPledgers(extra, s.projectSubs + s.entitySubs);
      extra := extra - UserIDs(s.users);
    }

    method AddPledgers(extra: set<string>, pledges: seq<Pledge>) returns (all: set<string>)
      ensures all == extra + set p | p in pledges :: p.user
    {
      all := extra;
      for i := 0 to |pledges|
        invariant all == extra + set p | p in pledges[..i] :: p.user
      {
        assert pledges[..i+1] == pledges[..i] + [pledges[i]];
        all := all + {pledges[i].user};
      }
      assert pledges[..|pledges|] == pledges;
    }

    method MigrateDonations(projectDonations: seq<Pledge>, entityDonations: seq<Pledge>, known: set<string>,
                            initiatives: set<Uuid>, orgs: set<Uuid>)
      modifies this
      ensures db == old(db).(donations := Upserted(old(db).donations,
        PledgeRows(text, "proj_donation", projectDonations, known, initiatives, orgs) +
        PledgeRows(text, "entity_donation", entityDonations, known, initiatives, orgs)))
    {
      var rows := BuildPledgeRows("proj_donation", projectDonations, known, initiatives, orgs);
      var more := BuildPledgeRows("entity_donation", entityDonations, known, initiatives, orgs);
      db := db.(donations := Upserted(db.donations, rows + more));
    }

    method MigrateSubscriptions(projectSubs: seq<Pledge>, entitySubs: seq<Pledge>, known: set<string>,
                                initiatives: set<Uuid>, orgs: set<Uuid>)
      modifies this
      ensures db == old(db).(subscriptions := Upserted(old(db).subscriptions,
        PledgeRows(text, "proj_subscription", projectSubs, known, initiatives, orgs) +
        PledgeRows(text, "entity_subscription", entitySubs, known, initiatives, orgs)))
    {
      var rows := BuildPledgeRows("proj_subscription", projectSubs, known, initiatives, orgs);
      var more := BuildPledgeRows("entity_subscription", entitySubs, known, initiatives, orgs);
      db := db.(subscriptions := Upserted(db.subscriptions, rows + more));
    }

    /** main, after the scans. */
    method Migrate(s: Source) returns (ok: bool, ghost order: seq<string>)
      modifies this
      ensures PlaceholderOrder(order, s)
      ensures Outcome(db, ok) == Migrated(text, old(db), s, run, order)
    {
      var extra := CollectPlaceholders(s);
      var known, orgs, initiatives;
      known, ok, order := MigrateUsers(s.users, extra);
      KnownUsersAre(s, extra);
      MigratedInPhases(text, old(db), s, run, order);
      if !ok { return; }
      orgs := MigrateOrganizations(s.orgs, known);
      initiatives, ok := MigrateInitiatives(s.entities, s.projects, known);
      if !ok { return; }
      MigrateDonations(s.projectDonations, s.entityDonations, known, initiatives, orgs);
      MigrateSubscriptions(s.projectSubs, s.entitySubs, known, initiatives, orgs);
    }
  }

  lemma KnownUsersAre(s: Source, extra: set<string>)
    requires extra == Referenced(s) - UserIDs(s.users)
    ensures UserIDs(s.users) + (extra - {""}) == KnownUsers(s)
    ensures extra - UserIDs(s.users) - {""} == Referenced(s) - UserIDs(s.users) - {""}
  {
  }

  lemma PlaceholdersStep(users: seq<User>, order: seq<string>, uid: string)
    requires uid != ""
    ensures UserRows(users + Placeholders(order + [uid])) == UserRows(users + Placeholders(order)) + [UserEntry(User(uid, ""))]
  {
    var all := users + Placeholders(order + [uid]);
    assert all[..|all|-1] == users + Placeholders(order);
    assert all[|all|-1] == User(uid, "");
  }

  /** The phases that complete leave what Tables says. */
  lemma MigratedInPhases(text: Text, db: Db, s: Source, run: nat, order: seq<string>)
    ensures var all := Tables(text, db, s, run, order);
      var users := Executed(db.users, AllUserRows(s, order), UserKeys);
      var initiatives := Executed(db.initiatives, InitiativeRows(text, s), InitiativeKeys);
      var goals := Executed(db.goals, GoalRows(text, s), GoalKeys);
      && (users.Some? ==> users.value == all.users)
      && (goals.Some? ==> goals.value == all.goals)
      && (initiatives.Some? && goals.Some? ==> Reclassified(initiatives.value, goals.value) == all.initiatives)
  {
    if Executed(db.users, AllUserRows(s, order), UserKeys).Some? { ExecutedIsUpserted(db.users, AllUserRows(s, order), UserKeys); }
    if Executed(db.goals, GoalRows(text, s), GoalKeys).Some? { ExecutedIsUpserted(db.goals, GoalRows(text, s), GoalKeys); }
    if Executed(db.initiatives, InitiativeRows(text, s), InitiativeKeys).Some? {
      ExecutedIsUpserted(db.initiatives, InitiativeRows(text, s), InitiativeKeys);
    }
  }
}
