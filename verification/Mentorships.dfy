/** Which initiatives the migration makes mentorships. */
module Mentorships {
  import opened Migration
  import opened MigrationRows
  import opened MigrationRuns
  import opened Options
  import opened Upserts

  /** The amount of the last mentee goal in an entity's list. */
  function MenteeIn(goals: seq<Goal>): Option<nat> {
    if goals == [] then None
    else
      var g := goals[|goals|-1];
      if g.name == "mentee" then Some(if g.amount < 0 then 0 else g.amount) else MenteeIn(goals[..|goals|-1])
  }

  /** The amount the source last gives the mentee goal of a DynamoDB ID: entities come after
      projects, later records after earlier ones. A project's mentee budget is a goal if it has
      an amount or a detail. */
  function MenteeOfProjects(projects: seq<Project>, known: set<string>, rawId: string): Option<nat> {
    if projects == [] then None
    else
      var p := projects[|projects|-1];
      if ProjectMigrates(p, known) && p.id == rawId && p.mentee.Some? && (p.mentee.value.amount > 0 || p.mentee.value.detailed)
      then Some(if p.mentee.value.amount < 0 then 0 else p.mentee.value.amount)
      else MenteeOfProjects(projects[..|projects|-1], known, rawId)
  }

  function MenteeOfEntities(entities: seq<Entity>, known: set<string>, rawId: string): Option<nat> {
    if entities == [] then None
    else
      var e := entities[|entities|-1];
      if EntityMigrates(e, known) && e.id == rawId && MenteeIn(e.goals).Some? then MenteeIn(e.goals)
      else MenteeOfEntities(entities[..|entities|-1], known, rawId)
  }

  function LastMentee(s: Source, rawId: string): Option<nat> {
    var e := MenteeOfEntities(s.entities, KnownUsers(s), rawId);
    if e.Some? then e else MenteeOfProjects(s.projects, KnownUsers(s), rawId)
  }

  /** Goal names have no bar, a project's budgets have the script's seven names, of which mentee
      is none, and no ID is blank. */
  ghost predicate Plain(text: Text, s: Source) {
    && (forall p :: p in s.projects && p.id != "" ==> AsUuid(text, p.id).Some? && PlainGoals(p.budgets, false))
    && (forall e :: e in s.entities && e.id != "" ==> AsUuid(text, e.id).Some? && PlainGoals(e.goals, true))
  }

  ghost predicate PlainGoals(goals: seq<Goal>, mentee: bool) {
    forall i :: 0 <= i < |goals| ==> '|' !in goals[i].name && (mentee || goals[i].name != "mentee")
  }

  function MenteeId(rawId: string): Uuid {
    Named("goal", Joined(rawId, "mentee"))
  }

  lemma GoalIdApart(rawId: string, name: string, rawId': string)
    requires '|' !in name
    ensures Named("goal", Joined(rawId, name)) == MenteeId(rawId') <==> rawId == rawId' && name == "mentee"
  {
    if Joined(rawId, name) == Joined(rawId', "mentee") { JoinedApart(rawId, name, rawId', "mentee"); }
  }

  function AmountOf(r: Option<GoalRow>): Option<nat> {
    if r.Some? then Some(r.value.amount) else None
  }

  lemma {:induction false} BudgetsAreNotMentee(rawId: string, id: Uuid, budgets: seq<Goal>, raw: string)
    requires PlainGoals(budgets, false)
    ensures Last(BudgetRows(rawId, id, budgets), MenteeId(raw)) == None
  {
    if budgets != [] {
      var rest, g := budgets[..|budgets|-1], budgets[|budgets|-1];
      BudgetsAreNotMentee(rawId, id, rest, raw);
      GoalIdApart(rawId, g.name, raw);
      LastAppend(BudgetRows(rawId, id, rest), GoalEntry(rawId, id, g), MenteeId(raw));
      if !(g.amount > 0 || g.detailed) { assert BudgetRows(rawId, id, budgets) == BudgetRows(rawId, id, rest); }
    }
  }

  lemma {:induction false} ListedMentee(rawId: string, id: Uuid, goals: seq<Goal>, raw: string)
    requires PlainGoals(goals, true)
    ensures AmountOf(Last(GoalListRows(rawId, id, goals), MenteeId(raw))) == if raw == rawId then MenteeIn(goals) else None
  {
    if goals != [] {
      var rest, g := goals[..|goals|-1], goals[|goals|-1];
      ListedMentee(rawId, id, rest, raw);
      GoalIdApart(rawId, g.name, raw);
      LastAppend(GoalListRows(rawId, id, rest), GoalEntry(rawId, id, g), MenteeId(raw));
    }
  }

  lemma OneBudget(rawId: string, id: Uuid, g: Goal)
    ensures BudgetRows(rawId, id, [g]) == if g.amount > 0 || g.detailed then [GoalEntry(rawId, id, g)] else []
  {
    var one := [g];
    assert one[..0] == [];
    assert BudgetRows(rawId, id, one[..0]) == [];
  }

  lemma ProjectMentee(text: Text, p: Project, raw: string)
    requires PlainGoals(p.budgets, false)
    ensures AmountOf(Last(GoalsOf(text, p), MenteeId(raw))) ==
      if p.id == raw && p.mentee.Some? && (p.mentee.value.amount > 0 || p.mentee.value.detailed)
      then Some(if p.mentee.value.amount < 0 then 0 else p.mentee.value.amount) else None
  {
    var budgets := BudgetRows(p.id, ProjectId(text, p), p.budgets);
    BudgetsAreNotMentee(p.id, ProjectId(text, p), p.budgets, raw);
    if p.mentee.None? {
      assert GoalsOf(text, p) == budgets;
    } else {
      var g := p.mentee.value.(name := "mentee");
      OneBudget(p.id, ProjectId(text, p), g);
      if g.amount > 0 || g.detailed {
        GoalIdApart(p.id, "mentee", raw);
        LastAppend(budgets, GoalEntry(p.id, ProjectId(text, p), g), MenteeId(raw));
      } else {
        assert GoalsOf(text, p) == budgets;
      }
    }
  }

  lemma {:induction false} ProjectsMentee(text: Text, projects: seq<Project>, known: set<string>, raw: string)
    requires forall p :: p in projects && p.id != "" ==> PlainGoals(p.budgets, false)
    ensures AmountOf(Last(ProjectGoals(text, projects, known), MenteeId(raw))) == MenteeOfProjects(projects, known, raw)
  {
    if projects != [] {
      var rest, p := projects[..|projects|-1], projects[|projects|-1];
      assert projects == rest + [p];
      ProjectsMentee(text, rest, known, raw);
      if ProjectMigrates(p, known) {
        ProjectMentee(text, p, raw);
        LastOfJoin(ProjectGoals(text, rest, known), GoalsOf(text, p), MenteeId(raw));
      } else {
        assert ProjectGoals(text, projects, known) == ProjectGoals(text, rest, known);
      }
    }
  }

  lemma {:induction false} EntitiesMentee(text: Text, entities: seq<Entity>, known: set<string>, raw: string)
    requires forall e :: e in entities && e.id != "" ==> PlainGoals(e.goals, true)
    ensures AmountOf(Last(EntityGoals(text, entities, known), MenteeId(raw))) == MenteeOfEntities(entities, known, raw)
  {
    if entities != [] {
      var rest, e := entities[..|entities|-1], entities[|entities|-1];
      assert entities == rest + [e];
      EntitiesMentee(text, rest, known, raw);
      if EntityMigrates(e, known) {
        ListedMentee(e.id, EntityId(text, e), e.goals, raw);
        LastOfJoin(EntityGoals(text, rest, known), GoalListRows(e.id, EntityId(text, e), e.goals), MenteeId(raw));
      } else {
        assert EntityGoals(text, entities, known) == EntityGoals(text, rest, known);
      }
    }
  }

  /** What the goal rows write last under a mentee goal's ID is what the source says last. */
  lemma GoalRowsMentee(text: Text, s: Source, raw: string)
    requires Plain(text, s)
    ensures AmountOf(Last(GoalRows(text, s), MenteeId(raw))) == LastMentee(s, raw)
  {
    ProjectsMentee(text, s.projects, KnownUsers(s), raw);
    EntitiesMentee(text, s.entities, KnownUsers(s), raw);
    LastOfJoin(ProjectGoals(text, s.projects, KnownUsers(s)), EntityGoals(text, s.entities, KnownUsers(s)), MenteeId(raw));
  }

  /** A goal row is keyed by the ID and name it was made from, and points to that ID's initiative. */
  ghost predicate GoalShape(text: Text, row: (Uuid, Entry<GoalKey, GoalRow>)) {
    var key := row.1.kept;
    '|' !in key.name && exists raw: string :: row.0 == Named("goal", Joined(raw, key.name)) && AsUuid(text, raw) == Some(key.initiative)
  }

  ghost predicate GoalShapes(text: Text, rows: Rows<GoalKey, GoalRow>) {
    forall i :: 0 <= i < |rows| ==> GoalShape(text, rows[i])
  }

  lemma {:induction false} BudgetShapes(text: Text, rawId: string, id: Uuid, budgets: seq<Goal>)
    requires AsUuid(text, rawId) == Some(id) && PlainGoals(budgets, true)
    ensures GoalShapes(text, BudgetRows(rawId, id, budgets))
  {
    if budgets != [] {
      BudgetShapes(text, rawId, id, budgets[..|budgets|-1]);
      assert GoalShape(text, GoalEntry(rawId, id, budgets[|budgets|-1]));
    }
  }

  lemma {:induction false} ListShapes(text: Text, rawId: string, id: Uuid, goals: seq<Goal>)
    requires AsUuid(text, rawId) == Some(id) && PlainGoals(goals, true)
    ensures GoalShapes(text, GoalListRows(rawId, id, goals))
  {
    if goals != [] {
      ListShapes(text, rawId, id, goals[..|goals|-1]);
      assert GoalShape(text, GoalEntry(rawId, id, goals[|goals|-1]));
    }
  }

  lemma {:induction false} ProjectShapes(text: Text, projects: seq<Project>, known: set<string>)
    requires forall p :: p in projects && p.id != "" ==> AsUuid(text, p.id).Some? && PlainGoals(p.budgets, false)
    ensures GoalShapes(text, ProjectGoals(text, projects, known))
  {
    if projects != [] {
      var rest, p := projects[..|projects|-1], projects[|projects|-1];
      assert projects == rest + [p];
      ProjectShapes(text, rest, known);
      if ProjectMigrates(p, known) {
        BudgetShapes(text, p.id, ProjectId(text, p), p.budgets);
        if p.mentee.Some? { BudgetShapes(text, p.id, ProjectId(text, p), [p.mentee.value.(name := "mentee")]); }
        assert GoalShapes(text, GoalsOf(text, p));
      }
    }
  }

  lemma {:induction false} EntityShapes(text: Text, entities: seq<Entity>, known: set<string>)
    requires forall e :: e in entities && e.id != "" ==> AsUuid(text, e.id).Some? && PlainGoals(e.goals, true)
    ensures GoalShapes(text, EntityGoals(text, entities, known))
  {
    if entities != [] {
      var rest, e := entities[..|entities|-1], entities[|entities|-1];
      assert entities == rest + [e];
      EntityShapes(text, rest, known);
      if EntityMigrates(e, known) { ListShapes(text, e.id, EntityId(text, e), e.goals); }
    }
  }

  lemma GoalRowsShapes(text: Text, s: Source)
    requires Plain(text, s)
    ensures GoalShapes(text, GoalRows(text, s))
  {
    ProjectShapes(text, s.projects, KnownUsers(s));
    EntityShapes(text, s.entities, KnownUsers(s));
  }

  /** Goals already stored under a migrated goal's ID are that goal. */
  ghost predicate OldGoalsAgree(db: Db, rows: Rows<GoalKey, GoalRow>) {
    forall i :: 0 <= i < |rows| && rows[i].0 in db.goals ==> db.goals[rows[i].0].kept == rows[i].1.kept
  }

  /** A migrated goal's row is the goal its ID was made from. */
  lemma MigratedGoal(text: Text, db: Db, s: Source, g: Uuid) returns (raw: string)
    requires Plain(text, s) && OldGoalsAgree(db, GoalRows(text, s)) && g in Ids(GoalRows(text, s))
    ensures var now := Upserted(db.goals, GoalRows(text, s));
      && g in now && '|' !in now[g].kept.name
      && g == Named("goal", Joined(raw, now[g].kept.name)) && AsUuid(text, raw) == Some(now[g].kept.initiative)
      && Last(GoalRows(text, s), g) == Some(now[g].updated)
  {
    var rows := GoalRows(text, s);
    GoalRowsShapes(text, s);
    UpsertedAt(db.goals, rows, g);
    var i: nat;
    if g in db.goals {
      i :| 0 <= i < |rows| && rows[i].0 == g;
    } else {
      i := FirstFrom(rows, g);
    }
    assert GoalShape(text, rows[i]);
    raw :| rows[i].0 == Named("goal", Joined(raw, rows[i].1.kept.name)) && AsUuid(text, raw) == Some(rows[i].1.kept.initiative);
  }

  /** The source's last word on the mentee goal of this ID's record is a positive amount. */
  ghost predicate SourceSaysMentorship(text: Text, s: Source, raw: string, id: Uuid) {
    AsUuid(text, raw) == Some(id) && LastMentee(s, raw).Some? && LastMentee(s, raw).value > 0
  }

  /** A goal from before, which this run does not write, says so. */
  ghost predicate OldGoalSaysMentorship(text: Text, db: Db, s: Source, g: Uuid, id: Uuid) {
    g in db.goals && g !in Ids(GoalRows(text, s)) && db.goals[g].kept == GoalKey(id, "mentee") && db.goals[g].updated.amount > 0
  }

  lemma MenteeGoalIff(text: Text, db: Db, s: Source, id: Uuid)
    requires Plain(text, s) && OldGoalsAgree(db, GoalRows(text, s))
    ensures IsMentorship(Upserted(db.goals, GoalRows(text, s)), id) <==>
      (exists raw :: SourceSaysMentorship(text, s, raw, id)) || exists g :: OldGoalSaysMentorship(text, db, s, g, id)
  {
    var rows := GoalRows(text, s);
    var now := Upserted(db.goals, rows);
    if IsMentorship(now, id) {
      var g :| g in now && now[g].kept == GoalKey(id, "mentee") && now[g].updated.amount > 0;
      UpsertedAt(db.goals, rows, g);
      if g in Ids(rows) {
        var raw := MigratedGoal(text, db, s, g);
        GoalRowsMentee(text, s, raw);
        assert SourceSaysMentorship(text, s, raw, id);
      } else {
        assert OldGoalSaysMentorship(text, db, s, g, id);
      }
    }
    forall raw | SourceSaysMentorship(text, s, raw, id) ensures IsMentorship(now, id) {
      GoalRowsMentee(text, s, raw);
      var raw' := MigratedGoal(text, db, s, MenteeId(raw));
      GoalIdApart(raw', now[MenteeId(raw)].kept.name, raw);
    }
    forall g | OldGoalSaysMentorship(text, db, s, g, id) ensures IsMentorship(now, id) {
      UpsertedAt(db.goals, rows, g);
    }
  }

  /** After a run that completes a migrated initiative is a mentorship exactly when the source's last word on
      the mentee goal of its ID is a positive amount, or an old goal that the run does not
      write says so, or the record last emitted for it is of that type. */
  lemma MentorshipIff(text: Text, db: Db, s: Source, run: nat, order: seq<string>, id: Uuid)
    requires Migrated(text, db, s, run, order).done
    requires Plain(text, s) && OldGoalsAgree(db, GoalRows(text, s)) && id in Ids(InitiativeRows(text, s))
    ensures var now := Migrated(text, db, s, run, order).db.initiatives;
      id in now &&
      (now[id].updated.kind == "mentorship" <==>
        || (exists raw :: SourceSaysMentorship(text, s, raw, id))
        || (exists g :: OldGoalSaysMentorship(text, db, s, g, id))
        || Last(InitiativeRows(text, s), id).value.kind == "mentorship")
  {
    UpsertedAt(db.initiatives, InitiativeRows(text, s), id);
    MenteeGoalIff(text, db, s, id);
  }

  /** Not only projects: an event with a goal named mentee becomes a mentorship. */
  lemma EntityBecomesMentorship(run: nat)
    ensures var text := Text((s: string) => s, (s: string) => None);
      var event := Entity("e", "owner", "Summit", "summit", "event", "", "", [Goal("mentee", 100, false)]);
      var s := OneEvent(event);
      var id := Named("coerce", "e");
      var out := Migrated(text, NOTHING, s, run, ["owner"]);
      out.done && id in out.db.initiatives && out.db.initiatives[id].updated.kind == "mentorship"
  {
    var text := Text((s: string) => s, (s: string) => None);
    var event := Entity("e", "owner", "Summit", "summit", "event", "", "", [Goal("mentee", 100, false)]);
    var s := OneEvent(event);
    var id := Named("coerce", "e");
    assert event in s.entities && event.owner in KnownUsers(s);
    EntityHasRow(text, s.entities, KnownUsers(s), event);
    IdsJoin(ProjectRows(text, s.projects, KnownUsers(s)), EntityRows(text, s.entities, KnownUsers(s)));
    assert MenteeIn(event.goals) == Some(100);
    assert SourceSaysMentorship(text, s, "e", id);
    OneEventCompletes(text, event, run);
    MentorshipIff(text, NOTHING, s, run, ["owner"], id);
  }

  function OneEvent(event: Entity): Source {
    Source([], [], [], [event], [], [], [], [])
  }

  lemma OneEventCompletes(text: Text, event: Entity, run: nat)
    requires event.owner != "" && event.id != "" && |event.goals| == 1
    ensures Migrated(text, NOTHING, OneEvent(event), run, [event.owner]).done
    ensures PlaceholderOrder([event.owner], OneEvent(event))
  {
    var s := OneEvent(event);
    OneOwner(event);
    OneEntityRows(text, event, KnownUsers(s));
    OneRowFits(InitiativeRows(text, s), GoalRows(text, s));
    CompletesOnNothing(text, s, run, [event.owner]);
  }

  lemma OneOwner(event: Entity)
    requires event.owner != ""
    ensures var s := OneEvent(event);
      KnownUsers(s) == {event.owner} && PlaceholderOrder([event.owner], s)
  {
    var s := OneEvent(event);
    assert event in s.entities;
    assert Referenced(s) == {event.owner};
  }

  lemma OneRowFits(rows: Rows<string, InitiativeRow>, goals: Rows<GoalKey, GoalRow>)
    requires |rows| == 1 && |goals| == 1
    ensures WritesFit(map[], rows, SlugsOf) && InsertsFit(map[], goals)
  {
    assert rows[..0] == [] && goals[..0] == [];
  }

  lemma OneEntityRows(text: Text, e: Entity, known: set<string>)
    requires EntityMigrates(e, known) && |e.goals| == 1
    ensures EntityRows(text, [e], known) == [EntityEntry(text, e)]
    ensures EntityGoals(text, [e], known) == [GoalEntry(e.id, EntityId(text, e), e.goals[0])]
  {
    assert [e][..0] == [] && e.goals[..0] == [];
    assert EntityRows(text, [e][..0], known) == [] && EntityGoals(text, [e][..0], known) == [];
    assert GoalListRows(e.id, EntityId(text, e), e.goals[..0]) == [];
  }
}
