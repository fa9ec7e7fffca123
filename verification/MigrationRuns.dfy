/** Which runs of the migration complete, and what a second run does. */
module MigrationRuns {
  import opened Migration
  import opened MigrationRows
  import opened Options
  import opened Upserts

  /* ---- when a run completes ---- */

  predicate OwnRow(r: UserRow, uid: string) {
    r.username == Username(uid) && r.legacyId == Some(uid)
  }

  /** What is stored under a migrated user's ID is that user's row: only the script makes such
      IDs, and no statement of the service changes a username or a legacy ID. */
  ghost predicate OwnNames(t: Table<(), UserRow>) {
    forall uid :: UserId(uid) in t ==> OwnRow(t[UserId(uid)].updated, uid)
  }

  /** No two known users become one username, and no other row holds a known user's. */
  ghost predicate UsersFit(t: Table<(), UserRow>, known: set<string>) {
    && (forall u, v :: u in known && v in known && Username(u) == Username(v) ==> u == v)
    && (forall id, u :: id in t && id !in UserIds(known) && u in known ==>
          t[id].updated.username != Username(u) && t[id].updated.legacyId != Some(u))
  }

  lemma {:induction false} UserRowsOwn(users: seq<User>)
    ensures forall i :: 0 <= i < |UserRows(users)| ==> var (id, e) := UserRows(users)[i];
      id.Named? && id == UserId(id.key) && id.key in UserIDs(users) && OwnRow(e.updated, id.key)
  {
    if users != [] {
      assert users == users[..|users|-1] + [users[|users|-1]];
      UserRowsOwn(users[..|users|-1]);
    }
  }

  /** What a row under an ID is when the i-th row's turn comes. */
  lemma WrittenUser(t: Table<(), UserRow>, users: seq<User>, i: nat, other: Uuid)
    requires OwnNames(t) && i < |UserRows(users)| && Written(t, UserRows(users)[..i], other).Some?
    ensures var r := Written(t, UserRows(users)[..i], other).value;
      if other in UserIds(UserIDs(users)) then other == UserId(other.key) && OwnRow(r, other.key)
      else other in t && r == t[other].updated
  {
    var rows := UserRows(users);
    UserRowsOwn(users);
    if other in Ids(rows[..i]) {
      var j := LastFrom(rows[..i], other);
      assert rows[..i][j] == rows[j];
    }
  }

  lemma UsersFitSuffices(t: Table<(), UserRow>, users: seq<User>)
    requires OwnNames(t) && UsersFit(t, UserIDs(users))
    ensures WritesFit(t, UserRows(users), NamesOf)
  {
    var rows := UserRows(users);
    UserRowsOwn(users);
    forall i: nat | i < |rows| ensures WriteFits(t, rows[..i], rows[i], NamesOf) {
      assert OwnRow(rows[i].1.updated, rows[i].0.key);
      forall other | other != rows[i].0 && Written(t, rows[..i], other).Some?
        ensures NamesOf(Written(t, rows[..i], other).value) !! NamesOf(rows[i].1.updated)
      {
        WrittenUser(t, users, i, other);
      }
    }
  }

  lemma UserRowAt(users: seq<User>, uid: string) returns (i: nat)
    requires uid in UserIDs(users)
    ensures i < |UserRows(users)| && UserRows(users)[i].0 == UserId(uid) && OwnRow(UserRows(users)[i].1.updated, uid)
  {
    UserRowsIds(users);
    UserRowsOwn(users);
    assert UserId(uid) in UserIds(UserIDs(users));
    i :| 0 <= i < |UserRows(users)| && UserRows(users)[i].0 == UserId(uid);
  }

  lemma UsersFitNeeded(t: Table<(), UserRow>, users: seq<User>)
    requires WritesFit(t, UserRows(users), NamesOf)
    ensures UsersFit(t, UserIDs(users))
  {
    var rows, known := UserRows(users), UserIDs(users);
    UserRowsIds(users);
    forall u, v | u in known && v in known && Username(u) == Username(v) ensures u == v {
      var i := UserRowAt(users, u);
      var j := UserRowAt(users, v);
      if i < j { NamesApart(t, users, i, j, u, v); }
      if j < i { NamesApart(t, users, j, i, v, u); }
    }
    forall id, u | id in t && id !in UserIds(known) && u in known
      ensures t[id].updated.username != Username(u) && t[id].updated.legacyId != Some(u)
    {
      var i := UserRowAt(users, u);
      assert id !in Ids(rows[..i]) by { assert rows == rows[..i] + rows[i..]; IdsJoin(rows[..i], rows[i..]); }
      assert WriteFits(t, rows[..i], rows[i], NamesOf);
      assert Name(Username(u)) in NamesOf(rows[i].1.updated) && Legacy(u) in NamesOf(rows[i].1.updated);
      assert NamesOf(Written(t, rows[..i], id).value) !! NamesOf(rows[i].1.updated);
    }
  }

  lemma NamesApart(t: Table<(), UserRow>, users: seq<User>, i: nat, j: nat, u: string, v: string)
    requires WritesFit(t, UserRows(users), NamesOf) && i < j < |UserRows(users)| && Username(u) == Username(v)
    requires UserRows(users)[i].0 == UserId(u)
    requires UserRows(users)[j].0 == UserId(v) && OwnRow(UserRows(users)[j].1.updated, v)
    ensures u == v
  {
    var rows := UserRows(users);
    UserRowsOwn(users);
    assert rows[..j][i].0 == UserId(u);
    var k := LastFrom(rows[..j], UserId(u));
    assert rows[..j][k] == rows[k] && OwnRow(rows[k].1.updated, u);
    assert WriteFits(t, rows[..j], rows[j], NamesOf);
    var earlier, later := NamesOf(Written(t, rows[..j], UserId(u)).value), NamesOf(rows[j].1.updated);
    assert Name(Username(u)) in earlier && Name(Username(u)) in later;
    assert u != v ==> earlier !! later;
  }

  /** A run completes exactly when no two known users become one username, no other stored user
      holds one of theirs, no initiative brings a slug or a Jobspring ID that another ID holds
      when its turn comes, and no goal is inserted for an initiative and name that another goal
      ID has. One that does not leaves what the phases before left. */
  lemma CompletesIff(text: Text, db: Db, s: Source, run: nat, order: seq<string>)
    requires Indexed(db) && OwnNames(db.users) && PlaceholderOrder(order, s)
    ensures var out := Migrated(text, db, s, run, order);
      && (out.done <==>
            && UsersFit(db.users, KnownUsers(s))
            && WritesFit(db.initiatives, InitiativeRows(text, s), SlugsOf)
            && InsertsFit(db.goals, GoalRows(text, s)))
      && (!out.done ==> out.db == db.(users := out.db.users, orgs := out.db.orgs))
      && (UsersFit(db.users, KnownUsers(s)) ==>
            UserIds(KnownUsers(s)) <= out.db.users.Keys && Ids(OrgRows(text, s.orgs, KnownUsers(s), run)) <= out.db.orgs.Keys)
      && (!UsersFit(db.users, KnownUsers(s)) ==> out.db == db)
  {
    UsersCompleteIff(db.users, s, order);
    TablesKeys(text, db, s, run, order);
    ExecutedWritesIff(db.initiatives, InitiativeRows(text, s), InitiativeKeys, SlugsOf);
    ExecutedInsertsIff(db.goals, GoalRows(text, s), GoalKeys);
  }

  /** An empty database. */
  const NOTHING := Db(map[], map[], map[], map[], map[], map[])

  lemma CompletesOnNothing(text: Text, s: Source, run: nat, order: seq<string>)
    requires PlaceholderOrder(order, s) && UsersFit(map[], KnownUsers(s))
    requires WritesFit(map[], InitiativeRows(text, s), SlugsOf) && InsertsFit(map[], GoalRows(text, s))
    ensures Migrated(text, NOTHING, s, run, order).done
  {
    CompletesIff(text, NOTHING, s, run, order);
  }

  /** auth0|lewis and lewis are two users and one username: the run ends before it stores anything. */
  lemma SameNameAborts(text: Text, s: Source, run: nat, order: seq<string>)
    requires PlaceholderOrder(order, s) && "auth0|lewis" in KnownUsers(s) && "lewis" in KnownUsers(s)
    ensures Migrated(text, NOTHING, s, run, order) == Outcome(NOTHING, false)
  {
    var (u, v) := ("auth0|lewis", "lewis");
    assert Username(u) == v && Username(v) == v && |u| != |v|;
    CompletesIff(text, NOTHING, s, run, order);
  }

  /** So does a run when another row holds the username, as after a first sign-in to the new
      service, which stores the name under an ID of its own. */
  lemma NameTakenAborts(text: Text, db: Db, s: Source, run: nat, order: seq<string>, id: Uuid, u: string)
    requires Indexed(db) && OwnNames(db.users) && PlaceholderOrder(order, s) && u in KnownUsers(s)
    requires id in db.users && id !in UserIds(KnownUsers(s)) && db.users[id].updated.username == Username(u)
    ensures Migrated(text, db, s, run, order) == Outcome(db, false)
  {
    NameTaken(db.users, KnownUsers(s), id, u);
    CompletesIff(text, db, s, run, order);
  }

  lemma NameTaken(t: Table<(), UserRow>, known: set<string>, id: Uuid, u: string)
    requires u in known && id in t && id !in UserIds(known) && t[id].updated.username == Username(u)
    ensures !UsersFit(t, known)
  {
  }

  /** The service replaces an initiative's goals by deleting them and inserting them under new
      IDs. A run after it has done so to a goal that the first run inserted does not complete,
      though nothing in the source has changed. */
  lemma ReplacedGoalAborts(text: Text, db: Db, s: Source, run: nat, order: seq<string>, run': nat, order': seq<string>,
                           goal: Uuid, newId: Uuid)
    requires Indexed(db) && OwnNames(db.users) && PlaceholderOrder(order, s) && PlaceholderOrder(order', s)
    requires Migrated(text, db, s, run, order).done
    requires goal in Ids(GoalRows(text, s)) && goal !in db.goals
    requires newId !in Migrated(text, db, s, run, order).db.goals && newId !in Ids(GoalRows(text, s))
    ensures var once := Migrated(text, db, s, run, order).db;
      goal in once.goals &&
      var edited := once.(goals := (once.goals - {goal})[newId := once.goals[goal]]);
      !Migrated(text, edited, s, run', order').done
  {
    var once := Migrated(text, db, s, run, order).db;
    ExecutedIsUpserted(db.goals, GoalRows(text, s), GoalKeys);
    UpsertedAt(db.goals, GoalRows(text, s), goal);
    ReplacedGoalClashes(db.goals, GoalRows(text, s), goal, newId);
  }

  lemma ReplacedGoalClashes(t: Table<GoalKey, GoalRow>, rows: Rows<GoalKey, GoalRow>, goal: Uuid, newId: Uuid)
    requires goal in Ids(rows) && goal !in t && goal in Upserted(t, rows)
    requires newId !in Upserted(t, rows) && newId !in Ids(rows) && Unique(Upserted(t, rows), GoalKeys)
    ensures var once := Upserted(t, rows);
      Executed((once - {goal})[newId := once[goal]], rows, GoalKeys).None?
  {
    var once := Upserted(t, rows);
    var edited := (once - {goal})[newId := once[goal]];
    UpsertedAt(t, rows, goal);
    ReplacedStaysUnique(once, goal, newId);
    var i := FirstFrom(rows, goal);
    assert Kept(edited, rows[..i], newId) == Some(rows[i].1.kept);
    assert !InsertFits(edited, rows[..i], rows[i]);
    ExecutedInsertsIff(edited, rows, GoalKeys);
  }

  lemma ReplacedStaysUnique(t: Table<GoalKey, GoalRow>, goal: Uuid, newId: Uuid)
    requires Unique(t, GoalKeys) && goal in t && newId !in t
    ensures Unique((t - {goal})[newId := t[goal]], GoalKeys)
  {
    var now := (t - {goal})[newId := t[goal]];
    forall id, other | id in now && other in now && other != id ensures GoalKeys(now[other]) !! GoalKeys(now[id]) {
      var was, otherWas := if id == newId then goal else id, if other == newId then goal else other;
      assert Fits(t, was, t[was], GoalKeys);
      assert GoalKeys(t[otherWas]) !! GoalKeys(t[was]);
    }
  }

  lemma UsersCompleteIff(t: Table<(), UserRow>, s: Source, order: seq<string>)
    requires OwnNames(t) && PlaceholderOrder(order, s)
    ensures Executed(t, AllUserRows(s, order), UserKeys).Some? <==> UsersFit(t, KnownUsers(s))
  {
    var users := s.users + Placeholders(order);
    AllUsersKnown(s, order);
    ExecutedWritesIff(t, UserRows(users), UserKeys, NamesOf);
    if UsersFit(t, KnownUsers(s)) { UsersFitSuffices(t, users); }
    if WritesFit(t, UserRows(users), NamesOf) { UsersFitNeeded(t, users); }
  }

  /* ---- a second run ---- */

  lemma {:induction false} OrgRowsRandom(text: Text, orgs: seq<Org>, known: set<string>, run: nat, id: Uuid)
    requires id.Random?
    ensures id in Ids(OrgRows(text, orgs, known, run)) <==>
      id.run == run && id.n < |orgs| && orgs[id.n].owner in known && AsUuid(text, orgs[id.n].id).None?
  {
    if orgs != [] {
      var n := |orgs| - 1;
      OrgRowsRandom(text, orgs[..n], known, run, id);
      OrgRowsStep(text, orgs, known, run);
    }
  }

  lemma OrgRowsStep(text: Text, orgs: seq<Org>, known: set<string>, run: nat)
    requires orgs != []
    ensures var n := |orgs| - 1;
      Ids(OrgRows(text, orgs, known, run)) ==
      Ids(OrgRows(text, orgs[..n], known, run)) + if orgs[n].owner in known then {OrgId(text, orgs[n].id, run, n)} else {}
  {
    var n := |orgs| - 1;
    var rest := OrgRows(text, orgs[..n], known, run);
    var row := (OrgId(text, orgs[n].id, run, n), Entry((), OrgRow(UserId(orgs[n].owner), orgs[n].data)));
    if orgs[n].owner in known {
      IdsAppend(rest, row);
      assert OrgRows(text, orgs, known, run) == rest + [row];
    } else {
      assert OrgRows(text, orgs, known, run) == rest;
    }
  }

  lemma {:induction false} OrgRowsSettled(text: Text, orgs: seq<Org>, known: set<string>, run: nat, run': nat, id: Uuid)
    requires !id.Random?
    ensures id in Ids(OrgRows(text, orgs, known, run)) <==> id in Ids(OrgRows(text, orgs, known, run'))
  {
    if orgs != [] {
      OrgRowsSettled(text, orgs[..|orgs|-1], known, run, run', id);
      OrgRowsStep(text, orgs, known, run);
      OrgRowsStep(text, orgs, known, run');
    }
  }

  lemma {:induction false} OrgRowsSame(text: Text, orgs: seq<Org>, known: set<string>, run: nat, run': nat)
    requires forall o :: o in orgs && o.owner in known ==> AsUuid(text, o.id).Some?
    ensures OrgRows(text, orgs, known, run) == OrgRows(text, orgs, known, run')
  {
    if orgs != [] {
      assert orgs == orgs[..|orgs|-1] + [orgs[|orgs|-1]];
      OrgRowsSame(text, orgs[..|orgs|-1], known, run, run');
    }
  }

  lemma {:induction false} PledgeRowsSame(text: Text, scope: string, pledges: seq<Pledge>, known: set<string>,
                                          initiatives: set<Uuid>, orgs: set<Uuid>, orgs': set<Uuid>)
    requires forall id: Uuid :: !id.Random? ==> (id in orgs <==> id in orgs')
    ensures PledgeRows(text, scope, pledges, known, initiatives, orgs) ==
            PledgeRows(text, scope, pledges, known, initiatives, orgs')
  {
    if pledges != [] { PledgeRowsSame(text, scope, pledges[..|pledges|-1], known, initiatives, orgs, orgs'); }
  }

  lemma RowsOfAnyRun(text: Text, s: Source, run: nat, run': nat)
    ensures DonationRows(text, s, run) == DonationRows(text, s, run')
    ensures SubscriptionRows(text, s, run) == SubscriptionRows(text, s, run')
  {
    var known, initiatives := KnownUsers(s), Ids(InitiativeRows(text, s));
    var orgs, orgs' := Ids(OrgRows(text, s.orgs, known, run)), Ids(OrgRows(text, s.orgs, known, run'));
    forall id: Uuid | !id.Random? ensures id in orgs <==> id in orgs' {
      OrgRowsSettled(text, s.orgs, known, run, run', id);
    }
    PledgeRowsSame(text, "proj_donation", s.projectDonations, known, initiatives, orgs, orgs');
    PledgeRowsSame(text, "entity_donation", s.entityDonations, known, initiatives, orgs, orgs');
    PledgeRowsSame(text, "proj_subscription", s.projectSubs, known, initiatives, orgs, orgs');
    PledgeRowsSame(text, "entity_subscription", s.entitySubs, known, initiatives, orgs, orgs');
  }

  lemma {:induction false} UserRowsJoin(a: seq<User>, b: seq<User>)
    ensures UserRows(a + b) == UserRows(a) + UserRows(b)
  {
    if b == [] {
      assert a + b == a && UserRows(a) + UserRows(b) == UserRows(a);
    } else {
      assert (a + b)[..|a+b|-1] == a + b[..|b|-1];
      UserRowsJoin(a, b[..|b|-1]);
    }
  }

  lemma {:induction false} UserRowsBlank(users: seq<User>)
    requires forall u :: u in users ==> u.data == ""
    ensures forall i :: 0 <= i < |UserRows(users)| ==> UserRows(users)[i].1.updated.data == ""
  {
    if users != [] {
      assert users == users[..|users|-1] + [users[|users|-1]];
      UserRowsBlank(users[..|users|-1]);
    }
  }

  /** What a run writes last for a user: its own columns, or a placeholder's. */
  lemma LastUser(s: Source, order: seq<string>, id: Uuid)
    requires PlaceholderOrder(order, s)
    ensures Last(AllUserRows(s, order), id) ==
      if id in UserIds(Referenced(s) - UserIDs(s.users) - {""}) then Some(UserRow(Some(id.key), Username(id.key), ""))
      else Last(UserRows(s.users), id)
  {
    var more := Placeholders(order);
    UserRowsJoin(s.users, more);
    UserRowsIds(more);
    UserRowsOwn(more);
    UserRowsBlank(more);
    PlaceholdersAre(s, order);
    LastOfJoin(UserRows(s.users), UserRows(more), id);
    if id in Ids(UserRows(more)) { var i := LastFrom(UserRows(more), id); }
  }

  /** In whatever order the placeholders come, the users are the same. */
  lemma OrdersAgree(t: Table<(), UserRow>, s: Source, order: seq<string>, order': seq<string>)
    requires PlaceholderOrder(order, s) && PlaceholderOrder(order', s)
    ensures Upserted(t, AllUserRows(s, order)) == Upserted(t, AllUserRows(s, order'))
  {
    var now, now' := Upserted(t, AllUserRows(s, order)), Upserted(t, AllUserRows(s, order'));
    forall id ensures (id in now <==> id in now') && (id in now ==> now[id] == now'[id]) {
      UpsertedAt(t, AllUserRows(s, order), id);
      UpsertedAt(t, AllUserRows(s, order'), id);
      LastUser(s, order, id);
      LastUser(s, order', id);
      if id in now && id in now' {
        var k, k' := now[id].kept, now'[id].kept;
        assert k == k';
      }
    }
  }

  lemma InitiativesTwice(t: Table<string, InitiativeRow>, rows: Rows<string, InitiativeRow>, goals: Table<GoalKey, GoalRow>)
    ensures var once := Reclassified(Upserted(t, rows), goals);
      Reclassified(Upserted(once, rows), goals) == once
  {
    var once := Reclassified(Upserted(t, rows), goals);
    var twice := Reclassified(Upserted(once, rows), goals);
    forall id ensures (id in twice <==> id in once) && (id in once ==> twice[id] == once[id]) {
      UpsertedAt(t, rows, id);
      UpsertedAt(once, rows, id);
    }
  }

  /** After a run that completes, the users of the source fit, and so do its goals. */
  lemma OnceFits(text: Text, db: Db, s: Source, run: nat, order: seq<string>)
    requires Indexed(db) && OwnNames(db.users) && PlaceholderOrder(order, s) && Migrated(text, db, s, run, order).done
    ensures var once := Migrated(text, db, s, run, order).db;
      && Indexed(once) && OwnNames(once.users)
      && UsersFit(once.users, KnownUsers(s)) && InsertsFit(once.goals, GoalRows(text, s))
  {
    var once := Tables(text, db, s, run, order);
    CompletesIff(text, db, s, run, order);
    ExecutedIsUpserted(db.users, AllUserRows(s, order), UserKeys);
    ExecutedIsUpserted(db.goals, GoalRows(text, s), GoalKeys);
    ExecutedIsUpserted(db.initiatives, InitiativeRows(text, s), InitiativeKeys);
    UpsertedKeys(db.goals, GoalRows(text, s));
    StoredInsertsFit(once.goals, GoalRows(text, s));
    ReclassifiedKeepsSlugs(Upserted(db.initiatives, InitiativeRows(text, s)), once.goals);
    UsersAfter(db.users, s, order);
  }

  lemma ReclassifiedKeepsSlugs(t: Table<string, InitiativeRow>, goals: Table<GoalKey, GoalRow>)
    requires Unique(t, InitiativeKeys)
    ensures Unique(Reclassified(t, goals), InitiativeKeys)
  {
    var now := Reclassified(t, goals);
    forall id | id in now ensures Fits(now, id, now[id], InitiativeKeys) {
      assert Fits(t, id, t[id], InitiativeKeys);
      forall other | other in now && other != id ensures InitiativeKeys(now[other]) !! InitiativeKeys(now[id]) {
        assert InitiativeKeys(now[other]) == InitiativeKeys(t[other]) && InitiativeKeys(now[id]) == InitiativeKeys(t[id]);
      }
    }
  }

  lemma UsersAfter(t: Table<(), UserRow>, s: Source, order: seq<string>)
    requires OwnNames(t) && UsersFit(t, KnownUsers(s)) && PlaceholderOrder(order, s)
    ensures OwnNames(Upserted(t, AllUserRows(s, order))) && UsersFit(Upserted(t, AllUserRows(s, order)), KnownUsers(s))
  {
    AllUsersKnown(s, order);
    OwnNamesStay(t, s.users + Placeholders(order));
    OthersStay(t, s.users + Placeholders(order));
  }

  lemma OwnNamesStay(t: Table<(), UserRow>, users: seq<User>)
    requires OwnNames(t)
    ensures OwnNames(Upserted(t, UserRows(users)))
  {
    var rows := UserRows(users);
    UserRowsOwn(users);
    forall uid | UserId(uid) in Upserted(t, rows) ensures OwnRow(Upserted(t, rows)[UserId(uid)].updated, uid) {
      UpsertedAt(t, rows, UserId(uid));
      if UserId(uid) in Ids(rows) { var i := LastFrom(rows, UserId(uid)); }
    }
  }

  lemma OthersStay(t: Table<(), UserRow>, users: seq<User>)
    requires UsersFit(t, UserIDs(users))
    ensures UsersFit(Upserted(t, UserRows(users)), UserIDs(users))
  {
    var rows := UserRows(users);
    UserRowsIds(users);
    forall id | id in Upserted(t, rows) && id !in Ids(rows) ensures id in t && Upserted(t, rows)[id] == t[id] {
      UpsertedAt(t, rows, id);
    }
    UsersFitStays(t, Upserted(t, rows), UserIDs(users));
  }

  lemma UsersFitStays(t: Table<(), UserRow>, now: Table<(), UserRow>, known: set<string>)
    requires UsersFit(t, known)
    requires forall id :: id in now && id !in UserIds(known) ==> id in t && now[id] == t[id]
    ensures UsersFit(now, known)
  {
  }

  /** All the rows of an ID bring the same slug and Jobspring ID. */
  ghost predicate OneSlugPerId(rows: Rows<string, InitiativeRow>) {
    forall i, j :: 0 <= i < |rows| && 0 <= j < |rows| && rows[i].0 == rows[j].0 ==>
      SlugsOf(rows[i].1.updated) == SlugsOf(rows[j].1.updated)
  }

  lemma SlugsStored(t: Table<string, InitiativeRow>, rows: Rows<string, InitiativeRow>, goals: Table<GoalKey, GoalRow>)
    requires OneSlugPerId(rows) && Unique(Reclassified(Upserted(t, rows), goals), InitiativeKeys)
    ensures WritesFit(Reclassified(Upserted(t, rows), goals), rows, SlugsOf)
  {
    var now := Reclassified(Upserted(t, rows), goals);
    forall i | 0 <= i < |rows| ensures rows[i].0 in now && SlugsOf(now[rows[i].0].updated) == SlugsOf(rows[i].1.updated) {
      assert rows[i].0 in Ids(rows);
      UpsertedAt(t, rows, rows[i].0);
      var j := LastFrom(rows, rows[i].0);
    }
    StoredWritesFit(now, rows, InitiativeKeys, SlugsOf);
  }

  /** A second run on the same source, after one that completed, changes no table but the
      organizations, whatever was in them before; and it changes those exactly when one that is
      migrated has no ID, since such a one gets a new UUID in every run. It completes exactly
      when no initiative brings a slug or a Jobspring ID that another now holds, and so whenever
      all the rows of an initiative bring the same. */
  lemma SecondRun(text: Text, db: Db, s: Source, run: nat, order: seq<string>, run': nat, order': seq<string>)
    requires Indexed(db) && OwnNames(db.users) && PlaceholderOrder(order, s) && PlaceholderOrder(order', s)
    requires run' != run && forall n :: Random(run', n) !in db.orgs
    requires Migrated(text, db, s, run, order).done
    ensures var once := Migrated(text, db, s, run, order).db;
      var twice := Migrated(text, once, s, run', order');
      && twice.db.(orgs := once.orgs) == once
      && (twice.db.orgs == once.orgs <==> forall o :: o in s.orgs && o.owner != "" ==> AsUuid(text, o.id).Some?)
      && (twice.done <==> WritesFit(once.initiatives, InitiativeRows(text, s), SlugsOf))
      && (OneSlugPerId(InitiativeRows(text, s)) ==> twice.done)
  {
    var once := Migrated(text, db, s, run, order).db;
    OnceFits(text, db, s, run, order);
    CompletesAgainIff(text, once, s, run', order');
    TablesTwice(text, db, s, run, order, run', order');
    SameButOrgs(once, Tables(text, once, s, run', order'), Migrated(text, once, s, run', order'));
    if OneSlugPerId(InitiativeRows(text, s)) { SlugsStored(db.initiatives, InitiativeRows(text, s), once.goals); }
  }

  lemma SameButOrgs(once: Db, all: Db, twice: Outcome)
    requires all.(orgs := once.orgs) == once
    requires twice.db == if twice.done then all else once.(users := all.users, orgs := all.orgs)
    ensures twice.db.(orgs := once.orgs) == once && twice.db.orgs == all.orgs
  {
  }

  lemma CompletesAgainIff(text: Text, db: Db, s: Source, run: nat, order: seq<string>)
    requires Indexed(db) && OwnNames(db.users) && PlaceholderOrder(order, s)
    requires UsersFit(db.users, KnownUsers(s)) && InsertsFit(db.goals, GoalRows(text, s))
    ensures var out, all := Migrated(text, db, s, run, order), Tables(text, db, s, run, order);
      && (out.done <==> WritesFit(db.initiatives, InitiativeRows(text, s), SlugsOf))
      && out.db == if out.done then all else db.(users := all.users, orgs := all.orgs)
  {
    CompletesIff(text, db, s, run, order);
    UsersCompleteIff(db.users, s, order);
  }

  lemma TablesTwice(text: Text, db: Db, s: Source, run: nat, order: seq<string>, run': nat, order': seq<string>)
    requires PlaceholderOrder(order, s) && PlaceholderOrder(order', s)
    requires run' != run && forall n :: Random(run', n) !in db.orgs
    ensures var once := Tables(text, db, s, run, order);
      var twice := Tables(text, once, s, run', order');
      && twice.(orgs := once.orgs) == once
      && (twice.orgs == once.orgs <==> forall o :: o in s.orgs && o.owner != "" ==> AsUuid(text, o.id).Some?)
  {
    var once := Tables(text, db, s, run, order);
    RowsOfAnyRun(text, s, run, run');
    OrdersAgree(once.users, s, order, order');
    UpsertTwice(db.users, AllUserRows(s, order));
    UpsertTwice(db.goals, GoalRows(text, s));
    InitiativesTwice(db.initiatives, InitiativeRows(text, s), Upserted(db.goals, GoalRows(text, s)));
    UpsertTwice(db.donations, DonationRows(text, s, run));
    UpsertTwice(db.subscriptions, SubscriptionRows(text, s, run));
    OrgsTwiceIff(text, db.orgs, s, run, run');
  }

  lemma OrgsTwiceIff(text: Text, t: Table<(), OrgRow>, s: Source, run: nat, run': nat)
    requires run' != run && forall n :: Random(run', n) !in t
    ensures var known := KnownUsers(s);
      var once := Upserted(t, OrgRows(text, s.orgs, known, run));
      Upserted(once, OrgRows(text, s.orgs, known, run')) == once <==>
        forall o :: o in s.orgs && o.owner != "" ==> AsUuid(text, o.id).Some?
  {
    var known := KnownUsers(s);
    var rows, rows' := OrgRows(text, s.orgs, known, run), OrgRows(text, s.orgs, known, run');
    if forall o :: o in s.orgs && o.owner != "" ==> AsUuid(text, o.id).Some? {
      OrgRowsSame(text, s.orgs, known, run, run');
      UpsertTwice(t, rows);
    } else {
      var o :| o in s.orgs && o.owner != "" && AsUuid(text, o.id).None?;
      var n :| 0 <= n < |s.orgs| && s.orgs[n] == o;
      var fresh' := Random(run', n);
      OrgRowsRandom(text, s.orgs, known, run, fresh');
      OrgRowsRandom(text, s.orgs, known, run', fresh');
      UpsertedAt(t, rows, fresh');
      UpsertedAt(Upserted(t, rows), rows', fresh');
    }
  }

  /** It may not complete when they do not: here a project and an entity share an ID, and
      another entity has taken the slug that the project brings and the entity replaces. */
  lemma SecondRunMayAbort(run: nat, run': nat)
    requires run != run'
    ensures var text := Text((s: string) => s, (s: string) => None);
      var s := SharedId();
      var once := Migrated(text, NOTHING, s, run, ["o"]);
      once.done && !Migrated(text, once.db, s, run', ["o"]).done
  {
    var text := Text((s: string) => s, (s: string) => None);
    var s := SharedId();
    SharedIdCompletes(text, run);
    SecondRun(text, NOTHING, s, run, ["o"], run', ["o"]);
    SlugTaken(text, Upserted(NOTHING.goals, GoalRows(text, s)));
  }

  lemma SharedIdCompletes(text: Text, run: nat)
    requires text == Text((s: string) => s, (s: string) => None)
    ensures PlaceholderOrder(["o"], SharedId()) && Migrated(text, NOTHING, SharedId(), run, ["o"]).done
  {
    SharedIdKnown();
    SharedIdRows(text);
    ThreeRowsFit(InitiativeRows(text, SharedId()));
    CompletesOnNothing(text, SharedId(), run, ["o"]);
  }

  lemma SlugTaken(text: Text, goals: Table<GoalKey, GoalRow>)
    requires text == Text((s: string) => s, (s: string) => None)
    ensures var rows := InitiativeRows(text, SharedId());
      !WritesFit(Reclassified(Upserted(map[], rows), goals), rows, SlugsOf)
  {
    var rows := InitiativeRows(text, SharedId());
    SharedIdRows(text);
    var once := Reclassified(Upserted(map[], rows), goals);
    var b := rows[2];
    assert Last(rows, b.0) == Some(b.1.updated);
    UpsertedAt(map[], rows, b.0);
    assert Written(once, rows[..0], b.0) == Some(once[b.0].updated);
    assert Slug("x") in SlugsOf(once[b.0].updated) && Slug("x") in SlugsOf(rows[0].1.updated);
    assert !WriteFits(once, rows[..0], rows[0], SlugsOf);
  }

  function SharedId(): Source {
    Source([], [], [Project("A", "o", "", Some("x"), "", "", "", [], None)],
           [Entity("A", "o", "", "y", "event", "", "", []), Entity("B", "o", "", "x", "event", "", "", [])], [], [], [], [])
  }

  lemma SharedIdKnown()
    ensures KnownUsers(SharedId()) == {"o"} && PlaceholderOrder(["o"], SharedId())
  {
    var s := SharedId();
    assert s.projects[0] in s.projects && s.entities[0] in s.entities;
    assert Referenced(s) == {"o"};
  }

  lemma SharedIdRows(text: Text)
    requires text == Text((s: string) => s, (s: string) => None)
    ensures var s := SharedId();
      InitiativeRows(text, s) == [ProjectEntry(text, s.projects[0]), EntityEntry(text, s.entities[0]), EntityEntry(text, s.entities[1])]
    ensures GoalRows(text, SharedId()) == []
  {
    var s := SharedId();
    SharedIdKnown();
    OneProject(text, s.projects, {"o"});
    TwoEntities(text, s.entities, {"o"});
  }

  lemma OneProject(text: Text, projects: seq<Project>, known: set<string>)
    requires |projects| == 1 && ProjectMigrates(projects[0], known) && projects[0].budgets == [] && projects[0].mentee.None?
    ensures ProjectRows(text, projects, known) == [ProjectEntry(text, projects[0])] && ProjectGoals(text, projects, known) == []
  {
    assert projects[..0] == [];
  }

  lemma TwoEntities(text: Text, entities: seq<Entity>, known: set<string>)
    requires |entities| == 2 && EntityMigrates(entities[0], known) && EntityMigrates(entities[1], known)
    requires entities[0].goals == entities[1].goals == []
    ensures EntityRows(text, entities, known) == [EntityEntry(text, entities[0]), EntityEntry(text, entities[1])]
    ensures EntityGoals(text, entities, known) == []
  {
    var one := entities[..1];
    assert one == [entities[0]] && one[..0] == [];
    assert EntityRows(text, one, known) == [EntityEntry(text, entities[0])];
    assert EntityGoals(text, one, known) == [];
  }

  lemma ThreeRowsFit(rows: Rows<string, InitiativeRow>)
    requires |rows| == 3 && rows[0].0 == rows[1].0 != rows[2].0
    requires SlugsOf(rows[1].1.updated) !! SlugsOf(rows[2].1.updated)
    ensures WritesFit(map[], rows, SlugsOf)
  {
    assert rows[..2][..1] == rows[..1] == [rows[0]] && rows[..2][1] == rows[1];
  }
}
