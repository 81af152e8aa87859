/**
 * `insert_mcp3`: the service log and feedback database. Users first, then
 * activity rows and feedback rows whose user is drawn from the users.
 */
module Service {
  import opened Wrappers
  import opened Sampling
  import opened Schema
  import opened Store
  import opened Seeding

  const Tables: seq<TableName> := [Users, UserActivity, Feedback]
  const Channels: seq<string> := ["검색", "SNS", "광고", "지인추천"]
  const ActivityTypes: seq<string> := ["로그인", "검색", "상품조회", "결제"]
  const Categories: seq<string> := ["배송", "제품", "가격", "서비스"]
  const Sentiments: seq<string> := ["positive", "neutral", "negative"]

  /** NUM_USERS, NUM_ACTIVITIES and NUM_FEEDBACKS. */
  datatype Config = Config(numUsers: nat, numActivities: nat, numFeedbacks: nat)

  const DefaultConfig := Config(800, 3000, 500)

  datatype UserDraw = UserDraw(name: string, signupDate: Day, channel: nat)
  datatype ActivityDraw = ActivityDraw(user: nat, activityDate: Day, activityType: nat)
  datatype FeedbackDraw = FeedbackDraw(user: nat, date: Day, rating: nat, sentiment: nat, category: nat, comments: string)

  /** The random and Faker draws of one run, by call site and loop position. */
  datatype Oracle = Oracle(
    user: nat -> UserDraw,
    activity: nat -> ActivityDraw,
    feedback: nat -> FeedbackDraw)

  function UserRow(d: UserDraw): (r: Row)
    ensures r.ServiceUser? && r.channel in Channels
  {
    ServiceUser(d.name, d.signupDate, Choice(Channels, d.channel))
  }

  function UserRows(n: nat, o: Oracle): (rows: seq<Row>)
    ensures |rows| == n
    ensures forall j :: 0 <= j < n ==> rows[j].ServiceUser? && rows[j].channel in Channels
  {
    var rows := seq(n, i requires 0 <= i => UserRow(o.user(i)));
    assert forall j :: 0 <= j < n ==> rows[j] == UserRow(o.user(j));
    rows
  }

  /** An activity: its user from the `ORDER BY RANDOM() LIMIT 1` sub-query, one of four types. */
  function ActivityRow(userIds: seq<nat>, d: ActivityDraw): (r: Row)
    ensures r.Activity? && r.userId == Pick(userIds, d.user) && r.activityType in ActivityTypes
  {
    Activity(Pick(userIds, d.user), d.activityDate, Choice(ActivityTypes, d.activityType))
  }

  function ActivityRows(userIds: seq<nat>, n: nat, o: Oracle): seq<Row>
  {
    seq(n, i requires 0 <= i => ActivityRow(userIds, o.activity(i)))
  }

  /** A feedback entry: rating `randint(1, 5)`, sentiment and category from their lists. */
  function FeedbackRow(userIds: seq<nat>, d: FeedbackDraw): (r: Row)
    ensures r.FeedbackEntry? && r.userId == Pick(userIds, d.user)
    ensures 1 <= r.rating <= 5 && r.sentiment in Sentiments && r.category in Categories
  {
    FeedbackEntry(Pick(userIds, d.user), d.date, RandInt(d.rating, 1, 5),
                  Choice(Sentiments, d.sentiment), Choice(Categories, d.category), d.comments)
  }

  function FeedbackRows(userIds: seq<nat>, n: nat, o: Oracle): seq<Row>
  {
    seq(n, i requires 0 <= i => FeedbackRow(userIds, o.feedback(i)))
  }

  // ---------------------------------------------------------------------
  // Every generated row passes the checks of its INSERT
  // ---------------------------------------------------------------------

  lemma ActivitiesFit(db: Database, n: nat, o: Oracle)
    requires UserActivity in db && Users in db
    ensures AllFit(db, UserActivity, ActivityRows(db[Users].ids, n, o))
  {
    var ids := db[Users].ids;
    forall j | 0 <= j < n
      ensures Fits(db, UserActivity, ActivityRows(ids, n, o)[j]) && UniqueKey(ActivityRows(ids, n, o)[j]).None?
    {
      var r := ActivityRows(ids, n, o)[j];
      assert r == ActivityRow(ids, o.activity(j));
      assert References(r) == [ForeignKey(Users, r.userId)];
      assert RefOk(db, References(r)[0]);
    }
  }

  lemma FeedbackFits(db: Database, n: nat, o: Oracle)
    requires Feedback in db && Users in db
    ensures AllFit(db, Feedback, FeedbackRows(db[Users].ids, n, o))
  {
    var ids := db[Users].ids;
    forall j | 0 <= j < n
      ensures Fits(db, Feedback, FeedbackRows(ids, n, o)[j]) && UniqueKey(FeedbackRows(ids, n, o)[j]).None?
    {
      var r := FeedbackRows(ids, n, o)[j];
      assert r == FeedbackRow(ids, o.feedback(j));
      assert References(r) == [ForeignKey(Users, r.userId)];
      assert RefOk(db, References(r)[0]);
    }
  }

  // ---------------------------------------------------------------------
  // The committed state of a seeding run
  // ---------------------------------------------------------------------

  /** The three tables of the domain exist. */
  predicate HasTables(db: Database)
  {
    Users in db && UserActivity in db && Feedback in db
  }

  /** Users after the run: the rows of the user loop appended. */
  function SeededUsers(db: Database, cfg: Config, o: Oracle): Table
    requires Users in db
  {
    AppendAll(db[Users], UserRows(cfg.numUsers, o))
  }

  /** UserActivity after the run: each row drawing its user from the users after the user loop. */
  function SeededActivities(db: Database, cfg: Config, o: Oracle): Table
    requires Users in db && UserActivity in db
  {
    AppendAll(db[UserActivity], ActivityRows(SeededUsers(db, cfg, o).ids, cfg.numActivities, o))
  }

  /** Feedback after the run: likewise. */
  function SeededFeedback(db: Database, cfg: Config, o: Oracle): Table
    requires Users in db && Feedback in db
  {
    AppendAll(db[Feedback], FeedbackRows(SeededUsers(db, cfg, o).ids, cfg.numFeedbacks, o))
  }

  /** The database `insert_mcp3` commits, from the prepared working copy. */
  function Seeded3(db: Database, cfg: Config, o: Oracle): Database
    requires HasTables(db)
  {
    db[Users := SeededUsers(db, cfg, o)]
      [UserActivity := SeededActivities(db, cfg, o)]
      [Feedback := SeededFeedback(db, cfg, o)]
  }

  // ---------------------------------------------------------------------
  // What a seeding run promises
  // ---------------------------------------------------------------------

  /**
   * On a run that found Users empty, every activity names one of the users
   * inserted by the same run (NULL only when it inserted none) and has one
   * of the four activity types.
   */
  lemma ActivitiesOfNewUsers(db: Database, cfg: Config, o: Oracle, j: nat)
    requires Users in db && UserActivity in db
    requires WellFormed(db[Users]) && |db[Users].rows| == 0 && j < cfg.numActivities
    ensures |db[UserActivity].rows| + j < |SeededActivities(db, cfg, o).rows|
    ensures SeededActivities(db, cfg, o).rows[|db[UserActivity].rows| + j].Activity?
    ensures FromRun(SeededActivities(db, cfg, o).rows[|db[UserActivity].rows| + j].userId,
                    db[Users].nextId, cfg.numUsers)
    ensures SeededActivities(db, cfg, o).rows[|db[UserActivity].rows| + j].activityType in ActivityTypes
  {
    var ids := Range(db[Users].nextId, cfg.numUsers);
    assert SeededUsers(db, cfg, o).ids == ids;
    assert |SeededActivities(db, cfg, o).rows| == |db[UserActivity].rows| + cfg.numActivities;
    assert SeededActivities(db, cfg, o).rows[|db[UserActivity].rows| + j] == ActivityRow(ids, o.activity(j));
    PickFromRun(db[Users].nextId, cfg.numUsers, o.activity(j).user);
  }

  /**
   * On a run that found Users empty, every feedback entry names one of the
   * users inserted by the same run, and its rating is between 1 and 5.
   */
  lemma FeedbackOfNewUsers(db: Database, cfg: Config, o: Oracle, j: nat)
    requires Users in db && Feedback in db
    requires WellFormed(db[Users]) && |db[Users].rows| == 0 && j < cfg.numFeedbacks
    ensures |db[Feedback].rows| + j < |SeededFeedback(db, cfg, o).rows|
    ensures SeededFeedback(db, cfg, o).rows[|db[Feedback].rows| + j].FeedbackEntry?
    ensures FromRun(SeededFeedback(db, cfg, o).rows[|db[Feedback].rows| + j].userId,
                    db[Users].nextId, cfg.numUsers)
    ensures 1 <= SeededFeedback(db, cfg, o).rows[|db[Feedback].rows| + j].rating <= 5
  {
    var ids := Range(db[Users].nextId, cfg.numUsers);
    assert SeededUsers(db, cfg, o).ids == ids;
    assert |SeededFeedback(db, cfg, o).rows| == |db[Feedback].rows| + cfg.numFeedbacks;
    assert SeededFeedback(db, cfg, o).rows[|db[Feedback].rows| + j] == FeedbackRow(ids, o.feedback(j));
    PickFromRun(db[Users].nextId, cfg.numUsers, o.feedback(j).user);
  }

  // ---------------------------------------------------------------------
  // The run
  // ---------------------------------------------------------------------

  /** The inserts of a run that found Users empty, on the open transaction. */
  method Populate(conn: Connection, cfg: Config, o: Oracle)
    requires conn.Valid() && HasTables(conn.tables)
    modifies conn
    ensures conn.Valid()
    ensures conn.tables == Seeded3(old(conn.tables), cfg, o)
  {
    ParentRowsFit(conn.tables, Users, UserRows(cfg.numUsers, o));
    conn.InsertAll(Users, UserRows(cfg.numUsers, o));
    ActivitiesFit(conn.tables, cfg.numActivities, o);
    conn.InsertAll(UserActivity, ActivityRows(conn.tables[Users].ids, cfg.numActivities, o));
    FeedbackFits(conn.tables, cfg.numFeedbacks, o);
    conn.InsertAll(Feedback, FeedbackRows(conn.tables[Users].ids, cfg.numFeedbacks, o));
  }

  /**
   * `insert_mcp3`. A populated Users table leaves the server as it was;
   * otherwise the run commits exactly `Seeded3` of the prepared tables.
   */
  method InsertMcp3(server: Server, cfg: Config, o: Oracle) returns (outcome: Outcome)
    requires server.Valid()
    modifies server
    ensures server.Valid()
    ensures outcome != RolledBack
    ensures outcome == AlreadySeeded <==> Populated(old(server.databases), "mcp3", Users)
    ensures outcome == AlreadySeeded ==> server.databases == old(server.databases)
    ensures outcome == Seeded ==>
      server.databases == old(server.databases)["mcp3" := Seeded3(Prepared(old(server.databases), "mcp3", Tables), cfg, o)]
  {
    var conn, count := Open(server, "mcp3", Tables, Users);
    if count > 0 {
      return AlreadySeeded;
    }
    Populate(conn, cfg, o);
    conn.Commit();
    WithDatabaseOverwrite(old(server.databases), "mcp3", conn.tables);
    return Seeded;
  }
}
