/**
 * `insert_mcp5` as a whole: the academic records database. A run that finds
 * Students populated writes nothing. Otherwise it inserts the parent rows
 * (professors, students, courses, enrollments), then the attendance and the
 * grades, and commits. The grade loop raises on an enrollment whose student
 * is NULL; then no row is committed, and only the values the run drew from the
 * sequences of tables that already existed remain.
 */
module AcademicSeed {
  import opened Wrappers
  import opened Schema
  import opened Store
  import opened Seeding
  import opened Quota
  import opened RollCall
  import opened Grading
  import Academic

  /** All the random draws of a run. */
  datatype Oracle = Oracle(
    parents: Academic.Draws,
    rates: nat -> RateDraw,
    sessions: SessionDraws,
    grades: nat -> GradeDraw)

  /** What the server's unordered queries returned: the active scan, each student's courses, the distinct pairs. */
  datatype Trace = Trace(active: seq<Subject>, lists: seq<seq<Option<nat>>>, pairs: seq<Pair>)

  predicate HasTables(db: Database)
  {
    Students in db && Professors in db && Courses in db && Enrollments in db && Attendance in db && Grades in db
  }

  /** A working copy with all six tables intact and no student yet. */
  predicate Unseeded(db: Database)
  {
    HasTables(db) && Intact(db) && WellFormed(db[Students]) && |db[Students].rows| == 0
  }

  // ---------------------------------------------------------------------
  // The tables a run leaves
  // ---------------------------------------------------------------------

  function SeededProfessors(db: Database, cfg: Academic.Config, o: Oracle): Table
    requires HasTables(db)
  {
    AppendAll(db[Professors], Academic.ProfessorRows(cfg.numProfessors, o.parents))
  }

  function SeededStudents(db: Database, cfg: Academic.Config, o: Oracle): (t: Table)
    requires HasTables(db)
    ensures |t.rows| == |db[Students].rows| + cfg.numStudents
    ensures |db[Students].ids| == |db[Students].rows| ==> |t.ids| == |t.rows|
  {
    AppendAll(db[Students], Academic.StudentRows(cfg, o.parents))
  }

  /** Courses after the run: professors drawn from the professors after the professor loop. */
  function SeededCourses(db: Database, cfg: Academic.Config, o: Oracle): Table
    requires HasTables(db)
  {
    AppendAll(db[Courses], Academic.CourseRows(SeededProfessors(db, cfg, o).ids, cfg.numCourses, o.parents))
  }

  /** Enrollments after the run: students and courses drawn from those in place after their loops. */
  function SeededEnrollments(db: Database, cfg: Academic.Config, o: Oracle): Table
    requires HasTables(db)
  {
    AppendAll(db[Enrollments],
      Academic.EnrollmentRows(SeededStudents(db, cfg, o).ids, SeededCourses(db, cfg, o).ids, cfg.numEnrollments, o.parents))
  }

  /** The working copy once the four parent loops have run. */
  function Parents(db: Database, cfg: Academic.Config, o: Oracle): (p: Database)
    requires HasTables(db)
    ensures HasTables(p)
  {
    db[Professors := SeededProfessors(db, cfg, o)]
      [Students := SeededStudents(db, cfg, o)]
      [Courses := SeededCourses(db, cfg, o)]
      [Enrollments := SeededEnrollments(db, cfg, o)]
  }

  /** The scans a run may see: what `SELECT` could return on the parent tables, in some order. */
  ghost predicate TraceOf(db: Database, cfg: Academic.Config, o: Oracle, tr: Trace)
    requires HasTables(db) && |db[Students].ids| == |db[Students].rows|
  {
    && ScanOf(tr.active, tr.lists, SeededStudents(db, cfg, o), SeededEnrollments(db, cfg, o).rows)
    && Distinct(tr.pairs)
    && (forall p :: p in tr.pairs <==> p in PairsOf(SeededEnrollments(db, cfg, o).rows))
  }

  function SeededAttendance(db: Database, o: Oracle, tr: Trace): Table
    requires HasTables(db) && |tr.lists| == |tr.active|
  {
    AppendAll(db[Attendance], Log(tr.active, tr.lists, Rates(tr.active, o.rates), o.sessions))
  }

  function SeededGrades(db: Database, cfg: Academic.Config, o: Oracle, tr: Trace): Table
    requires HasTables(db) && |db[Students].ids| == |db[Students].rows|
    requires Graded(SeededStudents(db, cfg, o), tr.pairs)
  {
    AppendAll(db[Grades], GradeRows(SeededStudents(db, cfg, o), tr.pairs, o.grades))
  }

  /** The database `insert_mcp5` commits, given what its scans returned. */
  function Seeded5(db: Database, cfg: Academic.Config, o: Oracle, tr: Trace): Database
    requires HasTables(db) && |db[Students].ids| == |db[Students].rows| && |tr.lists| == |tr.active|
    requires Graded(SeededStudents(db, cfg, o), tr.pairs)
  {
    Parents(db, cfg, o)[Attendance := SeededAttendance(db, o, tr)][Grades := SeededGrades(db, cfg, o, tr)]
  }

  /**
   * The working copy when the grade loop raises: the parent rows, the
   * attendance, and the grades of the pairs before the one it failed on.
   */
  function Raised5(db: Database, cfg: Academic.Config, o: Oracle, tr: Trace): Database
    requires HasTables(db) && |db[Students].ids| == |db[Students].rows| && |tr.lists| == |tr.active|
  {
    var students := SeededStudents(db, cfg, o);
    Parents(db, cfg, o)[Attendance := SeededAttendance(db, o, tr)]
      [Grades := AppendAll(db[Grades], GradeRows(students, tr.pairs[..FirstUngraded(students, tr.pairs)], o.grades))]
  }

  /** Some enrollment row has a NULL student. */
  predicate NullStudent(rows: seq<Row>)
  {
    exists j :: 0 <= j < |rows| && rows[j].Enrollment? && rows[j].studentId.None?
  }

  /** The enrollment loop runs while Students has no row, so its student sub-select yields NULL. */
  predicate NoStudentToPick(db: Database, cfg: Academic.Config)
    requires HasTables(db)
  {
    |db[Students].ids| == 0 && cfg.numStudents == 0 && cfg.numEnrollments > 0
  }

  // ---------------------------------------------------------------------
  // What a seeding run promises
  // ---------------------------------------------------------------------

  /** The ids of a batch appended to a well-formed table keep it well formed. */
  lemma AppendAllWellFormed(t: Table, rows: seq<Row>)
    requires WellFormed(t)
    ensures WellFormed(AppendAll(t, rows))
  {
    var u := AppendAll(t, rows);
    forall i, j | 0 <= i < j < |u.ids|
      ensures u.ids[i] < u.ids[j]
    {
      if j >= |t.ids| {
        assert u.ids[j] == t.nextId + (j - |t.ids|);
        if i < |t.ids| {
          assert u.ids[i] == t.ids[i];
        }
      } else {
        assert u.ids[i] == t.ids[i] && u.ids[j] == t.ids[j];
      }
    }
  }

  /** With no students in place, no row of an old table is keyed by a student. */
  lemma {:induction false} NoStudentKeys(db: Database, table: TableName, rows: seq<Row>, s: nat, c: Option<nat>)
    requires Intact(db) && Students in db && |db[Students].rows| == 0 && table in db
    requires table == Attendance || table == Grades
    requires rows <= db[table].rows
    ensures CountKeyed(rows, table, Some(s), c) == 0
    decreases |rows|
  {
    if |rows| > 0 {
      var n := |rows| - 1;
      assert rows[..n] <= db[table].rows;
      NoStudentKeys(db, table, rows[..n], s, c);
      var r := rows[n];
      assert r == db[table].rows[n];
      assert TableIntact(db, table) && TableIntact(db, Students);
      if r.AttendanceRecord? || r.Grade? {
        assert References(r)[0] == ForeignKey(Students, r.studentId);
      }
    }
  }

  /**
   * Every enrollment the run inserts names a student once there is a
   * student to pick; with none, every one of them has a NULL student.
   */
  lemma RunEnrollmentsNameStudents(db: Database, cfg: Academic.Config, o: Oracle)
    requires HasTables(db)
    ensures NullStudent(SeededEnrollments(db, cfg, o).rows) <==>
      NullStudent(db[Enrollments].rows) || NoStudentToPick(db, cfg)
  {
    var sids := SeededStudents(db, cfg, o).ids;
    var cids := SeededCourses(db, cfg, o).ids;
    var added := Academic.EnrollmentRows(sids, cids, cfg.numEnrollments, o.parents);
    var before := db[Enrollments].rows;
    var all := SeededEnrollments(db, cfg, o).rows;
    assert all == before + added;
    assert |sids| == |db[Students].ids| + cfg.numStudents;
    if |sids| == 0 {
      if cfg.numEnrollments > 0 {
        assert all[|before|] == Academic.EnrollmentRow(sids, cids, o.parents.enrollment(0));
        assert all[|before|].studentId.None?;
      } else {
        assert all == before;
      }
    } else {
      forall k | |before| <= k < |all|
        ensures all[k].Enrollment? && all[k].studentId.Some?
      {
        assert all[k] == Academic.EnrollmentRow(sids, cids, o.parents.enrollment(k - |before|));
      }
      if NullStudent(all) {
        var j :| 0 <= j < |all| && all[j].Enrollment? && all[j].studentId.None?;
        assert before[j] == all[j];
      }
    }
    if NullStudent(before) {
      var j :| 0 <= j < |before| && before[j].Enrollment? && before[j].studentId.None?;
      assert all[j] == before[j];
    }
  }

  /** A pair of the scan has a NULL student exactly when an enrollment row has one. */
  lemma PairsOfNull(rows: seq<Row>)
    ensures NullStudent(rows) <==> exists c :: Pair(None, c) in PairsOf(rows)
  {
    if NullStudent(rows) {
      var j :| 0 <= j < |rows| && rows[j].Enrollment? && rows[j].studentId.None?;
      NullPairOf(rows, j);
    }
    if exists c :: Pair(None, c) in PairsOf(rows) {
      var c :| Pair(None, c) in PairsOf(rows);
      NullRowOf(rows, c);
    }
  }

  /** The enrollment row at j gives a pair of the scan. */
  lemma {:induction false} NullPairOf(rows: seq<Row>, j: nat)
    requires j < |rows| && rows[j].Enrollment?
    ensures Pair(rows[j].studentId, rows[j].courseId) in PairsOf(rows)
    decreases |rows|
  {
    var n := |rows| - 1;
    if j < n {
      assert rows[..n][j] == rows[j];
      NullPairOf(rows[..n], j);
    }
  }

  /** A pair with a NULL student comes from an enrollment row with one. */
  lemma {:induction false} NullRowOf(rows: seq<Row>, c: Option<nat>)
    requires Pair(None, c) in PairsOf(rows)
    ensures NullStudent(rows)
    decreases |rows|
  {
    var n := |rows| - 1;
    if Pair(None, c) in PairsOf(rows[..n]) {
      NullRowOf(rows[..n], c);
      var j :| 0 <= j < n && rows[..n][j].Enrollment? && rows[..n][j].studentId.None?;
      assert rows[j] == rows[..n][j];
    } else {
      assert rows[n].Enrollment? && rows[n].studentId.None?;
    }
  }

  /**
   * The grade loop of a run fails exactly when an enrollment already in
   * place had a NULL student, or the run inserted enrollments with no
   * student to pick.
   */
  lemma GradesFailOnOldNull(db: Database, cfg: Academic.Config, o: Oracle, tr: Trace)
    requires HasTables(db) && Intact(Parents(db, cfg, o)) && |db[Students].ids| == |db[Students].rows|
    requires forall p :: p in tr.pairs <==> p in PairsOf(SeededEnrollments(db, cfg, o).rows)
    ensures !Graded(SeededStudents(db, cfg, o), tr.pairs) <==>
      NullStudent(db[Enrollments].rows) || NoStudentToPick(db, cfg)
  {
    var p := Parents(db, cfg, o);
    var rows := SeededEnrollments(db, cfg, o).rows;
    assert TableIntact(p, Students);
    GradedIffNoNullStudent(p, tr.pairs);
    RunEnrollmentsNameStudents(db, cfg, o);
    PairsOfNull(rows);
    if exists i :: 0 <= i < |tr.pairs| && tr.pairs[i].student.None? {
      var i :| 0 <= i < |tr.pairs| && tr.pairs[i].student.None?;
      assert Pair(None, tr.pairs[i].course) == tr.pairs[i];
    }
  }

  /**
   * In the committed database, each enrollment of an active student in a
   * course gives exactly 15 attendance rows of that student in that course,
   * and a student who is not active has none.
   */
  lemma SessionsPerEnrollment(db: Database, cfg: Academic.Config, o: Oracle, tr: Trace, j: nat, c: Option<nat>)
    requires Unseeded(db) && TraceOf(db, cfg, o, tr)
    requires j < |SeededStudents(db, cfg, o).rows|
    ensures j < |SeededStudents(db, cfg, o).ids|
    ensures CountKeyed(SeededAttendance(db, o, tr).rows, Attendance, Some(SeededStudents(db, cfg, o).ids[j]), c)
      == if IsActive(SeededStudents(db, cfg, o).rows[j])
         then Weeks * CountKeyed(SeededEnrollments(db, cfg, o).rows, Enrollments, Some(SeededStudents(db, cfg, o).ids[j]), c)
         else 0
  {
    var students := SeededStudents(db, cfg, o);
    assert TableIntact(db, Students);
    AppendAllWellFormed(db[Students], Academic.StudentRows(cfg, o.parents));
    var sid := students.ids[j];
    var log := Log(tr.active, tr.lists, Rates(tr.active, o.rates), o.sessions);
    CountKeyedConcat(db[Attendance].rows, log, Attendance, Some(sid), c);
    NoStudentKeys(db, Attendance, db[Attendance].rows, sid, c);
    FifteenPerEnrollment(students, SeededEnrollments(db, cfg, o).rows, tr.active, tr.lists,
                         Rates(tr.active, o.rates), o.sessions, j, c);
  }

  /**
   * In the committed database, a student has exactly one grade row for a
   * course when enrolled in it, however many times, and none otherwise.
   */
  lemma GradePerEnrollment(db: Database, cfg: Academic.Config, o: Oracle, tr: Trace, s: nat, c: Option<nat>)
    requires Unseeded(db) && TraceOf(db, cfg, o, tr)
    requires Graded(SeededStudents(db, cfg, o), tr.pairs)
    ensures CountKeyed(SeededGrades(db, cfg, o, tr).rows, Grades, Some(s), c)
      == if CountKeyed(SeededEnrollments(db, cfg, o).rows, Enrollments, Some(s), c) > 0 then 1 else 0
  {
    NoStudentKeys(db, Grades, db[Grades].rows, s, c);
    GradesAfter(db[Grades].rows, SeededStudents(db, cfg, o), SeededEnrollments(db, cfg, o).rows, tr.pairs, o.grades, Some(s), c);
  }

  /** Grade rows appended to rows none of which is keyed by (s, c). */
  lemma GradesAfter(before: seq<Row>, students: Table, enrollments: seq<Row>, pairs: seq<Pair>,
                    draws: nat -> GradeDraw, s: Option<nat>, c: Option<nat>)
    requires CountKeyed(before, Grades, s, c) == 0
    requires |students.ids| == |students.rows| && Graded(students, pairs) && Distinct(pairs)
    requires forall p :: p in pairs <==> p in PairsOf(enrollments)
    ensures CountKeyed(before + GradeRows(students, pairs, draws), Grades, s, c)
      == if CountKeyed(enrollments, Enrollments, s, c) > 0 then 1 else 0
  {
    CountKeyedConcat(before, GradeRows(students, pairs, draws), Grades, s, c);
    OneGradePerEnrollment(students, enrollments, pairs, draws, s, c);
  }

  // ---------------------------------------------------------------------
  // The run
  // ---------------------------------------------------------------------

  /** The four parent loops, on a working copy whose Students table is empty. */
  method InsertParents(conn: Connection, cfg: Academic.Config, o: Oracle)
    requires conn.Valid() && HasTables(conn.tables) && |conn.tables[Students].rows| == 0
    modifies conn
    ensures conn.Valid()
    ensures conn.tables == Parents(old(conn.tables), cfg, o)
  {
    ghost var db := conn.tables;
    Academic.ProfessorsFit(conn.tables, cfg.numProfessors, o.parents);
    conn.InsertAll(Professors, Academic.ProfessorRows(cfg.numProfessors, o.parents));
    Academic.InsertStudents(conn, cfg, o.parents);
    Academic.CoursesFit(conn.tables, cfg.numCourses, o.parents);
    conn.InsertAll(Courses, Academic.CourseRows(conn.tables[Professors].ids, cfg.numCourses, o.parents));
    Academic.EnrollmentsFit(conn.tables, cfg.numEnrollments, o.parents);
    conn.InsertAll(Enrollments,
      Academic.EnrollmentRows(conn.tables[Students].ids, conn.tables[Courses].ids, cfg.numEnrollments, o.parents));
  }

  /** The attendance loop: one scan of the active students, then their sessions. */
  method InsertSessions(conn: Connection, o: Oracle) returns (active: seq<Subject>, lists: seq<seq<Option<nat>>>)
    requires conn.Valid() && HasTables(conn.tables) && WellFormed(conn.tables[Students])
    modifies conn
    ensures conn.Valid()
    ensures ScanOf(active, lists, old(conn.tables[Students]), old(conn.tables[Enrollments].rows))
    ensures conn.tables == old(conn.tables)[Attendance :=
      AppendAll(old(conn.tables[Attendance]), Log(active, lists, Rates(active, o.rates), o.sessions))]
  {
    active := SelectActive(conn);
    var students := conn.tables[Students];
    forall i | 0 <= i < |active|
      ensures active[i].id in students.ids
    {
      assert active[i] in multiset(ActiveOf(students.ids, students.rows));
      ActiveIdsIn(students.ids, students.rows, active[i]);
    }
    var count;
    lists, count := InsertAttendance(conn, active, o.rates, o.sessions);
  }

  /** The grade loop: one scan of the distinct enrollment pairs, then a grade for each. */
  method InsertPairGrades(conn: Connection, o: Oracle) returns (pairs: seq<Pair>, ok: bool)
    requires conn.Valid() && HasTables(conn.tables) && WellFormed(conn.tables[Students])
    modifies conn
    ensures conn.Valid()
    ensures Distinct(pairs) && forall p :: p in pairs <==> p in PairsOf(old(conn.tables[Enrollments].rows))
    ensures ok <==> Graded(old(conn.tables[Students]), pairs)
    ensures ok ==> conn.tables == old(conn.tables)[Grades :=
      AppendAll(old(conn.tables[Grades]), GradeRows(old(conn.tables[Students]), pairs, o.grades))]
    ensures conn.tables == old(conn.tables)[Grades := AppendAll(old(conn.tables[Grades]),
      GradeRows(old(conn.tables[Students]), pairs[..FirstUngraded(old(conn.tables[Students]), pairs)], o.grades))]
  {
    pairs := SelectDistinctPairs(conn);
    forall i | 0 <= i < |pairs|
      ensures RefOk(conn.tables, ForeignKey(Courses, pairs[i].course))
    {
      PairsOfRefOk(conn.tables, conn.tables[Enrollments].rows, pairs[i]);
    }
    ok := InsertGrades(conn, pairs, o.grades);
    if ok {
      assert pairs[..FirstUngraded(old(conn.tables[Students]), pairs)] == pairs;
    }
  }

  /** The attendance loop and the grade loop, on the parent rows in place. */
  method InsertRecords(conn: Connection, cfg: Academic.Config, ghost db: Database, o: Oracle) returns (tr: Trace, ok: bool)
    requires Unseeded(db)
    requires conn.Valid() && conn.tables == Parents(db, cfg, o)
    modifies conn
    ensures conn.Valid() && TraceOf(db, cfg, o, tr)
    ensures ok <==> Graded(SeededStudents(db, cfg, o), tr.pairs)
    ensures ok ==> conn.tables == Seeded5(db, cfg, o, tr)
    ensures !ok ==> conn.tables == Raised5(db, cfg, o, tr)
  {
    ghost var p := conn.tables;
    assert p[Students] == SeededStudents(db, cfg, o) && p[Enrollments] == SeededEnrollments(db, cfg, o);
    assert p[Attendance] == db[Attendance] && p[Grades] == db[Grades];
    AppendAllWellFormed(db[Students], Academic.StudentRows(cfg, o.parents));
    var active, lists := InsertSessions(conn, o);
    ghost var q := conn.tables;
    assert q[Students] == p[Students] && q[Enrollments] == p[Enrollments] && q[Grades] == p[Grades];
    var pairs;
    pairs, ok := InsertPairGrades(conn, o);
    tr := Trace(active, lists, pairs);
    assert TraceOf(db, cfg, o, tr);
    assert q == p[Attendance := SeededAttendance(db, o, tr)];
    if ok {
      assert conn.tables == q[Grades := SeededGrades(db, cfg, o, tr)];
    }
  }

  /** The four parent loops only move sequences forward. */
  lemma ParentsAdvanced(db: Database, cfg: Academic.Config, o: Oracle)
    requires HasTables(db)
    ensures Advanced(db, Parents(db, cfg, o))
  {
    var p := Parents(db, cfg, o);
    forall name | name in db
      ensures name in p && db[name].nextId <= p[name].nextId
    {
    }
  }

  /** The run only moves sequences forward, from the committed database on. */
  lemma RaisedAdvanced(committed: Database, db: Database, cfg: Academic.Config, o: Oracle, tr: Trace)
    requires HasTables(db) && |db[Students].ids| == |db[Students].rows| && |tr.lists| == |tr.active|
    requires Advanced(committed, db)
    ensures Advanced(committed, Raised5(db, cfg, o, tr))
  {
    var p := Parents(db, cfg, o);
    var r := Raised5(db, cfg, o, tr);
    ParentsAdvanced(db, cfg, o);
    forall name | name in committed
      ensures name in r && committed[name].nextId <= r[name].nextId
    {
      assert committed[name].nextId <= db[name].nextId <= p[name].nextId;
    }
  }

  /**
   * `insert_mcp5`. A populated Students table leaves the server as it was.
   * Otherwise the run raises exactly when an enrollment already in place
   * has a NULL student or the settings ask for enrollments but no student;
   * then the server aborts the transaction and keeps only the sequence
   * values it drew. In every other case it commits `Seeded5` of the
   * prepared tables for what its scans returned.
   */
  method InsertMcp5(server: Server, cfg: Academic.Config, o: Oracle) returns (outcome: Outcome, tr: Trace)
    requires server.Valid()
    modifies server
    ensures server.Valid()
    ensures outcome == AlreadySeeded <==> Populated(old(server.databases), "mcp5", Students)
    ensures outcome == AlreadySeeded ==> server.databases == old(server.databases)
    ensures outcome != AlreadySeeded ==> Unseeded(Prepared(old(server.databases), "mcp5", Academic.Tables))
    ensures outcome != AlreadySeeded ==> TraceOf(Prepared(old(server.databases), "mcp5", Academic.Tables), cfg, o, tr)
    ensures outcome == RolledBack <==>
      && !Populated(old(server.databases), "mcp5", Students)
      && (NullStudent(Prepared(old(server.databases), "mcp5", Academic.Tables)[Enrollments].rows)
          || (cfg.numStudents == 0 && cfg.numEnrollments > 0))
    ensures outcome == RolledBack ==>
      server.databases == WithDatabase(old(server.databases), "mcp5")["mcp5" :=
        Aborted(WithDatabase(old(server.databases), "mcp5")["mcp5"], Raised5(Prepared(old(server.databases), "mcp5", Academic.Tables), cfg, o, tr))]
    ensures outcome == Seeded ==> Graded(SeededStudents(Prepared(old(server.databases), "mcp5", Academic.Tables), cfg, o), tr.pairs)
    ensures outcome == Seeded ==>
      server.databases == old(server.databases)["mcp5" := Seeded5(Prepared(old(server.databases), "mcp5", Academic.Tables), cfg, o, tr)]
  {
    var conn, count := Open(server, "mcp5", Academic.Tables, Students);
    if count > 0 {
      return AlreadySeeded, Trace([], [], []);
    }
    ghost var db := conn.tables;
    assert TableIntact(db, Students);
    InsertParents(conn, cfg, o);
    var ok;
    tr, ok := InsertRecords(conn, cfg, db, o);
    GradesFailOnOldNull(db, cfg, o, tr);
    if !ok {
      PreparedAdvanced(server.databases["mcp5"], Academic.Tables);
      RaisedAdvanced(server.databases["mcp5"], db, cfg, o, tr);
      conn.Abandon();
      return RolledBack, tr;
    }
    conn.Commit();
    WithDatabaseOverwrite(old(server.databases), "mcp5", conn.tables);
    return Seeded, tr;
  }
}
