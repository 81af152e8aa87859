/**
 * `insert_mcp5`, the attendance loop. It scans the active students in
 * the order the server returns them. The loop gives each student a rate
 * (see `Quota`) and looks up that student's enrollments. It then writes
 * 15 weekly sessions for each enrolled course, one trial per session: a
 * session is absent exactly when its trial fails against the rate.
 */
module RollCall {
  import opened Wrappers
  import opened Sampling
  import opened Schema
  import opened Store
  import opened Quota

  /** `for week in range(15)`. */
  const Weeks: nat := 15
  const Absent: string := "결석"
  const Attended: seq<string> := ["출석", "지각", "조퇴"]
  const AttendedWeights: seq<real> := [0.85, 0.1, 0.05]
  /** The semester every attendance and grade row is written for. */
  const Term: string := "2025-1"
  /** The status the scan selects. */
  const Enrolled: string := "재학"

  /** The draws of one session: its date, its trial, and the status drawn when it succeeds. */
  datatype SessionDraw = SessionDraw(date: Day, trial: Unit, status: Unit)

  /** The draws of a run's sessions, by scan position, course position and week. */
  type SessionDraws = (nat, nat, nat) -> SessionDraw

  // ---------------------------------------------------------------------
  // Rows keyed by (student, course)
  // ---------------------------------------------------------------------

  /** The row is an enrollment, attendance or grade row of table `table` for this student and course. */
  predicate KeyedAs(r: Row, table: TableName, student: Option<nat>, course: Option<nat>)
  {
    match r
    case Enrollment(s, c, _, _) => table == Enrollments && s == student && c == course
    case AttendanceRecord(s, c, _, _, _) => table == Attendance && s == student && c == course
    case Grade(s, c, _, _, _, _, _, _, _) => table == Grades && s == student && c == course
    case _ => false
  }

  /** How many rows of `table` are keyed by this student and course. */
  function CountKeyed(rows: seq<Row>, table: TableName, student: Option<nat>, course: Option<nat>): nat
  {
    if |rows| == 0 then 0
    else
      var n := |rows| - 1;
      CountKeyed(rows[..n], table, student, course) + (if KeyedAs(rows[n], table, student, course) then 1 else 0)
  }

  lemma {:induction false} CountKeyedConcat(a: seq<Row>, b: seq<Row>, table: TableName, s: Option<nat>, c: Option<nat>)
    ensures CountKeyed(a + b, table, s, c) == CountKeyed(a, table, s, c) + CountKeyed(b, table, s, c)
    decreases |b|
  {
    if |b| == 0 {
      assert a + b == a;
    } else {
      assert (a + b)[..|a + b| - 1] == a + b[..|b| - 1];
      CountKeyedConcat(a, b[..|b| - 1], table, s, c);
    }
  }

  /** Rows that all carry one key count fully for that key and not at all for another. */
  lemma {:induction false} CountKeyedBlock(rows: seq<Row>, table: TableName, s0: Option<nat>, c0: Option<nat>,
                                           s: Option<nat>, c: Option<nat>)
    requires forall j :: 0 <= j < |rows| ==> KeyedAs(rows[j], table, s0, c0)
    ensures CountKeyed(rows, table, s, c) == if s == s0 && c == c0 then |rows| else 0
    decreases |rows|
  {
    if |rows| > 0 {
      var n := |rows| - 1;
      CountKeyedBlock(rows[..n], table, s0, c0, s, c);
      assert KeyedAs(rows[n], table, s0, c0);
    }
  }

  // ---------------------------------------------------------------------
  // The two scans
  // ---------------------------------------------------------------------

  /** A student row the scan selects. */
  predicate IsActive(r: Row)
  {
    r.Student? && r.status == Enrolled
  }

  /** The rows of `SELECT student_id, gpa FROM Students WHERE status = '재학'`, in table order. */
  function ActiveOf(ids: seq<nat>, rows: seq<Row>): (a: seq<Subject>)
    requires |ids| == |rows|
    ensures |a| <= |rows|
  {
    if |rows| == 0 then []
    else
      var n := |rows| - 1;
      ActiveOf(ids[..n], rows[..n]) + (if IsActive(rows[n]) then [Subject(ids[n], rows[n].gpaCents)] else [])
  }

  /** The ids of a scan. */
  function Ids(a: seq<Subject>): (ids: seq<nat>)
    ensures |ids| == |a|
  {
    seq(|a|, i requires 0 <= i < |a| => a[i].id)
  }

  /** The rows of `SELECT course_id FROM Enrollments WHERE student_id = sid`, in table order. */
  function CoursesOf(rows: seq<Row>, sid: nat): seq<Option<nat>>
  {
    if |rows| == 0 then []
    else
      var n := |rows| - 1;
      var r := rows[n];
      CoursesOf(rows[..n], sid) + (if r.Enrollment? && r.studentId == Some(sid) then [r.courseId] else [])
  }

  /** The courses a student's enrollments name, with multiplicity, are that student's enrollment count per course. */
  lemma {:induction false} CoursesOfCount(rows: seq<Row>, sid: nat, c: Option<nat>)
    ensures multiset(CoursesOf(rows, sid))[c] == CountKeyed(rows, Enrollments, Some(sid), c)
    decreases |rows|
  {
    if |rows| > 0 {
      var n := |rows| - 1;
      var r := rows[n];
      CoursesOfCount(rows[..n], sid, c);
      var tail: seq<Option<nat>> := if r.Enrollment? && r.studentId == Some(sid) then [r.courseId] else [];
      assert CoursesOf(rows, sid) == CoursesOf(rows[..n], sid) + tail;
      assert multiset(CoursesOf(rows, sid)) == multiset(CoursesOf(rows[..n], sid)) + multiset(tail);
      assert multiset(tail)[c] == if KeyedAs(r, Enrollments, Some(sid), c) then 1 else 0;
    }
  }

  /** Every course the scan of a student's enrollments returns is named by one of the enrollment rows. */
  lemma {:induction false} CoursesOfFrom(rows: seq<Row>, sid: nat, c: Option<nat>)
    requires c in CoursesOf(rows, sid)
    ensures exists j :: 0 <= j < |rows| && rows[j].Enrollment? && rows[j].courseId == c
    decreases |rows|
  {
    var n := |rows| - 1;
    var r := rows[n];
    if c in CoursesOf(rows[..n], sid) {
      CoursesOfFrom(rows[..n], sid, c);
      var j :| 0 <= j < n && rows[..n][j].Enrollment? && rows[..n][j].courseId == c;
      assert rows[j] == rows[..n][j];
    } else {
      assert r.Enrollment? && r.courseId == c;
    }
  }

  /** The courses of a student's enrollments satisfy the REFERENCES of an attendance row. */
  lemma CoursesOfRefOk(db: Database, sid: nat, c: Option<nat>)
    requires Intact(db) && Enrollments in db && c in CoursesOf(db[Enrollments].rows, sid)
    ensures RefOk(db, ForeignKey(Courses, c))
  {
    var rows := db[Enrollments].rows;
    CoursesOfFrom(rows, sid, c);
    var j :| 0 <= j < |rows| && rows[j].Enrollment? && rows[j].courseId == c;
    assert TableIntact(db, Enrollments);
    assert RefsOk(db, rows[j]);
    assert References(rows[j])[1] == ForeignKey(Courses, c);
  }

  /** Every student the scan returns is a row of the table it scanned. */
  lemma {:induction false} ActiveIdsIn(ids: seq<nat>, rows: seq<Row>, x: Subject)
    requires |ids| == |rows| && x in ActiveOf(ids, rows)
    ensures x.id in ids
    decreases |rows|
  {
    var n := |rows| - 1;
    if x in ActiveOf(ids[..n], rows[..n]) {
      ActiveIdsIn(ids[..n], rows[..n], x);
      assert ids[..n] <= ids;
    }
  }

  lemma IdsConcat(a: seq<Subject>, b: seq<Subject>)
    ensures Ids(a + b) == Ids(a) + Ids(b)
  {
  }

  /** Taking out the element at k takes one occurrence out of the scan. */
  lemma RemoveAt(b: seq<Subject>, k: nat)
    requires k < |b|
    ensures multiset(b) == multiset(b[..k] + b[k + 1..]) + multiset{b[k]}
  {
    assert b == b[..k] + [b[k]] + b[k + 1..];
  }

  /** ... and one occurrence of its id out of the scan's ids. */
  lemma RemoveIdAt(b: seq<Subject>, k: nat)
    requires k < |b|
    ensures multiset(Ids(b)) == multiset(Ids(b[..k] + b[k + 1..])) + multiset{b[k].id}
  {
    var l := b[..k];
    var r := b[k + 1..];
    assert Ids(b) == Ids(l) + [b[k].id] + Ids(r);
    assert Ids(l + r) == Ids(l) + Ids(r);
  }

  /** The ids of two scans that are permutations of each other are permutations of each other. */
  lemma {:induction false} IdsPermutation(a: seq<Subject>, b: seq<Subject>)
    requires multiset(a) == multiset(b)
    ensures multiset(Ids(a)) == multiset(Ids(b))
    decreases |a|
  {
    if |a| == 0 {
      assert |b| == 0;
    } else {
      var n := |a| - 1;
      var x := a[n];
      assert x in multiset(b);
      var k :| 0 <= k < |b| && b[k] == x;
      var rest := b[..k] + b[k + 1..];
      RemoveAt(a, n);
      RemoveAt(b, k);
      RemoveIdAt(a, n);
      RemoveIdAt(b, k);
      assert a[..n] + a[n + 1..] == a[..n];
      assert forall y :: multiset(a[..n])[y] == multiset(rest)[y] by {
        forall y
          ensures multiset(a[..n])[y] == multiset(rest)[y]
        {
          assert multiset(a)[y] == multiset(a[..n])[y] + multiset{x}[y];
          assert multiset(b)[y] == multiset(rest)[y] + multiset{x}[y];
        }
      }
      assert multiset(a[..n]) == multiset(rest);
      IdsPermutation(a[..n], rest);
    }
  }

  /**
   * With ids strictly increasing, the scan returns the student at position j
   * once when that student is active and not at all otherwise.
   */
  lemma {:induction false} ActiveOnce(ids: seq<nat>, rows: seq<Row>, j: nat)
    requires |ids| == |rows| && j < |ids|
    requires forall p, q :: 0 <= p < q < |ids| ==> ids[p] < ids[q]
    ensures multiset(Ids(ActiveOf(ids, rows)))[ids[j]] == if IsActive(rows[j]) then 1 else 0
    decreases |rows|
  {
    var n := |rows| - 1;
    var prefix := ActiveOf(ids[..n], rows[..n]);
    var last := if IsActive(rows[n]) then [Subject(ids[n], rows[n].gpaCents)] else [];
    IdsConcat(prefix, last);
    if j < n {
      ActiveOnce(ids[..n], rows[..n], j);
      assert ids[..n][j] == ids[j];
    } else {
      assert ids[j] !in Ids(prefix) by {
        forall i | 0 <= i < |prefix|
          ensures Ids(prefix)[i] != ids[j]
        {
          ActiveIdsIn(ids[..n], rows[..n], prefix[i]);
          var p :| 0 <= p < n && ids[..n][p] == prefix[i].id;
          assert ids[p] < ids[j];
        }
      }
    }
  }

  /** An id that is not in the table is returned by no scan of it. */
  lemma NotActive(ids: seq<nat>, rows: seq<Row>, s: nat)
    requires |ids| == |rows| && s !in ids
    ensures multiset(Ids(ActiveOf(ids, rows)))[s] == 0
  {
    var a := ActiveOf(ids, rows);
    forall i | 0 <= i < |a|
      ensures Ids(a)[i] != s
    {
      ActiveIdsIn(ids, rows, a[i]);
    }
  }

  // ---------------------------------------------------------------------
  // The sessions a run writes
  // ---------------------------------------------------------------------

  lemma AttendedWeightsValid()
    ensures Weights(AttendedWeights)
  {
    assert Accumulate(AttendedWeights)[2] == 1.0;
  }

  /**
   * One session of a student in a course. The trial `random() < rate` decides
   * it: a success draws 출석, 지각 or 조퇴 by the weights 0.85, 0.1 and 0.05; a
   * failure makes it 결석.
   */
  function SessionRow(sid: nat, course: Option<nat>, rate: real, d: SessionDraw): (r: Row)
    ensures KeyedAs(r, Attendance, Some(sid), course) && r.semester == Term
    ensures r.status == Absent <==> !(d.trial < rate)
    ensures r.status != Absent ==> r.status in Attended
    ensures References(r) == [ForeignKey(Students, Some(sid)), ForeignKey(Courses, course)]
  {
    AttendedWeightsValid();
    var status := if d.trial < rate then WeightedChoice(Attended, AttendedWeights, d.status) else Absent;
    AttendanceRecord(Some(sid), course, d.date, status, Term)
  }

  /** The 15 weeks of one course of the student at scan position i, course position c. */
  function Sessions(sid: nat, course: Option<nat>, rate: real, i: nat, c: nat, draws: SessionDraws): seq<Row>
  {
    seq(Weeks, w requires 0 <= w => SessionRow(sid, course, rate, draws(i, c, w)))
  }

  /** The sessions of one student, course by course. */
  function StudentLog(sid: nat, courses: seq<Option<nat>>, rate: real, i: nat, draws: SessionDraws): seq<Row>
  {
    if |courses| == 0 then []
    else
      var n := |courses| - 1;
      StudentLog(sid, courses[..n], rate, i, draws) + Sessions(sid, courses[n], rate, i, n, draws)
  }

  /** The sessions of the whole scan, student by student. */
  function Log(active: seq<Subject>, lists: seq<seq<Option<nat>>>, rates: seq<real>, draws: SessionDraws): seq<Row>
    requires |lists| == |active| && |rates| == |active|
  {
    if |active| == 0 then []
    else
      var n := |active| - 1;
      Log(active[..n], lists[..n], rates[..n], draws) + StudentLog(active[n].id, lists[n], rates[n], n, draws)
  }

  // ---------------------------------------------------------------------
  // Fifteen sessions per enrollment
  // ---------------------------------------------------------------------

  lemma SessionsCount(sid: nat, course: Option<nat>, rate: real, i: nat, c: nat, draws: SessionDraws,
                      s: Option<nat>, c2: Option<nat>)
    ensures CountKeyed(Sessions(sid, course, rate, i, c, draws), Attendance, s, c2)
      == if s == Some(sid) && c2 == course then Weeks else 0
  {
    var rows := Sessions(sid, course, rate, i, c, draws);
    forall w | 0 <= w < |rows|
      ensures KeyedAs(rows[w], Attendance, Some(sid), course)
    {
      assert rows[w] == SessionRow(sid, course, rate, draws(i, c, w));
    }
    CountKeyedBlock(rows, Attendance, Some(sid), course, s, c2);
  }

  /** A student's sessions: 15 per occurrence of the course in that student's course list. */
  lemma {:induction false} StudentLogCount(sid: nat, courses: seq<Option<nat>>, rate: real, i: nat,
                                           draws: SessionDraws, s: nat, c: Option<nat>)
    ensures CountKeyed(StudentLog(sid, courses, rate, i, draws), Attendance, Some(s), c)
      == if s == sid then Weeks * multiset(courses)[c] else 0
    decreases |courses|
  {
    if |courses| > 0 {
      var n := |courses| - 1;
      StudentLogCount(sid, courses[..n], rate, i, draws, s, c);
      CountKeyedConcat(StudentLog(sid, courses[..n], rate, i, draws), Sessions(sid, courses[n], rate, i, n, draws),
                       Attendance, Some(s), c);
      SessionsCount(sid, courses[n], rate, i, n, draws, Some(s), c);
      MultisetSnoc(courses);
    }
  }

  /** Dropping the last student of a scan drops one occurrence of that student's id. */
  lemma IdsSnoc(active: seq<Subject>, n: nat, s: nat)
    requires n + 1 == |active|
    ensures multiset(Ids(active))[s] == multiset(Ids(active[..n]))[s] + if active[n].id == s then 1 else 0
    ensures multiset(Ids(active[..n]))[s] <= multiset(Ids(active))[s]
  {
    var ids := Ids(active);
    assert Ids(active[..n]) == ids[..n];
    MultisetSnoc(ids);
  }

  /** Each course list holds what the enrollment query returned for the student at the same position. */
  predicate Listed(active: seq<Subject>, lists: seq<seq<Option<nat>>>, enrollments: seq<Row>)
    requires |lists| == |active|
  {
    forall i :: 0 <= i < |active| ==> multiset(lists[i]) == multiset(CoursesOf(enrollments, active[i].id))
  }

  /** One more student and the course list its query returned keep the lists in step with the scan. */
  lemma ListedSnoc(active: seq<Subject>, lists: seq<seq<Option<nat>>>, courses: seq<Option<nat>>,
                   enrollments: seq<Row>, i: nat)
    requires i < |active| && |lists| == i && Listed(active[..i], lists, enrollments)
    requires multiset(courses) == multiset(CoursesOf(enrollments, active[i].id))
    ensures Listed(active[..i + 1], lists + [courses], enrollments)
  {
    var next := lists + [courses];
    forall p | 0 <= p < i + 1
      ensures multiset(next[p]) == multiset(CoursesOf(enrollments, active[..i + 1][p].id))
    {
      if p < i {
        assert next[p] == lists[p] && active[..i + 1][p] == active[..i][p];
      } else {
        assert next[p] == courses && active[..i + 1][p] == active[i];
      }
    }
  }

  /** The course lists of a prefix of the scan are those of its students. */
  lemma ListsPrefix(active: seq<Subject>, lists: seq<seq<Option<nat>>>, enrollments: seq<Row>, n: nat)
    requires |lists| == |active| && n <= |active| && Listed(active, lists, enrollments)
    ensures Listed(active[..n], lists[..n], enrollments)
  {
    forall i | 0 <= i < n
      ensures multiset(lists[..n][i]) == multiset(CoursesOf(enrollments, active[..n][i].id))
    {
      assert lists[..n][i] == lists[i] && active[..n][i] == active[i];
    }
  }

  /**
   * The whole scan: when student s occurs in it at most once, 15 sessions
   * per enrollment of s in course c if s occurs, none otherwise, where each
   * course list is what the query of that student's enrollments returned.
   */
  lemma {:induction false} LogCount(active: seq<Subject>, lists: seq<seq<Option<nat>>>, rates: seq<real>,
                                    draws: SessionDraws, enrollments: seq<Row>, s: nat, c: Option<nat>)
    requires |lists| == |active| && |rates| == |active| && Listed(active, lists, enrollments)
    requires multiset(Ids(active))[s] <= 1
    ensures CountKeyed(Log(active, lists, rates, draws), Attendance, Some(s), c)
      == if multiset(Ids(active))[s] == 0 then 0 else Weeks * CountKeyed(enrollments, Enrollments, Some(s), c)
    decreases |active|
  {
    if |active| > 0 {
      var n := |active| - 1;
      var front := Log(active[..n], lists[..n], rates[..n], draws);
      var tail := StudentLog(active[n].id, lists[n], rates[n], n, draws);
      IdsSnoc(active, n, s);
      ListsPrefix(active, lists, enrollments, n);
      assert multiset(Ids(active[..n]))[s] <= 1;
      LogCount(active[..n], lists[..n], rates[..n], draws, enrollments, s, c);
      CountKeyedConcat(front, tail, Attendance, Some(s), c);
      StudentLogCount(active[n].id, lists[n], rates[n], n, draws, s, c);
      assert Log(active, lists, rates, draws) == front + tail;
      if active[n].id == s {
        CoursesOfCount(enrollments, s, c);
        assert multiset(Ids(active[..n]))[s] == 0;
        assert multiset(lists[n]) == multiset(CoursesOf(enrollments, s));
        assert CountKeyed(front, Attendance, Some(s), c) == 0;
      } else {
        assert CountKeyed(tail, Attendance, Some(s), c) == 0;
      }
    } else {
      assert multiset(Ids(active))[s] == 0;
    }
  }

  /** The conditions the attendance loop leaves its trace in. */
  predicate ScanOf(active: seq<Subject>, lists: seq<seq<Option<nat>>>, students: Table, enrollments: seq<Row>)
    requires |students.ids| == |students.rows|
  {
    && multiset(active) == multiset(ActiveOf(students.ids, students.rows))
    && |lists| == |active|
    && Listed(active, lists, enrollments)
  }

  /**
   * Each enrollment of an active student in course c yields exactly 15
   * sessions of that student in c, whatever order the scans returned; a
   * student who is not active gets none.
   */
  lemma FifteenPerEnrollment(students: Table, enrollments: seq<Row>, active: seq<Subject>,
                             lists: seq<seq<Option<nat>>>, rates: seq<real>, draws: SessionDraws,
                             j: nat, c: Option<nat>)
    requires WellFormed(students) && j < |students.rows|
    requires ScanOf(active, lists, students, enrollments) && |rates| == |active|
    ensures CountKeyed(Log(active, lists, rates, draws), Attendance, Some(students.ids[j]), c)
      == if IsActive(students.rows[j]) then Weeks * CountKeyed(enrollments, Enrollments, Some(students.ids[j]), c) else 0
  {
    IdsPermutation(active, ActiveOf(students.ids, students.rows));
    ActiveOnce(students.ids, students.rows, j);
    LogCount(active, lists, rates, draws, enrollments, students.ids[j], c);
  }

  /** No session is written for an id that is not a student of the table. */
  lemma NoSessionsForOthers(students: Table, enrollments: seq<Row>, active: seq<Subject>,
                            lists: seq<seq<Option<nat>>>, rates: seq<real>, draws: SessionDraws,
                            s: nat, c: Option<nat>)
    requires |students.ids| == |students.rows| && s !in students.ids
    requires ScanOf(active, lists, students, enrollments) && |rates| == |active|
    ensures CountKeyed(Log(active, lists, rates, draws), Attendance, Some(s), c) == 0
  {
    IdsPermutation(active, ActiveOf(students.ids, students.rows));
    NotActive(students.ids, students.rows, s);
    LogCount(active, lists, rates, draws, enrollments, s, c);
  }

  // ---------------------------------------------------------------------
  // The loop
  // ---------------------------------------------------------------------

  /** `SELECT student_id, gpa FROM Students WHERE status = '재학'`, in an order the server chooses. */
  method SelectActive(conn: Connection) returns (active: seq<Subject>)
    requires Students in conn.tables && WellFormed(conn.tables[Students])
    ensures multiset(active) == multiset(ActiveOf(conn.tables[Students].ids, conn.tables[Students].rows))
  {
    active :| multiset(active) == multiset(ActiveOf(conn.tables[Students].ids, conn.tables[Students].rows));
  }

  /** `SELECT course_id FROM Enrollments WHERE student_id = sid`, in an order the server chooses. */
  method SelectCourses(conn: Connection, sid: nat) returns (courses: seq<Option<nat>>)
    requires Enrollments in conn.tables
    ensures multiset(courses) == multiset(CoursesOf(conn.tables[Enrollments].rows, sid))
  {
    courses :| multiset(courses) == multiset(CoursesOf(conn.tables[Enrollments].rows, sid));
  }

  /** The 15 sessions of a course satisfy their REFERENCES. */
  lemma SessionsFit(db: Database, sid: nat, course: Option<nat>, rate: real, i: nat, c: nat, draws: SessionDraws)
    requires Attendance in db && Students in db && sid in db[Students].ids && RefOk(db, ForeignKey(Courses, course))
    ensures AllFit(db, Attendance, Sessions(sid, course, rate, i, c, draws))
  {
    var rows := Sessions(sid, course, rate, i, c, draws);
    forall w | 0 <= w < Weeks
      ensures Fits(db, Attendance, rows[w]) && UniqueKey(rows[w]).None?
    {
      assert rows[w] == SessionRow(sid, course, rate, draws(i, c, w));
      assert RefOk(db, References(rows[w])[0]);
      assert RefOk(db, References(rows[w])[1]);
    }
  }

  lemma StudentLogStep(t: Table, sid: nat, courses: seq<Option<nat>>, rate: real, i: nat, draws: SessionDraws, c: nat)
    requires c < |courses|
    ensures AppendAll(AppendAll(t, StudentLog(sid, courses[..c], rate, i, draws)), Sessions(sid, courses[c], rate, i, c, draws))
      == AppendAll(t, StudentLog(sid, courses[..c + 1], rate, i, draws))
  {
    assert courses[..c + 1][..c] == courses[..c];
    AppendAllConcat(t, StudentLog(sid, courses[..c], rate, i, draws), Sessions(sid, courses[c], rate, i, c, draws));
  }

  /** The inner loops for one student: every course of the query, 15 weeks each. */
  method InsertStudentLog(conn: Connection, sid: nat, courses: seq<Option<nat>>, rate: real, i: nat, draws: SessionDraws)
    requires conn.Valid() && Attendance in conn.tables && Students in conn.tables && sid in conn.tables[Students].ids
    requires forall c :: 0 <= c < |courses| ==> RefOk(conn.tables, ForeignKey(Courses, courses[c]))
    modifies conn
    ensures conn.Valid()
    ensures conn.tables == old(conn.tables)[Attendance :=
      AppendAll(old(conn.tables[Attendance]), StudentLog(sid, courses, rate, i, draws))]
  {
    var before := conn.tables[Attendance];
    var c := 0;
    while c < |courses|
      invariant 0 <= c <= |courses|
      invariant conn.Valid()
      invariant conn.tables == old(conn.tables)[Attendance := AppendAll(before, StudentLog(sid, courses[..c], rate, i, draws))]
    {
      assert RefOk(conn.tables, ForeignKey(Courses, courses[c])) by {
        assert RefOk(old(conn.tables), ForeignKey(Courses, courses[c]));
      }
      SessionsFit(conn.tables, sid, courses[c], rate, i, c, draws);
      ghost var sofar := conn.tables[Attendance];
      conn.InsertAll(Attendance, Sessions(sid, courses[c], rate, i, c, draws));
      StudentLogStep(before, sid, courses, rate, i, draws, c);
      UpdateTwice(old(conn.tables), Attendance, sofar, conn.tables[Attendance]);
      c := c + 1;
    }
    assert courses[..c] == courses;
  }

  /** One more student of the scan: the first i students' rates, then student i's. */
  lemma RatesStep(active: seq<Subject>, rateDraws: nat -> RateDraw, i: nat)
    requires i < |active|
    ensures Rates(active[..i + 1], rateDraws)
      == Rates(active[..i], rateDraws)
         + [RateOf(TierOf(active[i].gpaCents, LongAbsent(Tiers(active[..i], rateDraws)), rateDraws(i)), rateDraws(i))]
  {
    TiersStep(active, rateDraws, i);
    var t := Tiers(active[..i + 1], rateDraws);
    assert t[..i] == Tiers(active[..i], rateDraws);
  }

  lemma LogStep(t: Table, active: seq<Subject>, lists: seq<seq<Option<nat>>>, courses: seq<Option<nat>>,
                rates: seq<real>, rate: real, draws: SessionDraws, i: nat)
    requires i < |active| && |lists| == i && |rates| == i
    ensures AppendAll(AppendAll(t, Log(active[..i], lists, rates, draws)), StudentLog(active[i].id, courses, rate, i, draws))
      == AppendAll(t, Log(active[..i + 1], lists + [courses], rates + [rate], draws))
  {
    assert active[..i + 1][..i] == active[..i];
    assert (lists + [courses])[..i] == lists;
    assert (rates + [rate])[..i] == rates;
    AppendAllConcat(t, Log(active[..i], lists, rates, draws), StudentLog(active[i].id, courses, rate, i, draws));
  }

  /**
   * The body of the attendance loop for the student at scan position i:
   * assign the rate against the counter, query the courses, write the
   * sessions.
   */
  method AttendStudent(conn: Connection, active: seq<Subject>, rateDraws: nat -> RateDraw, draws: SessionDraws,
                       i: nat, before: Table, ghost enrollments: seq<Row>, ghost lists: seq<seq<Option<nat>>>, count: nat)
    returns (courses: seq<Option<nat>>, count': nat)
    requires conn.Valid() && Attendance in conn.tables && Students in conn.tables && Enrollments in conn.tables
    requires i < |active| && |lists| == i && active[i].id in conn.tables[Students].ids
    requires conn.tables[Enrollments].rows == enrollments
    requires conn.tables[Attendance] == AppendAll(before, Log(active[..i], lists, Rates(active[..i], rateDraws), draws))
    requires count == LongAbsent(Tiers(active[..i], rateDraws))
    modifies conn
    ensures conn.Valid()
    ensures multiset(courses) == multiset(CoursesOf(enrollments, active[i].id))
    ensures count' == LongAbsent(Tiers(active[..i + 1], rateDraws))
    ensures conn.tables == old(conn.tables)[Attendance :=
      AppendAll(before, Log(active[..i + 1], lists + [courses], Rates(active[..i + 1], rateDraws), draws))]
  {
    var sid := active[i].id;
    var rate;
    rate, count' := AssignRate(active[i].gpaCents, count, rateDraws(i));
    courses := SelectCourses(conn, sid);
    forall c | 0 <= c < |courses|
      ensures RefOk(conn.tables, ForeignKey(Courses, courses[c]))
    {
      assert courses[c] in multiset(CoursesOf(enrollments, sid));
      CoursesOfRefOk(conn.tables, sid, courses[c]);
    }
    InsertStudentLog(conn, sid, courses, rate, i, draws);
    RatesStep(active, rateDraws, i);
    TiersStep(active, rateDraws, i);
    LogStep(before, active, lists, courses, Rates(active[..i], rateDraws), rate, draws, i);
  }

  /**
   * The attendance loop over the scan `active`. Returns the course lists the
   * queries returned and the final counter.
   */
  method InsertAttendance(conn: Connection, active: seq<Subject>, rateDraws: nat -> RateDraw, draws: SessionDraws)
    returns (lists: seq<seq<Option<nat>>>, count: nat)
    requires conn.Valid() && Attendance in conn.tables && Students in conn.tables && Enrollments in conn.tables
    requires forall i :: 0 <= i < |active| ==> active[i].id in conn.tables[Students].ids
    modifies conn
    ensures conn.Valid()
    ensures |lists| == |active|
    ensures forall i :: 0 <= i < |active| ==>
      multiset(lists[i]) == multiset(CoursesOf(old(conn.tables[Enrollments].rows), active[i].id))
    ensures count == LongAbsent(Tiers(active, rateDraws))
    ensures conn.tables == old(conn.tables)[Attendance :=
      AppendAll(old(conn.tables[Attendance]), Log(active, lists, Rates(active, rateDraws), draws))]
  {
    var before := conn.tables[Attendance];
    ghost var enrollments := conn.tables[Enrollments].rows;
    lists := [];
    count := 0;
    var i := 0;
    assert active[..0] == [];
    assert AppendAll(before, Log(active[..0], lists, Rates(active[..0], rateDraws), draws)) == before;
    UpdateSame(old(conn.tables), Attendance);
    while i < |active|
      invariant 0 <= i <= |active| && |lists| == i
      invariant conn.Valid()
      invariant conn.tables == old(conn.tables)[Attendance :=
        AppendAll(before, Log(active[..i], lists, Rates(active[..i], rateDraws), draws))]
      invariant count == LongAbsent(Tiers(active[..i], rateDraws))
      invariant Listed(active[..i], lists, enrollments)
    {
      var courses;
      ghost var sofar := conn.tables[Attendance];
      courses, count := AttendStudent(conn, active, rateDraws, draws, i, before, enrollments, lists, count);
      UpdateTwice(old(conn.tables), Attendance, sofar, conn.tables[Attendance]);
      ListedSnoc(active, lists, courses, enrollments, i);
      lists := lists + [courses];
      i := i + 1;
    }
    assert active[..i] == active;
    assert Listed(active, lists, enrollments);
  }
}
