/**
 * `insert_mcp5`, part one: the academic records database, its parent rows
 * and its student numbers. Professors, then students in two batches (the
 * first fifth with a high gpa, the rest with a normal one) numbered by one
 * running counter, then courses taught by drawn professors and enrollments
 * of drawn students in drawn courses.
 */
module Academic {
  import opened Wrappers
  import opened Text
  import opened Sampling
  import opened Schema
  import opened Store

  const Tables: seq<TableName> := [Students, Professors, Courses, Enrollments, Attendance, Grades]
  const Departments: seq<string> := [
    "컴퓨터공학과", "경영학과", "국어국문학과", "영어영문학과", "수학과", "물리학과",
    "화학과", "생물학과", "미술학과", "음악학과", "체육학과", "법학과"]
  const Positions: seq<string> := ["교수", "부교수", "조교수", "겸임교수"]
  const Statuses: seq<string> := ["재학", "휴학", "졸업", "제적"]
  /** The status the attendance scan selects. */
  const Active: string := "재학"
  const CoursePrefixes: seq<string> := ["CS", "BU", "KL", "EN", "MA", "PH", "CH", "BI", "AR", "MU", "PE", "LA"]
  const CourseKinds: seq<string> := ["이론", "실습", "세미나", "특강"]
  const Credits: seq<int> := [1, 2, 3]
  const Semesters: seq<string> := ["2024-1", "2024-2", "2025-1"]

  /** NUM_STUDENTS, NUM_PROFESSORS, NUM_COURSES and NUM_ENROLLMENTS. */
  datatype Config = Config(numStudents: nat, numProfessors: nat, numCourses: nat, numEnrollments: nat)

  const DefaultConfig := Config(3000, 150, 200, 15000)

  /** `int(NUM_STUDENTS * 0.2)`: the size of the high-gpa batch. */
  function HighCount(cfg: Config): (h: nat)
    ensures h <= cfg.numStudents
  {
    cfg.numStudents / 5
  }

  datatype ProfessorDraw = ProfessorDraw(name: string, dept: nat, position: nat)
  /** The draws of one student: admission year, gpa in hundredths, and the rest of the row. */
  datatype StudentDraw = StudentDraw(year: nat, gpa: nat, name: string, classYear: nat, major: nat,
                                     admissionDate: Day, status: nat)
  datatype CourseDraw = CourseDraw(prefix: nat, number: nat, phrase: string, kind: nat, credits: nat,
                                   semester: nat, professor: nat, maxStudents: nat)
  datatype EnrollmentDraw = EnrollmentDraw(student: nat, course: nat, semester: nat, date: Day)

  /** The draws of the parent-row loops, by loop position (students counted across both batches). */
  datatype Draws = Draws(
    professor: nat -> ProfessorDraw,
    student: nat -> StudentDraw,
    course: nat -> CourseDraw,
    enrollment: nat -> EnrollmentDraw)

  function ProfessorRow(d: ProfessorDraw): (r: Row)
    ensures r.Professor? && r.dept in Departments && r.position in Positions
  {
    Professor(d.name, Choice(Departments, d.dept), Choice(Positions, d.position))
  }

  function ProfessorRows(n: nat, o: Draws): seq<Row>
  {
    seq(n, i requires 0 <= i => ProfessorRow(o.professor(i)))
  }

  // ---------------------------------------------------------------------
  // Student numbers
  // ---------------------------------------------------------------------

  /** `f"{admission_year}{student_counter:05d}"`. */
  function StudentNumber(year: int, counter: nat): string
    requires 2020 <= year <= 2024
  {
    Decimal(year) + ZeroPad(counter, 5)
  }

  /** An admission year always prints as four digits. */
  lemma YearDigits(year: int)
    requires 2020 <= year <= 2024
    ensures |Decimal(year)| == 4
  {
    DecimalLength(year, 3);
  }

  /**
   * A student number splits back into its year and its counter: the first
   * four digits spell the year, the rest the counter.
   */
  lemma StudentNumberDecodes(year: int, counter: nat)
    requires 2020 <= year <= 2024
    ensures |StudentNumber(year, counter)| >= 9
    ensures StudentNumber(year, counter)[..4] == Decimal(year)
    ensures StudentNumber(year, counter)[4..] == ZeroPad(counter, 5)
    ensures Value(StudentNumber(year, counter)[..4]) == year
    ensures Value(StudentNumber(year, counter)[4..]) == counter
  {
    YearDigits(year);
    ValueOfDecimal(year);
    ZeroPadRoundTrip(counter, 5);
  }

  /** Two different counter values give two different student numbers, whatever the years. */
  lemma StudentNumbersDistinct(y1: int, c1: nat, y2: int, c2: nat)
    requires 2020 <= y1 <= 2024 && 2020 <= y2 <= 2024 && c1 != c2
    ensures StudentNumber(y1, c1) != StudentNumber(y2, c2)
  {
    StudentNumberDecodes(y1, c1);
    StudentNumberDecodes(y2, c2);
  }

  /** `random.randint(2020, 2024)`. */
  function AdmissionYear(d: StudentDraw): (year: int)
    ensures 2020 <= year <= 2024
  {
    RandInt(d.year, 2020, 2024)
  }

  /**
   * The student the counter value `counter` numbers. A high-gpa student has
   * a gpa of 3.80 to 4.50, a normal one of 1.00 to 3.90 (both kept in
   * hundredths, as the NUMERIC(3,2) column stores them).
   */
  function StudentRow(counter: nat, high: bool, d: StudentDraw): (r: Row)
    ensures r.Student? && 1 <= r.classYear <= 4
    ensures r.studentNumber == StudentNumber(AdmissionYear(d), counter)
    ensures high ==> 380 <= r.gpaCents <= 450
    ensures !high ==> 100 <= r.gpaCents <= 390
  {
    var year := AdmissionYear(d);
    var gpa := if high then RandInt(d.gpa, 380, 450) else RandInt(d.gpa, 100, 390);
    Student(StudentNumber(year, counter), d.name, RandInt(d.classYear, 1, 4), Choice(Departments, d.major),
            d.admissionDate, Choice(Statuses, d.status), gpa)
  }

  /** Both batches: the i-th student (0-based) gets counter value i + 1. */
  function StudentRows(cfg: Config, o: Draws): seq<Row>
  {
    seq(cfg.numStudents, i requires 0 <= i => StudentRow(i + 1, i < HighCount(cfg), o.student(i)))
  }

  /** The counter starts at 1 and moves once per student, across both batches. */
  lemma StudentCounter(cfg: Config, o: Draws, i: nat)
    requires i < cfg.numStudents
    ensures StudentRows(cfg, o)[i].Student?
    ensures StudentRows(cfg, o)[i].studentNumber == StudentNumber(AdmissionYear(o.student(i)), i + 1)
  {
    StudentAt(cfg, o, i);
  }

  /** No two students of a run share a student number. */
  lemma StudentNumbersUnique(cfg: Config, o: Draws, i: nat, j: nat)
    requires i < j < cfg.numStudents
    ensures StudentRows(cfg, o)[i].Student? && StudentRows(cfg, o)[j].Student?
    ensures StudentRows(cfg, o)[i].studentNumber != StudentRows(cfg, o)[j].studentNumber
  {
    StudentAt(cfg, o, i);
    StudentAt(cfg, o, j);
    RowNumbersDiffer(i + 1, i < HighCount(cfg), o.student(i), j + 1, j < HighCount(cfg), o.student(j));
  }

  /** Student k of the run is built with counter k + 1, in the high batch when k is below the high count. */
  lemma StudentAt(cfg: Config, o: Draws, k: nat)
    requires k < cfg.numStudents
    ensures StudentRows(cfg, o)[k] == StudentRow(k + 1, k < HighCount(cfg), o.student(k))
  {
  }

  /** Student rows built with different counters carry different student numbers. */
  lemma RowNumbersDiffer(c1: nat, h1: bool, d1: StudentDraw, c2: nat, h2: bool, d2: StudentDraw)
    requires c1 != c2
    ensures StudentRow(c1, h1, d1).studentNumber != StudentRow(c2, h2, d2).studentNumber
  {
    StudentNumbersDistinct(AdmissionYear(d1), c1, AdmissionYear(d2), c2);
  }

  /**
   * Only the high-gpa batch can reach a gpa of 4.00: a normal gpa is at
   * most 3.90.
   */
  lemma HighGpaOnlyInFirstBatch(cfg: Config, o: Draws, i: nat)
    requires i < cfg.numStudents
    ensures StudentRows(cfg, o)[i].Student?
    ensures StudentRows(cfg, o)[i].gpaCents >= 400 ==> i < HighCount(cfg)
  {
    StudentAt(cfg, o, i);
  }

  // ---------------------------------------------------------------------
  // Courses and enrollments
  // ---------------------------------------------------------------------

  /** `f"{choice(course_prefixes)}{randint(100, 499)}"`. */
  function CourseCode(d: CourseDraw): (code: string)
    ensures |code| == 5 && code[..2] in CoursePrefixes
    ensures 100 <= Value(code[2..]) <= 499
  {
    var n := RandInt(d.number, 100, 499);
    DecimalLength(n, 2);
    ValueOfDecimal(n);
    var code := Choice(CoursePrefixes, d.prefix) + Decimal(n);
    assert code[..2] == Choice(CoursePrefixes, d.prefix);
    assert code[2..] == Decimal(n);
    code
  }

  function CourseRow(professorIds: seq<nat>, d: CourseDraw): (r: Row)
    ensures r.Course? && r.profId == Pick(professorIds, d.professor)
    ensures 1 <= r.credits <= 3 && 30 <= r.maxStudents <= 120
  {
    Course(CourseCode(d), d.phrase + " " + Choice(CourseKinds, d.kind), Choice(Credits, d.credits),
           Choice(Semesters, d.semester), Pick(professorIds, d.professor), RandInt(d.maxStudents, 30, 120))
  }

  function CourseRows(professorIds: seq<nat>, n: nat, o: Draws): seq<Row>
  {
    seq(n, i requires 0 <= i => CourseRow(professorIds, o.course(i)))
  }

  function EnrollmentRow(studentIds: seq<nat>, courseIds: seq<nat>, d: EnrollmentDraw): (r: Row)
    ensures r.Enrollment? && r.studentId == Pick(studentIds, d.student) && r.courseId == Pick(courseIds, d.course)
    ensures r.semester in Semesters
  {
    Enrollment(Pick(studentIds, d.student), Pick(courseIds, d.course), Choice(Semesters, d.semester), d.date)
  }

  function EnrollmentRows(studentIds: seq<nat>, courseIds: seq<nat>, n: nat, o: Draws): seq<Row>
  {
    seq(n, i requires 0 <= i => EnrollmentRow(studentIds, courseIds, o.enrollment(i)))
  }

  // ---------------------------------------------------------------------
  // Every generated row passes the checks of its INSERT
  // ---------------------------------------------------------------------

  lemma ProfessorsFit(db: Database, n: nat, o: Draws)
    requires Professors in db
    ensures AllFit(db, Professors, ProfessorRows(n, o))
  {
    forall j | 0 <= j < n
      ensures Fits(db, Professors, ProfessorRows(n, o)[j]) && UniqueKey(ProfessorRows(n, o)[j]).None?
    {
      assert ProfessorRows(n, o)[j] == ProfessorRow(o.professor(j));
      ProfessorFits(db, o.professor(j));
    }
  }

  lemma ProfessorFits(db: Database, d: ProfessorDraw)
    requires Professors in db
    ensures Fits(db, Professors, ProfessorRow(d)) && UniqueKey(ProfessorRow(d)).None?
  {
    assert References(ProfessorRow(d)) == [];
  }

  lemma CoursesFit(db: Database, n: nat, o: Draws)
    requires Courses in db && Professors in db
    ensures AllFit(db, Courses, CourseRows(db[Professors].ids, n, o))
  {
    var ids := db[Professors].ids;
    forall j | 0 <= j < n
      ensures Fits(db, Courses, CourseRows(ids, n, o)[j]) && UniqueKey(CourseRows(ids, n, o)[j]).None?
    {
      assert CourseRows(ids, n, o)[j] == CourseRow(ids, o.course(j));
      CourseFits(db, o.course(j));
    }
  }

  lemma CourseFits(db: Database, d: CourseDraw)
    requires Courses in db && Professors in db
    ensures Fits(db, Courses, CourseRow(db[Professors].ids, d))
    ensures UniqueKey(CourseRow(db[Professors].ids, d)).None?
  {
    var r := CourseRow(db[Professors].ids, d);
    assert References(r) == [ForeignKey(Professors, r.profId)];
    assert RefOk(db, References(r)[0]);
  }

  lemma EnrollmentsFit(db: Database, n: nat, o: Draws)
    requires Enrollments in db && Students in db && Courses in db
    ensures AllFit(db, Enrollments, EnrollmentRows(db[Students].ids, db[Courses].ids, n, o))
  {
    var sids := db[Students].ids;
    var cids := db[Courses].ids;
    forall j | 0 <= j < n
      ensures Fits(db, Enrollments, EnrollmentRows(sids, cids, n, o)[j])
      ensures UniqueKey(EnrollmentRows(sids, cids, n, o)[j]).None?
    {
      var r := EnrollmentRows(sids, cids, n, o)[j];
      assert r == EnrollmentRow(sids, cids, o.enrollment(j));
      assert References(r) == [ForeignKey(Students, r.studentId), ForeignKey(Courses, r.courseId)];
      assert RefOk(db, References(r)[0]);
      assert RefOk(db, References(r)[1]);
    }
  }

  /** The next student's number is not taken by any student the run inserted before it. */
  lemma StudentKeyFree(t: Table, cfg: Config, o: Draws, k: nat, u: Table)
    requires |t.rows| == 0 && k < cfg.numStudents
    requires u == AppendAll(t, StudentRows(cfg, o)[..k])
    ensures KeyFree(u, StudentRow(k + 1, k < HighCount(cfg), o.student(k)))
  {
    var rows := StudentRows(cfg, o);
    assert rows[k] == StudentRow(k + 1, k < HighCount(cfg), o.student(k));
    forall j | 0 <= j < |u.rows|
      ensures UniqueKey(u.rows[j]) != UniqueKey(rows[k])
    {
      assert u.rows[j] == rows[j];
      StudentNumbersUnique(cfg, o, j, k);
    }
  }

  /** A student row references nothing, so it fits its table. */
  lemma StudentFits(db: Database, r: Row)
    requires Students in db && r.Student?
    ensures Fits(db, Students, r)
  {
    assert References(r) == [];
  }

  /** Inserting the next student extends the run's batch by that student. */
  lemma StudentStep(t: Table, cfg: Config, o: Draws, k: nat)
    requires k < cfg.numStudents
    ensures StudentRows(cfg, o)[k] == StudentRow(k + 1, k < HighCount(cfg), o.student(k))
    ensures Append(AppendAll(t, StudentRows(cfg, o)[..k]), StudentRows(cfg, o)[k])
      == AppendAll(t, StudentRows(cfg, o)[..k + 1])
  {
    var rows := StudentRows(cfg, o);
    assert rows[..k + 1] == rows[..k] + [rows[k]];
    AppendAllSnoc(t, rows[..k], rows[k]);
  }

  /** One INSERT of the student loops: the number is free and the row fits. */
  method InsertStudent(conn: Connection, cfg: Config, o: Draws, before: Table, counter: nat, high: bool)
    requires conn.Valid() && Students in conn.tables && |before.rows| == 0
    requires 1 <= counter <= cfg.numStudents && high == (counter - 1 < HighCount(cfg))
    requires conn.tables[Students] == AppendAll(before, StudentRows(cfg, o)[..counter - 1])
    modifies conn
    ensures conn.Valid()
    ensures conn.tables == old(conn.tables)[Students := AppendAll(before, StudentRows(cfg, o)[..counter])]
  {
    var k := counter - 1;
    StudentStep(before, cfg, o, k);
    StudentKeyFree(before, cfg, o, k, conn.tables[Students]);
    var r := StudentRow(counter, high, o.student(k));
    StudentFits(conn.tables, r);
    var _ := conn.Insert(Students, r);
  }

  /**
   * The two student loops. One counter, starting at 1, numbers the high-gpa
   * batch and then the normal batch.
   */
  method InsertStudents(conn: Connection, cfg: Config, o: Draws)
    requires conn.Valid() && Students in conn.tables && |conn.tables[Students].rows| == 0
    modifies conn
    ensures conn.Valid()
    ensures conn.tables == old(conn.tables)[Students := AppendAll(old(conn.tables[Students]), StudentRows(cfg, o))]
  {
    var before := conn.tables[Students];
    var high := HighCount(cfg);
    var counter := 1;
    var i := 0;
    assert StudentRows(cfg, o)[..0] == [];
    assert AppendAll(before, StudentRows(cfg, o)[..0]) == before;
    UpdateSame(old(conn.tables), Students);
    while i < high
      invariant 0 <= i <= high && counter == i + 1
      invariant conn.Valid() && Students in conn.tables
      invariant conn.tables == old(conn.tables)[Students := AppendAll(before, StudentRows(cfg, o)[..counter - 1])]
    {
      ghost var sofar := conn.tables[Students];
      InsertStudent(conn, cfg, o, before, counter, true);
      UpdateTwice(old(conn.tables), Students, sofar, conn.tables[Students]);
      counter := counter + 1;
      i := i + 1;
    }
    i := 0;
    while i < cfg.numStudents - high
      invariant 0 <= i <= cfg.numStudents - high && counter == high + i + 1
      invariant conn.Valid() && Students in conn.tables
      invariant conn.tables == old(conn.tables)[Students := AppendAll(before, StudentRows(cfg, o)[..counter - 1])]
    {
      ghost var sofar := conn.tables[Students];
      InsertStudent(conn, cfg, o, before, counter, false);
      UpdateTwice(old(conn.tables), Students, sofar, conn.tables[Students]);
      counter := counter + 1;
      i := i + 1;
    }
    assert StudentRows(cfg, o)[..counter - 1] == StudentRows(cfg, o);
    assert before == old(conn.tables[Students]);
  }
}
