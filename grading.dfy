/**
 * `insert_mcp5`, the grade loop. It scans the distinct (student, course)
 * pairs of the enrollments in the order the server returns them, looks up
 * the student's gpa, draws a letter by one of two weight vectors (one for a
 * gpa of 4.00 or more, one for everyone else), derives the grade point from
 * the letter, draws three scores whose range depends on whether the letter
 * is F, and writes one grade row. A pair whose student the gpa query does
 * not find (a NULL student id) makes `fetchone()[0]` raise.
 */
module Grading {
  import opened Wrappers
  import opened Sampling
  import opened Schema
  import opened Store
  import opened RollCall

  const Letters: seq<string> := ["A+", "A", "B+", "B", "C+", "C", "D+", "D", "F"]
  const Points: seq<real> := [4.5, 4.0, 3.5, 3.0, 2.5, 2.0, 1.5, 1.0, 0.0]
  /** The letter weights for a gpa of 4.00 or more: nothing below C. */
  const HighWeights: seq<real> := [0.4, 0.3, 0.15, 0.1, 0.03, 0.02, 0.0, 0.0, 0.0]
  /** The letter weights for every other student: nothing below D. */
  const NormalWeights: seq<real> := [0.1, 0.15, 0.2, 0.25, 0.15, 0.1, 0.03, 0.02, 0.0]
  const Fail: string := "F"
  /** How many letters, from A+ on, a gpa of 4.00 or more can be given: A+ to C. */
  const HighLetters: nat := 6

  /** The draws of one grade row: the letter, then the midterm, final and assignment scores. */
  datatype GradeDraw = GradeDraw(letter: Unit, midterm: Unit, final: Unit, assignment: Unit)

  // ---------------------------------------------------------------------
  // Letters and points
  // ---------------------------------------------------------------------

  lemma LettersDistinct(i: nat, j: nat)
    requires i < j < |Letters|
    ensures Letters[i] != Letters[j]
  {
  }

  /** `xs.index(x)`: the first position of x. */
  function IndexOf(xs: seq<string>, x: string): (k: nat)
    requires x in xs
    ensures k < |xs| && xs[k] == x
    ensures forall j :: 0 <= j < k ==> xs[j] != x
  {
    if xs[0] == x then 0 else 1 + IndexOf(xs[1..], x)
  }

  /** Looking a letter up finds the position it was drawn from. */
  lemma IndexOfLetter(k: nat)
    requires k < |Letters|
    ensures IndexOf(Letters, Letters[k]) == k
  {
    var j := IndexOf(Letters, Letters[k]);
    if j < k {
      LettersDistinct(j, k);
    }
  }

  /** `grade_points[letter_grades.index(letter_grade)]`. */
  function PointOf(letter: string): (p: real)
    requires letter in Letters
    ensures 0.0 <= p <= 4.5
  {
    var k := IndexOf(Letters, letter);
    PointsStep(k);
    Points[k]
  }

  /** The letter at position k has the point at position k: the two lists are read in step. */
  lemma PointOfLetter(k: nat)
    requires k < |Letters|
    ensures PointOf(Letters[k]) == Points[k]
  {
    IndexOfLetter(k);
  }

  /** The points fall by 0.5 a letter from 4.5 down to 1.0 at D; F is worth 0. */
  lemma PointsStep(k: nat)
    requires k < |Points|
    ensures k < 8 ==> Points[k] == 4.5 - 0.5 * (k as real)
    ensures k == 8 ==> Points[k] == 0.0
  {
  }

  /** The grade point determines the letter: no two letters share a point. */
  lemma PointOfInjective(i: nat, j: nat)
    requires i < |Letters| && j < |Letters| && PointOf(Letters[i]) == PointOf(Letters[j])
    ensures Letters[i] == Letters[j]
  {
    PointOfLetter(i);
    PointOfLetter(j);
    PointsStep(i);
    PointsStep(j);
    assert i == j;
  }

  /** A weight vector of nine labels summing to 1 is one `random.choices` accepts. */
  lemma NineWeights(w: seq<real>)
    requires |w| == 9 && forall i :: 0 <= i < 9 ==> w[i] >= 0.0
    requires w[0] + w[1] + w[2] + w[3] + w[4] + w[5] + w[6] + w[7] + w[8] == 1.0
    ensures Weights(w)
  {
    var c := Accumulate(w);
    assert c[1] == w[0] + w[1];
    assert c[2] == c[1] + w[2];
    assert c[3] == c[2] + w[3];
    assert c[4] == c[3] + w[4];
    assert c[5] == c[4] + w[5];
    assert c[6] == c[5] + w[6];
    assert c[7] == c[6] + w[7];
    assert c[8] == c[7] + w[8];
  }

  /** Both weight vectors are ones `random.choices` accepts (each sums to 1). */
  lemma WeightsValid()
    ensures Weights(HighWeights) && Weights(NormalWeights)
  {
    NineWeights(HighWeights);
    NineWeights(NormalWeights);
  }

  /** The weights `student_gpa >= 4.0` selects. */
  function WeightsFor(gpaCents: int): seq<real>
  {
    if gpaCents >= 400 then HighWeights else NormalWeights
  }

  /**
   * The position `random.choices(letter_grades, weights)` picks with the
   * weights for this gpa: a label of positive weight, so never F (the last),
   * and nothing below C (the sixth) for a gpa of 4.00 or more.
   */
  function LetterIndex(gpaCents: int, u: Unit): (k: nat)
    ensures k < 8
    ensures gpaCents >= 400 ==> k < HighLetters
  {
    var w := WeightsFor(gpaCents);
    WeightsValid();
    ChosenWeightPositive(w, u);
    ChoicesIndex(w, u)
  }

  /** `random.choices(letter_grades, weights)[0]`. */
  function DrawLetter(gpaCents: int, u: Unit): (letter: string)
    ensures letter == Letters[LetterIndex(gpaCents, u)]
  {
    WeightsValid();
    WeightedChoice(Letters, WeightsFor(gpaCents), u)
  }

  /** A letter from the first eight is not F; one from the first six is among A+ to C. */
  lemma LetterAt(k: nat)
    requires k < 8
    ensures Letters[k] != Fail
    ensures k < HighLetters ==> Letters[k] in Letters[..HighLetters]
  {
    LettersDistinct(k, 8);
    if k < HighLetters {
      assert Letters[..HighLetters][k] == Letters[k];
    }
  }

  /** Every letter except F is drawn with positive weight for a normal gpa, so each one can occur. */
  lemma NormalLettersReachable(k: nat)
    requires k < 8
    ensures NormalWeights[k] > 0.0
  {
  }

  // ---------------------------------------------------------------------
  // Scores
  // ---------------------------------------------------------------------

  datatype Scores = Scores(midterm: real, final: real, assignment: real, total: real)

  /**
   * The three scores: 60 to 100 (assignment 70 to 100) for a passing
   * letter, 0 to 59 (assignment 0 to 69) for F; the total weighs them 0.3,
   * 0.4 and 0.3. The total reaches 63 exactly when the letter passes.
   */
  function ScoresOf(letter: string, d: GradeDraw): (s: Scores)
    ensures s.total == s.midterm * 0.3 + s.final * 0.4 + s.assignment * 0.3
    ensures letter != Fail ==> 60.0 <= s.midterm < 100.0 && 60.0 <= s.final < 100.0 && 70.0 <= s.assignment < 100.0
    ensures letter == Fail ==> 0.0 <= s.midterm < 59.0 && 0.0 <= s.final < 59.0 && 0.0 <= s.assignment < 69.0
    ensures 63.0 <= s.total <==> letter != Fail
    ensures 0.0 <= s.total < 100.0
  {
    var pass := letter != Fail;
    var midterm := if pass then Uniform(60.0, 100.0, d.midterm) else Uniform(0.0, 59.0, d.midterm);
    var final := if pass then Uniform(60.0, 100.0, d.final) else Uniform(0.0, 59.0, d.final);
    var assignment := if pass then Uniform(70.0, 100.0, d.assignment) else Uniform(0.0, 69.0, d.assignment);
    Scores(midterm, final, assignment, midterm * 0.3 + final * 0.4 + assignment * 0.3)
  }

  /**
   * One grade row of a student with this gpa in this course: the letter
   * drawn, the point at that letter's position, scores in the passing ranges
   * and a total of at least 63.
   */
  function GradeRow(sid: nat, course: Option<nat>, gpaCents: int, d: GradeDraw): (r: Row)
    ensures r.Grade? && KeyedAs(r, Grades, Some(sid), course) && r.semester == Term
    ensures References(r) == [ForeignKey(Students, Some(sid)), ForeignKey(Courses, course)]
    ensures r.letterGrade == Letters[LetterIndex(gpaCents, d.letter)]
    ensures r.gradePoint == Points[LetterIndex(gpaCents, d.letter)]
    ensures 60.0 <= r.midtermScore < 100.0 && 60.0 <= r.finalScore < 100.0 && 70.0 <= r.assignmentScore < 100.0
    ensures 63.0 <= r.totalScore < 100.0
  {
    var letter := DrawLetter(gpaCents, d.letter);
    LetterAt(LetterIndex(gpaCents, d.letter));
    PointOfLetter(LetterIndex(gpaCents, d.letter));
    var s := ScoresOf(letter, d);
    Grade(Some(sid), course, Term, s.midterm, s.final, s.assignment, s.total, letter, PointOf(letter))
  }

  /**
   * No grade row is an F, and a student with a gpa of 4.00 or more gets a
   * C or better, with a grade point of at least 2.0.
   */
  lemma GradeRowPasses(sid: nat, course: Option<nat>, gpaCents: int, d: GradeDraw)
    ensures GradeRow(sid, course, gpaCents, d).letterGrade != Fail
    ensures GradeRow(sid, course, gpaCents, d).gradePoint >= 1.0
    ensures gpaCents >= 400 ==> GradeRow(sid, course, gpaCents, d).letterGrade in Letters[..HighLetters]
    ensures gpaCents >= 400 ==> GradeRow(sid, course, gpaCents, d).gradePoint >= 2.0
  {
    LetterAt(LetterIndex(gpaCents, d.letter));
    PointsStep(LetterIndex(gpaCents, d.letter));
  }

  // ---------------------------------------------------------------------
  // The two queries
  // ---------------------------------------------------------------------

  /**
   * `SELECT gpa FROM Students WHERE student_id = sid` and `fetchone()[0]`:
   * None when no row matches, which a NULL id never does.
   */
  function GpaOf(ids: seq<nat>, rows: seq<Row>, sid: Option<nat>): (g: Option<int>)
    requires |ids| == |rows|
    ensures g.Some? <==> sid.Some? && exists j :: 0 <= j < |ids| && ids[j] == sid.value && rows[j].Student?
    ensures g.Some? ==> exists j :: 0 <= j < |ids| && ids[j] == sid.value && rows[j].Student? && rows[j].gpaCents == g.value
    decreases |ids|
  {
    if sid.None? || |ids| == 0 then None
    else
      var n := |ids| - 1;
      if ids[n] == sid.value && rows[n].Student? then Some(rows[n].gpaCents)
      else
        var g := GpaOf(ids[..n], rows[..n], sid);
        assert forall j :: 0 <= j < n ==> ids[..n][j] == ids[j] && rows[..n][j] == rows[j];
        g
  }

  /** One row of `SELECT DISTINCT student_id, course_id FROM Enrollments`. */
  datatype Pair = Pair(student: Option<nat>, course: Option<nat>)

  /** The (student, course) pair of every enrollment row, in table order, duplicates included. */
  function PairsOf(rows: seq<Row>): seq<Pair>
  {
    if |rows| == 0 then []
    else
      var n := |rows| - 1;
      var r := rows[n];
      PairsOf(rows[..n]) + (if r.Enrollment? then [Pair(r.studentId, r.courseId)] else [])
  }

  /** A pair occurs among the enrollments exactly when some enrollment row carries it. */
  lemma {:induction false} PairsOfCount(rows: seq<Row>, p: Pair)
    ensures p in PairsOf(rows) <==> CountKeyed(rows, Enrollments, p.student, p.course) > 0
    decreases |rows|
  {
    if |rows| > 0 {
      var n := |rows| - 1;
      PairsOfCount(rows[..n], p);
    }
  }

  /** Every pair of the enrollments names a student and a course the REFERENCES accept. */
  lemma {:induction false} PairsOfRefOk(db: Database, rows: seq<Row>, p: Pair)
    requires Intact(db) && Enrollments in db && rows <= db[Enrollments].rows && p in PairsOf(rows)
    ensures RefOk(db, ForeignKey(Students, p.student)) && RefOk(db, ForeignKey(Courses, p.course))
    decreases |rows|
  {
    var n := |rows| - 1;
    if p in PairsOf(rows[..n]) {
      PairsOfRefOk(db, rows[..n], p);
    } else {
      assert TableIntact(db, Enrollments);
      assert rows[n] == db[Enrollments].rows[n];
      assert RefsOk(db, rows[n]);
      assert RefOk(db, References(rows[n])[0]) && RefOk(db, References(rows[n])[1]);
    }
  }

  predicate Distinct(s: seq<Pair>)
  {
    forall i, j :: 0 <= i < j < |s| ==> s[i] != s[j]
  }

  /** A prefix of a duplicate-free scan is duplicate-free, and the element after it is not in it. */
  lemma DistinctPrefix(s: seq<Pair>, n: nat)
    requires Distinct(s) && n < |s|
    ensures Distinct(s[..n]) && s[n] !in s[..n]
  {
    forall i, j | 0 <= i < j < n
      ensures s[..n][i] != s[..n][j]
    {
      assert s[..n][i] == s[i] && s[..n][j] == s[j];
    }
    forall i | 0 <= i < n
      ensures s[..n][i] != s[n]
    {
      assert s[..n][i] == s[i];
    }
  }

  lemma InLastOrPrefix(s: seq<Pair>, n: nat, x: Pair)
    requires n + 1 == |s|
    ensures x in s <==> x in s[..n] || x == s[n]
  {
    assert s == s[..n] + [s[n]];
  }

  /** The first occurrence of every element, in order. */
  function Dedup(s: seq<Pair>): (r: seq<Pair>)
    ensures Distinct(r)
    ensures forall x :: x in r <==> x in s
  {
    if |s| == 0 then []
    else
      var prefix := Dedup(s[..|s| - 1]);
      var x := s[|s| - 1];
      assert forall y :: y in s <==> y in s[..|s| - 1] || y == x;
      if x in prefix then prefix else prefix + [x]
  }

  /**
   * `SELECT DISTINCT student_id, course_id FROM Enrollments`: every pair of
   * the enrollments once, in an order the server chooses.
   */
  method SelectDistinctPairs(conn: Connection) returns (pairs: seq<Pair>)
    requires Enrollments in conn.tables
    ensures Distinct(pairs)
    ensures forall p :: p in pairs <==> p in PairsOf(conn.tables[Enrollments].rows)
  {
    var all := PairsOf(conn.tables[Enrollments].rows);
    ghost var dedup := Dedup(all);
    assert Distinct(dedup) && (forall p | p in dedup :: p in all) && (forall p | p in all :: p in dedup);
    pairs :| Distinct(pairs) && (forall p | p in pairs :: p in all) && (forall p | p in all :: p in pairs);
  }

  // ---------------------------------------------------------------------
  // The rows of the loop
  // ---------------------------------------------------------------------

  /** Every pair's student is found by the gpa query: the loop runs to its end. */
  predicate Graded(students: Table, pairs: seq<Pair>)
    requires |students.ids| == |students.rows|
  {
    forall i :: 0 <= i < |pairs| ==> GpaOf(students.ids, students.rows, pairs[i].student).Some?
  }

  /** A prefix of a scan that runs to its end runs to its end. */
  lemma GradedPrefix(students: Table, pairs: seq<Pair>, n: nat)
    requires |students.ids| == |students.rows| && n <= |pairs| && Graded(students, pairs)
    ensures Graded(students, pairs[..n])
  {
    assert forall i :: 0 <= i < n ==> pairs[..n][i] == pairs[i];
  }

  /** The grade row of one pair whose student the gpa query finds. */
  function PairRow(students: Table, p: Pair, d: GradeDraw): (r: Row)
    requires |students.ids| == |students.rows| && GpaOf(students.ids, students.rows, p.student).Some?
    ensures KeyedAs(r, Grades, p.student, p.course)
  {
    GradeRow(p.student.value, p.course, GpaOf(students.ids, students.rows, p.student).value, d)
  }

  /** The row of a pair is keyed by that pair and no other. */
  lemma KeyedPairRow(students: Table, p: Pair, d: GradeDraw, s: Option<nat>, c: Option<nat>)
    requires |students.ids| == |students.rows| && GpaOf(students.ids, students.rows, p.student).Some?
    ensures KeyedAs(PairRow(students, p, d), Grades, s, c) <==> Pair(s, c) == p
  {
    var r := PairRow(students, p, d);
    assert r.Grade? && r.studentId == p.student && r.courseId == p.course;
    assert KeyedAs(r, Grades, s, c) <==> r.studentId == s && r.courseId == c;
  }

  /** The grade rows of the pairs in scan order, the pair at scan position i drawing `draws(i)`. */
  function GradeRows(students: Table, pairs: seq<Pair>, draws: nat -> GradeDraw): (rows: seq<Row>)
    requires |students.ids| == |students.rows| && Graded(students, pairs)
    ensures |rows| == |pairs|
    decreases |pairs|
  {
    if |pairs| == 0 then []
    else
      var n := |pairs| - 1;
      GradedPrefix(students, pairs, n);
      GradeRows(students, pairs[..n], draws) + [PairRow(students, pairs[n], draws(n))]
  }

  /** The position of the first pair the gpa query does not find, or the number of pairs. */
  function FirstUngraded(students: Table, pairs: seq<Pair>): (k: nat)
    requires |students.ids| == |students.rows|
    ensures k <= |pairs| && Graded(students, pairs[..k])
    ensures k < |pairs| ==> GpaOf(students.ids, students.rows, pairs[k].student).None?
    ensures k == |pairs| <==> Graded(students, pairs)
    decreases |pairs|
  {
    if |pairs| == 0 then 0
    else if GpaOf(students.ids, students.rows, pairs[0].student).None? then 0
    else
      var k := 1 + FirstUngraded(students, pairs[1..]);
      assert forall i :: 1 <= i < |pairs| ==> pairs[1..][i - 1] == pairs[i];
      assert forall i :: 0 <= i < k ==> pairs[..k][i] == pairs[i];
      k
  }

  /** The grade rows of a longer prefix extend those of the shorter one by the next pair's row. */
  lemma GradeRowsSnoc(students: Table, pairs: seq<Pair>, draws: nat -> GradeDraw, i: nat)
    requires |students.ids| == |students.rows| && i < |pairs| && Graded(students, pairs[..i + 1])
    ensures Graded(students, pairs[..i]) && GpaOf(students.ids, students.rows, pairs[i].student).Some?
    ensures GradeRows(students, pairs[..i + 1], draws)
      == GradeRows(students, pairs[..i], draws) + [PairRow(students, pairs[i], draws(i))]
  {
    assert pairs[..i + 1][..i] == pairs[..i];
    assert pairs[..i + 1][i] == pairs[i];
  }

  /**
   * With distinct pairs that all run, the grade rows give each pair exactly
   * one row and every other key none.
   */
  lemma {:induction false} GradeRowsCount(students: Table, pairs: seq<Pair>, draws: nat -> GradeDraw,
                                          s: Option<nat>, c: Option<nat>)
    requires |students.ids| == |students.rows| && Graded(students, pairs) && Distinct(pairs)
    ensures CountKeyed(GradeRows(students, pairs, draws), Grades, s, c) == if Pair(s, c) in pairs then 1 else 0
    decreases |pairs|
  {
    if |pairs| > 0 {
      var n := |pairs| - 1;
      var rows := GradeRows(students, pairs, draws);
      GradedPrefix(students, pairs, n);
      var prefix := GradeRows(students, pairs[..n], draws);
      assert rows == prefix + [PairRow(students, pairs[n], draws(n))];
      assert rows[..n] == prefix;
      DistinctPrefix(pairs, n);
      GradeRowsCount(students, pairs[..n], draws, s, c);
      KeyedPairRow(students, pairs[n], draws(n), s, c);
      assert CountKeyed(rows, Grades, s, c)
        == CountKeyed(prefix, Grades, s, c) + (if KeyedAs(rows[n], Grades, s, c) then 1 else 0);
      InLastOrPrefix(pairs, n, Pair(s, c));
      assert KeyedAs(rows[n], Grades, s, c) <==> Pair(s, c) == pairs[n];
    }
  }

  /**
   * Each distinct enrollment pair gets exactly one grade row, and no other
   * (student, course) gets any, whatever order the scan returned.
   */
  lemma OneGradePerEnrollment(students: Table, enrollments: seq<Row>, pairs: seq<Pair>, draws: nat -> GradeDraw,
                              s: Option<nat>, c: Option<nat>)
    requires |students.ids| == |students.rows| && Graded(students, pairs) && Distinct(pairs)
    requires forall p :: p in pairs <==> p in PairsOf(enrollments)
    ensures CountKeyed(GradeRows(students, pairs, draws), Grades, s, c)
      == if CountKeyed(enrollments, Enrollments, s, c) > 0 then 1 else 0
  {
    GradeRowsCount(students, pairs, draws, s, c);
    PairsOfCount(enrollments, Pair(s, c));
  }

  /**
   * The loop runs to its end exactly when no enrollment has a NULL student:
   * the REFERENCES put every other student id in the table.
   */
  lemma GradedIffNoNullStudent(db: Database, pairs: seq<Pair>)
    requires Intact(db) && Enrollments in db && Students in db && WellFormed(db[Students])
    requires forall p :: p in pairs <==> p in PairsOf(db[Enrollments].rows)
    ensures Graded(db[Students], pairs) <==> forall i :: 0 <= i < |pairs| ==> pairs[i].student.Some?
  {
    var t := db[Students];
    assert TableIntact(db, Students);
    forall i | 0 <= i < |pairs| && pairs[i].student.Some?
      ensures GpaOf(t.ids, t.rows, pairs[i].student).Some?
    {
      PairsOfRefOk(db, db[Enrollments].rows, pairs[i]);
      var sid := pairs[i].student.value;
      var j :| 0 <= j < |t.ids| && t.ids[j] == sid;
      assert TableOf(t.rows[j]) == Students;
    }
  }

  /** The rows the loop writes satisfy their REFERENCES: the student was found, the course came from an enrollment. */
  lemma GradeRowFits(db: Database, students: Table, p: Pair, gpa: int, d: GradeDraw)
    requires Grades in db && Students in db && db[Students] == students && WellFormed(students)
    requires GpaOf(students.ids, students.rows, p.student).Some? && RefOk(db, ForeignKey(Courses, p.course))
    ensures Fits(db, Grades, GradeRow(p.student.value, p.course, gpa, d))
    ensures KeyFree(db[Grades], GradeRow(p.student.value, p.course, gpa, d))
  {
    var r := GradeRow(p.student.value, p.course, gpa, d);
    var j :| 0 <= j < |students.ids| && students.ids[j] == p.student.value && students.rows[j].Student?;
    assert p.student.value in db[Students].ids;
    assert References(r) == [ForeignKey(Students, p.student), ForeignKey(Courses, p.course)];
    assert RefOk(db, References(r)[0]);
    assert RefOk(db, References(r)[1]);
    assert RefsOk(db, r) by {
      forall i | 0 <= i < |References(r)| ensures RefOk(db, References(r)[i]) {
        assert i == 0 || i == 1;
      }
    }
    assert TableOf(r) == Grades;
    assert UniqueKey(r).None?;
  }

  // ---------------------------------------------------------------------
  // The loop
  // ---------------------------------------------------------------------

  /** `SELECT gpa FROM Students WHERE student_id = sid`; None stands for the `fetchone()` that returned nothing. */
  method SelectGpa(conn: Connection, sid: Option<nat>) returns (g: Option<int>)
    requires Students in conn.tables && WellFormed(conn.tables[Students])
    ensures g == GpaOf(conn.tables[Students].ids, conn.tables[Students].rows, sid)
  {
    g := GpaOf(conn.tables[Students].ids, conn.tables[Students].rows, sid);
  }

  /** One more pair whose student the query finds keeps the scan running. */
  lemma GradedSnoc(students: Table, pairs: seq<Pair>, i: nat)
    requires |students.ids| == |students.rows| && i < |pairs| && Graded(students, pairs[..i])
    requires GpaOf(students.ids, students.rows, pairs[i].student).Some?
    ensures Graded(students, pairs[..i + 1])
  {
    var longer := pairs[..i + 1];
    forall j | 0 <= j < |longer|
      ensures GpaOf(students.ids, students.rows, longer[j].student).Some?
    {
      if j < i {
        assert longer[j] == pairs[..i][j];
      }
    }
  }

  /** The body of the grade loop for the pair at scan position i, once its student's gpa is found. */
  method GradePair(conn: Connection, students: Table, pairs: seq<Pair>, draws: nat -> GradeDraw,
                   i: nat, gpa: int, ghost before: Table)
    requires conn.Valid() && Students in conn.tables && Grades in conn.tables
    requires conn.tables[Students] == students && WellFormed(students)
    requires i < |pairs| && Graded(students, pairs[..i])
    requires GpaOf(students.ids, students.rows, pairs[i].student) == Some(gpa)
    requires RefOk(conn.tables, ForeignKey(Courses, pairs[i].course))
    requires conn.tables[Grades] == AppendAll(before, GradeRows(students, pairs[..i], draws))
    modifies conn
    ensures conn.Valid() && Graded(students, pairs[..i + 1])
    ensures conn.tables == old(conn.tables)[Grades := AppendAll(before, GradeRows(students, pairs[..i + 1], draws))]
  {
    var row := GradeRow(pairs[i].student.value, pairs[i].course, gpa, draws(i));
    GradeRowFits(conn.tables, students, pairs[i], gpa, draws(i));
    var _ := conn.Insert(Grades, row);
    GradedSnoc(students, pairs, i);
    GradeRowsSnoc(students, pairs, draws, i);
    AppendAllSnoc(before, GradeRows(students, pairs[..i], draws), row);
  }

  /**
   * The grade loop over the scan `pairs`. It returns false when it raised:
   * the rows of the pairs before the failing one are in the working copy,
   * which the caller then abandons.
   */
  method InsertGrades(conn: Connection, pairs: seq<Pair>, draws: nat -> GradeDraw) returns (ok: bool)
    requires conn.Valid() && Students in conn.tables && Grades in conn.tables && WellFormed(conn.tables[Students])
    requires forall i :: 0 <= i < |pairs| ==> RefOk(conn.tables, ForeignKey(Courses, pairs[i].course))
    modifies conn
    ensures conn.Valid()
    ensures ok <==> Graded(old(conn.tables[Students]), pairs)
    ensures conn.tables == old(conn.tables)[Grades := AppendAll(old(conn.tables[Grades]),
      GradeRows(old(conn.tables[Students]), pairs[..FirstUngraded(old(conn.tables[Students]), pairs)], draws))]
  {
    var students := conn.tables[Students];
    ghost var before := conn.tables[Grades];
    var i := 0;
    assert GradeRows(students, pairs[..0], draws) == [];
    UpdateSame(conn.tables, Grades);
    while i < |pairs|
      invariant 0 <= i <= |pairs| && conn.Valid()
      invariant Graded(students, pairs[..i])
      invariant conn.tables == old(conn.tables)[Grades := AppendAll(before, GradeRows(students, pairs[..i], draws))]
    {
      var gpa := SelectGpa(conn, pairs[i].student);
      if gpa.None? {
        FirstUngradedAt(students, pairs, i);
        assert pairs[..FirstUngraded(students, pairs)] == pairs[..i];
        return false;
      }
      RefOkElsewhere(old(conn.tables), Grades, AppendAll(before, GradeRows(students, pairs[..i], draws)),
        ForeignKey(Courses, pairs[i].course));
      ghost var sofar := conn.tables[Grades];
      GradePair(conn, students, pairs, draws, i, gpa.value, before);
      UpdateTwice(old(conn.tables), Grades, sofar, conn.tables[Grades]);
      i := i + 1;
    }
    assert pairs[..i] == pairs;
    assert FirstUngraded(students, pairs) == |pairs|;
    return true;
  }

  /** The loop stops at the first pair whose student the query does not find. */
  lemma FirstUngradedAt(students: Table, pairs: seq<Pair>, i: nat)
    requires |students.ids| == |students.rows| && i < |pairs|
    requires Graded(students, pairs[..i]) && GpaOf(students.ids, students.rows, pairs[i].student).None?
    ensures FirstUngraded(students, pairs) == i && !Graded(students, pairs)
  {
    var k := FirstUngraded(students, pairs);
  }
}
