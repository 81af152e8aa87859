/**
 * The tables the seeding engine creates, one row constructor per table.
 * Every column that carries a foreign key is nullable in the DDL and is
 * filled by a `(SELECT … ORDER BY RANDOM() LIMIT 1)` sub-query, which
 * yields SQL NULL on an empty parent table: those columns are
 * `Option<nat>`. Dates are whole days (`Day`), NUMERIC amounts are
 * integers, a student's NUMERIC(3,2) gpa is kept in hundredths, and the
 * scores of a grade row are reals.
 */
module Schema {
  import opened Wrappers

  /** The tables of the five databases, by their DDL names (mcp2 and mcp3 both have a `Users`). */
  datatype TableName =
    | Customers | Orders | Campaigns | Campaign_Performance
    | Users | Transactions | PaymentMethods
    | UserActivity | Feedback
    | Employees | Projects | BudgetRequests | Events | SuppliesRequests
    | Students | Professors | Courses | Enrollments | Attendance | Grades

  /** A calendar date, as a day number. */
  type Day = int

  datatype Row =
    // mcp1: e-commerce and marketing
    | Customer(name: string, segment: string, signupDate: Day, channel: string)
    | Order(customerId: Option<nat>, orderDate: Day, amount: int, productId: int)
    | Campaign(campaignName: string, startDate: Day, endDate: Day, budget: int)
    | CampaignPerformance(campaignId: Option<nat>, date: Day, impressions: int, clicks: int, conversions: int)
    // mcp2: payments
    | PaymentUser(name: string, joinDate: Day, segment: string)
    | Transaction(userId: Option<nat>, date: Day, kind: string, amount: int)
    | PaymentMethod(transactionId: Option<nat>, payMethod: string, status: string)
    // mcp3: service logs and feedback
    | ServiceUser(name: string, signupDate: Day, channel: string)
    | Activity(userId: Option<nat>, activityDate: Day, activityType: string)
    | FeedbackEntry(userId: Option<nat>, date: Day, rating: int, sentiment: string, category: string, comments: string)
    // mcp4: public administration
    | Employee(name: string, payGrade: string, dept: string, joinDate: Day)
    | Project(title: string, category: string, startDate: Day, endDate: Day, ownerEmp: Option<nat>)
    | BudgetRequest(projId: Option<nat>, quarter: string, amount: int, status: string)
    | Event(projId: Option<nat>, eventName: string, eventDate: Day, location: string, attendance: int)
    | SuppliesRequest(empId: Option<nat>, requestDate: Day, item: string, quantity: int, purpose: string, approvalStatus: string)
    // mcp5: academic administration
    | Student(studentNumber: string, name: string, classYear: int, major: string, admissionDate: Day, status: string, gpaCents: int)
    | Professor(name: string, dept: string, position: string)
    | Course(courseCode: string, courseName: string, credits: int, semester: string, profId: Option<nat>, maxStudents: int)
    | Enrollment(studentId: Option<nat>, courseId: Option<nat>, semester: string, enrollmentDate: Day)
    | AttendanceRecord(studentId: Option<nat>, courseId: Option<nat>, attendanceDate: Day, status: string, semester: string)
    | Grade(studentId: Option<nat>, courseId: Option<nat>, semester: string,
            midtermScore: real, finalScore: real, assignmentScore: real, totalScore: real,
            letterGrade: string, gradePoint: real)

  /** The table a row belongs to (the same name is used by two databases for `Users`). */
  function TableOf(r: Row): TableName
  {
    match r
    case Customer(_, _, _, _) => Customers
    case Order(_, _, _, _) => Orders
    case Campaign(_, _, _, _) => Campaigns
    case CampaignPerformance(_, _, _, _, _) => Campaign_Performance
    case PaymentUser(_, _, _) => Users
    case Transaction(_, _, _, _) => Transactions
    case PaymentMethod(_, _, _) => PaymentMethods
    case ServiceUser(_, _, _) => Users
    case Activity(_, _, _) => UserActivity
    case FeedbackEntry(_, _, _, _, _, _) => Feedback
    case Employee(_, _, _, _) => Employees
    case Project(_, _, _, _, _) => Projects
    case BudgetRequest(_, _, _, _) => BudgetRequests
    case Event(_, _, _, _, _) => Events
    case SuppliesRequest(_, _, _, _, _, _) => SuppliesRequests
    case Student(_, _, _, _, _, _, _) => Students
    case Professor(_, _, _) => Professors
    case Course(_, _, _, _, _, _) => Courses
    case Enrollment(_, _, _, _) => Enrollments
    case AttendanceRecord(_, _, _, _, _) => Attendance
    case Grade(_, _, _, _, _, _, _, _, _) => Grades
  }

  /** A `REFERENCES parent(id)` column of a row: the parent table and the value stored. */
  datatype ForeignKey = ForeignKey(parent: TableName, value: Option<nat>)

  /** The foreign-key columns of a row, as the DDL declares them. */
  function References(r: Row): seq<ForeignKey>
  {
    match r
    case Order(c, _, _, _) => [ForeignKey(Customers, c)]
    case CampaignPerformance(c, _, _, _, _) => [ForeignKey(Campaigns, c)]
    case Transaction(u, _, _, _) => [ForeignKey(Users, u)]
    case PaymentMethod(t, _, _) => [ForeignKey(Transactions, t)]
    case Activity(u, _, _) => [ForeignKey(Users, u)]
    case FeedbackEntry(u, _, _, _, _, _) => [ForeignKey(Users, u)]
    case Project(_, _, _, _, e) => [ForeignKey(Employees, e)]
    case BudgetRequest(p, _, _, _) => [ForeignKey(Projects, p)]
    case Event(p, _, _, _, _) => [ForeignKey(Projects, p)]
    case SuppliesRequest(e, _, _, _, _, _) => [ForeignKey(Employees, e)]
    case Course(_, _, _, _, p, _) => [ForeignKey(Professors, p)]
    case Enrollment(s, c, _, _) => [ForeignKey(Students, s), ForeignKey(Courses, c)]
    case AttendanceRecord(s, c, _, _, _) => [ForeignKey(Students, s), ForeignKey(Courses, c)]
    case Grade(s, c, _, _, _, _, _, _, _) => [ForeignKey(Students, s), ForeignKey(Courses, c)]
    case _ => []
  }

  /** The value of the row's UNIQUE column, if its table has one (only `student_number`). */
  function UniqueKey(r: Row): Option<string>
  {
    if r.Student? then Some(r.studentNumber) else None
  }
}
