/**
 * `insert_mcp4`: the public administration database. 120 employees, 30
 * projects owned by drawn employees, three budget requests for every
 * project id the `SELECT proj_id FROM Projects` scan returns (one per
 * fixed quarter), 80 events of drawn projects and 300 supplies requests
 * of drawn employees.
 */
module Admin {
  import opened Wrappers
  import opened Text
  import opened Sampling
  import opened Schema
  import opened Store
  import opened Seeding

  const Tables: seq<TableName> := [Employees, Projects, BudgetRequests, Events, SuppliesRequests]
  const PayGrades: seq<string> := ["9급", "8급", "7급", "6급", "5급", "4급"]
  const Depts: seq<string> := ["문화정책과", "관광산업과", "스포츠진흥과", "국제협력담당관", "홍보담당관"]
  const Categories: seq<string> := ["문화", "관광", "스포츠"]
  const Quarters: seq<string> := ["2024Q4", "2025Q1", "2025Q2"]
  const BudgetStatuses: seq<string> := ["제출", "검토중", "승인", "반려"]
  const Venues: seq<string> := ["세종문화회관", "DDP", "광화문광장", "부산 벡스코", "인천 아시아드주경기장"]
  const Items: seq<string> := ["A4용지", "볼펜", "현수막", "배너", "기념품", "행사간식"]
  const Purposes: seq<string> := ["회의", "행사", "홍보물", "민원 대응"]
  const Approvals: seq<string> := ["대기", "승인", "반려"]

  /** The loop counts, fixed in the code. */
  const NumEmployees: nat := 120
  const NumProjects: nat := 30
  const NumEvents: nat := 80
  const NumSupplies: nat := 300

  datatype EmployeeDraw = EmployeeDraw(name: string, payGrade: nat, dept: nat, joinDate: Day)
  datatype ProjectDraw = ProjectDraw(startDate: Day, duration: nat, category: nat, owner: nat)
  datatype BudgetDraw = BudgetDraw(amount: nat, status: nat)
  datatype EventDraw = EventDraw(project: nat, eventName: string, eventDate: Day, venue: nat, attendance: nat)
  datatype SupplyDraw = SupplyDraw(employee: nat, requestDate: Day, item: nat, quantity: nat, purpose: nat, approval: nat)

  /**
   * The random and Faker draws of one run, by call site and loop position;
   * `budget(k, q)` is drawn for quarter q of the k-th scanned project.
   */
  datatype Oracle = Oracle(
    employee: nat -> EmployeeDraw,
    project: nat -> ProjectDraw,
    budget: (nat, nat) -> BudgetDraw,
    event: nat -> EventDraw,
    supply: nat -> SupplyDraw)

  function EmployeeRow(d: EmployeeDraw): (r: Row)
    ensures r.Employee? && r.payGrade in PayGrades && r.dept in Depts
  {
    Employee(d.name, Choice(PayGrades, d.payGrade), Choice(Depts, d.dept), d.joinDate)
  }

  function EmployeeRows(o: Oracle): seq<Row>
  {
    seq(NumEmployees, i requires 0 <= i => EmployeeRow(o.employee(i)))
  }

  /** Project i (0-based): `프로젝트_{i+1:02d}`, ending 90 to 365 days after it starts. */
  function ProjectRow(employeeIds: seq<nat>, i: nat, d: ProjectDraw): (r: Row)
    ensures r.Project? && r.title == "프로젝트_" + ZeroPad(i + 1, 2)
    ensures r.startDate + 90 <= r.endDate <= r.startDate + 365
    ensures r.category in Categories && r.ownerEmp == Pick(employeeIds, d.owner)
  {
    Project("프로젝트_" + ZeroPad(i + 1, 2), Choice(Categories, d.category), d.startDate,
            d.startDate + RandInt(d.duration, 90, 365), Pick(employeeIds, d.owner))
  }

  function ProjectRows(employeeIds: seq<nat>, o: Oracle): seq<Row>
  {
    seq(NumProjects, i requires 0 <= i => ProjectRow(employeeIds, i, o.project(i)))
  }

  /** The request of project pid for quarter q, amount in [5000000, 200000000]. */
  function BudgetRow(pid: nat, q: nat, d: BudgetDraw): (r: Row)
    requires q < |Quarters|
    ensures r.BudgetRequest? && r.projId == Some(pid) && r.quarter == Quarters[q]
    ensures References(r) == [ForeignKey(Projects, Some(pid))]
    ensures 5000000 <= r.amount <= 200000000 && r.status in BudgetStatuses
  {
    BudgetRequest(Some(pid), Quarters[q], RandInt(d.amount, 5000000, 200000000), Choice(BudgetStatuses, d.status))
  }

  /** The inner loop for the k-th scanned project: one request per quarter, in order. */
  function BudgetBlock(pid: nat, k: nat, o: Oracle): seq<Row>
  {
    seq(|Quarters|, q requires 0 <= q < |Quarters| => BudgetRow(pid, q, o.budget(k, q)))
  }

  /** The requests of all scanned projects, project by project. */
  function BudgetAll(pids: seq<nat>, o: Oracle): seq<Row>
    decreases |pids|
  {
    if |pids| == 0 then []
    else
      var n := |pids| - 1;
      BudgetAll(pids[..n], o) + BudgetBlock(pids[n], n, o)
  }

  function EventRow(projectIds: seq<nat>, d: EventDraw): (r: Row)
    ensures r.Event? && r.projId == Pick(projectIds, d.project)
    ensures r.location in Venues && 100 <= r.attendance <= 10000
  {
    Event(Pick(projectIds, d.project), d.eventName, d.eventDate, Choice(Venues, d.venue), RandInt(d.attendance, 100, 10000))
  }

  function EventRows(projectIds: seq<nat>, o: Oracle): seq<Row>
  {
    seq(NumEvents, i requires 0 <= i => EventRow(projectIds, o.event(i)))
  }

  function SupplyRow(employeeIds: seq<nat>, d: SupplyDraw): (r: Row)
    ensures r.SuppliesRequest? && r.empId == Pick(employeeIds, d.employee)
    ensures r.item in Items && 1 <= r.quantity <= 200 && r.purpose in Purposes && r.approvalStatus in Approvals
  {
    SuppliesRequest(Pick(employeeIds, d.employee), d.requestDate, Choice(Items, d.item),
                    RandInt(d.quantity, 1, 200), Choice(Purposes, d.purpose), Choice(Approvals, d.approval))
  }

  function SupplyRows(employeeIds: seq<nat>, o: Oracle): seq<Row>
  {
    seq(NumSupplies, i requires 0 <= i => SupplyRow(employeeIds, o.supply(i)))
  }

  // ---------------------------------------------------------------------
  // Every generated row passes the checks of its INSERT
  // ---------------------------------------------------------------------

  lemma EmployeesFit(db: Database, o: Oracle)
    requires Employees in db
    ensures AllFit(db, Employees, EmployeeRows(o))
  {
    forall j | 0 <= j < NumEmployees
      ensures Fits(db, Employees, EmployeeRows(o)[j]) && UniqueKey(EmployeeRows(o)[j]).None?
    {
      assert EmployeeRows(o)[j] == EmployeeRow(o.employee(j));
    }
  }

  lemma ProjectsFit(db: Database, o: Oracle)
    requires Projects in db && Employees in db
    ensures AllFit(db, Projects, ProjectRows(db[Employees].ids, o))
  {
    var ids := db[Employees].ids;
    forall j | 0 <= j < NumProjects
      ensures Fits(db, Projects, ProjectRows(ids, o)[j]) && UniqueKey(ProjectRows(ids, o)[j]).None?
    {
      var r := ProjectRows(ids, o)[j];
      assert r == ProjectRow(ids, j, o.project(j));
      assert References(r) == [ForeignKey(Employees, r.ownerEmp)];
      assert RefOk(db, References(r)[0]);
    }
  }

  lemma BudgetBlockFits(db: Database, pid: nat, k: nat, o: Oracle)
    requires BudgetRequests in db && Projects in db && pid in db[Projects].ids
    ensures AllFit(db, BudgetRequests, BudgetBlock(pid, k, o))
  {
    forall q | 0 <= q < |Quarters|
      ensures Fits(db, BudgetRequests, BudgetBlock(pid, k, o)[q]) && UniqueKey(BudgetBlock(pid, k, o)[q]).None?
    {
      assert BudgetBlock(pid, k, o)[q] == BudgetRow(pid, q, o.budget(k, q));
    }
  }

  lemma EventsFit(db: Database, o: Oracle)
    requires Events in db && Projects in db
    ensures AllFit(db, Events, EventRows(db[Projects].ids, o))
  {
    var ids := db[Projects].ids;
    forall j | 0 <= j < NumEvents
      ensures Fits(db, Events, EventRows(ids, o)[j]) && UniqueKey(EventRows(ids, o)[j]).None?
    {
      var r := EventRows(ids, o)[j];
      assert r == EventRow(ids, o.event(j));
      assert References(r) == [ForeignKey(Projects, r.projId)];
      assert RefOk(db, References(r)[0]);
    }
  }

  lemma SuppliesFit(db: Database, o: Oracle)
    requires SuppliesRequests in db && Employees in db
    ensures AllFit(db, SuppliesRequests, SupplyRows(db[Employees].ids, o))
  {
    var ids := db[Employees].ids;
    forall j | 0 <= j < NumSupplies
      ensures Fits(db, SuppliesRequests, SupplyRows(ids, o)[j]) && UniqueKey(SupplyRows(ids, o)[j]).None?
    {
      var r := SupplyRows(ids, o)[j];
      assert r == SupplyRow(ids, o.supply(j));
      assert References(r) == [ForeignKey(Employees, r.empId)];
      assert RefOk(db, References(r)[0]);
    }
  }

  // ---------------------------------------------------------------------
  // The committed state of a seeding run
  // ---------------------------------------------------------------------

  /** The five tables of the domain exist. */
  predicate HasTables(db: Database)
  {
    Employees in db && Projects in db && BudgetRequests in db && Events in db && SuppliesRequests in db
  }

  function SeededEmployees(db: Database, o: Oracle): Table
    requires Employees in db
  {
    AppendAll(db[Employees], EmployeeRows(o))
  }

  /** Projects after the run: owners drawn from the employees after the employee loop. */
  function SeededProjects(db: Database, o: Oracle): Table
    requires Employees in db && Projects in db
  {
    AppendAll(db[Projects], ProjectRows(SeededEmployees(db, o).ids, o))
  }

  /** BudgetRequests after the run, for the order `pids` in which the scan returned the project ids. */
  function SeededBudgets(db: Database, o: Oracle, pids: seq<nat>): Table
    requires BudgetRequests in db
  {
    AppendAll(db[BudgetRequests], BudgetAll(pids, o))
  }

  /** Events after the run: projects drawn from all projects after the project loop. */
  function SeededEvents(db: Database, o: Oracle): Table
    requires Employees in db && Projects in db && Events in db
  {
    AppendAll(db[Events], EventRows(SeededProjects(db, o).ids, o))
  }

  function SeededSupplies(db: Database, o: Oracle): Table
    requires Employees in db && SuppliesRequests in db
  {
    AppendAll(db[SuppliesRequests], SupplyRows(SeededEmployees(db, o).ids, o))
  }

  /** The database `insert_mcp4` commits, given the order of the project scan. */
  function Seeded4(db: Database, o: Oracle, pids: seq<nat>): Database
    requires HasTables(db)
  {
    db[Employees := SeededEmployees(db, o)]
      [Projects := SeededProjects(db, o)]
      [BudgetRequests := SeededBudgets(db, o, pids)]
      [Events := SeededEvents(db, o)]
      [SuppliesRequests := SeededSupplies(db, o)]
  }

  /** What `SELECT proj_id FROM Projects` may return: every project id once, in any order. */
  predicate ScanOf(pids: seq<nat>, t: Table)
  {
    multiset(pids) == multiset(t.ids)
  }

  // ---------------------------------------------------------------------
  // What a seeding run promises
  // ---------------------------------------------------------------------

  /**
   * Every project of the run is numbered from 01, ends 90 to 365 days after
   * it starts and, with 120 employees in place, has an owner.
   */
  lemma ProjectDurations(db: Database, o: Oracle, k: nat)
    requires Employees in db && Projects in db && k < NumProjects
    ensures |db[Projects].rows| + k < |SeededProjects(db, o).rows|
    ensures SeededProjects(db, o).rows[|db[Projects].rows| + k].Project?
    ensures SeededProjects(db, o).rows[|db[Projects].rows| + k].title == "프로젝트_" + ZeroPad(k + 1, 2)
    ensures SeededProjects(db, o).rows[|db[Projects].rows| + k].startDate + 90
      <= SeededProjects(db, o).rows[|db[Projects].rows| + k].endDate
      <= SeededProjects(db, o).rows[|db[Projects].rows| + k].startDate + 365
    ensures SeededProjects(db, o).rows[|db[Projects].rows| + k].ownerEmp.Some?
  {
    var ids := SeededEmployees(db, o).ids;
    assert |ids| == |db[Employees].ids| + NumEmployees;
    assert |SeededProjects(db, o).rows| == |db[Projects].rows| + NumProjects;
    assert SeededProjects(db, o).rows[|db[Projects].rows| + k] == ProjectRow(ids, k, o.project(k));
  }

  /** The project titles of a run are pairwise distinct. */
  lemma ProjectTitlesDistinct(db: Database, o: Oracle, j: nat, k: nat)
    requires Employees in db && Projects in db && j < k < NumProjects
    ensures |db[Projects].rows| + k < |SeededProjects(db, o).rows|
    ensures SeededProjects(db, o).rows[|db[Projects].rows| + j].Project?
    ensures SeededProjects(db, o).rows[|db[Projects].rows| + k].Project?
    ensures SeededProjects(db, o).rows[|db[Projects].rows| + j].title
      != SeededProjects(db, o).rows[|db[Projects].rows| + k].title
  {
    ProjectDurations(db, o, j);
    ProjectDurations(db, o, k);
    TitlesDistinct(j + 1, k + 1);
  }

  /** Distinct project numbers give distinct titles. */
  lemma TitlesDistinct(a: nat, b: nat)
    requires a != b
    ensures "프로젝트_" + ZeroPad(a, 2) != "프로젝트_" + ZeroPad(b, 2)
  {
    var prefix := "프로젝트_";
    if ZeroPad(a, 2) == ZeroPad(b, 2) {
      ZeroPadInjective(a, b, 2);
    }
    assert (prefix + ZeroPad(a, 2))[|prefix|..] == ZeroPad(a, 2);
    assert (prefix + ZeroPad(b, 2))[|prefix|..] == ZeroPad(b, 2);
  }

  /** The requests come in blocks of three, one block per scanned project, one request per quarter. */
  lemma {:induction false} BudgetLayout(pids: seq<nat>, o: Oracle, k: nat, q: nat)
    requires k < |pids| && q < |Quarters|
    ensures |BudgetAll(pids, o)| == |Quarters| * |pids|
    ensures BudgetAll(pids, o)[|Quarters| * k + q] == BudgetRow(pids[k], q, o.budget(k, q))
    decreases |pids|
  {
    var n := |pids| - 1;
    BudgetLength(pids[..n], o);
    if k < n {
      BudgetLayout(pids[..n], o, k, q);
      assert pids[..n][k] == pids[k];
    } else {
      assert BudgetAll(pids, o)[|Quarters| * k + q] == BudgetBlock(pids[n], n, o)[q];
    }
  }

  lemma {:induction false} BudgetLength(pids: seq<nat>, o: Oracle)
    ensures |BudgetAll(pids, o)| == |Quarters| * |pids|
    decreases |pids|
  {
    if |pids| > 0 {
      BudgetLength(pids[..|pids| - 1], o);
    }
  }

  /** Every row of a project's block names that project and nothing else. */
  lemma BudgetBlockRefs(pid: nat, k: nat, o: Oracle)
    ensures forall q :: 0 <= q < |BudgetBlock(pid, k, o)| ==>
      References(BudgetBlock(pid, k, o)[q]) == [ForeignKey(Projects, Some(pid))]
  {
    forall q | 0 <= q < |Quarters|
      ensures References(BudgetBlock(pid, k, o)[q]) == [ForeignKey(Projects, Some(pid))]
    {
      assert BudgetBlock(pid, k, o)[q] == BudgetRow(pid, q, o.budget(k, q));
    }
  }

  /** Each scanned project id gets three requests for every time the scan returned it. */
  lemma {:induction false} BudgetCount(pids: seq<nat>, o: Oracle, pid: nat)
    ensures CountReferences(BudgetAll(pids, o), Projects, pid) == |Quarters| * multiset(pids)[pid]
    decreases |pids|
  {
    if |pids| > 0 {
      var n := |pids| - 1;
      var front := BudgetAll(pids[..n], o);
      var block := BudgetBlock(pids[n], n, o);
      assert BudgetAll(pids, o) == front + block;
      BudgetCount(pids[..n], o, pid);
      CountReferencesConcat(front, block, Projects, pid);
      BudgetBlockRefs(pids[n], n, o);
      CountReferencesBlock(block, Projects, pids[n], pid);
      assert |block| == |Quarters|;
      MultisetSnoc(pids);
      assert multiset{pids[n]}[pid] == if pids[n] == pid then 1 else 0;
    }
  }

  /** An id the sequence had not handed out before the run occurs once among the project ids after it. */
  lemma NewProjectOnce(db: Database, o: Oracle, k: nat)
    requires Employees in db && Projects in db && WellFormed(db[Projects]) && k < NumProjects
    ensures multiset(SeededProjects(db, o).ids)[db[Projects].nextId + k] == 1
  {
    var t := db[Projects];
    var pid := t.nextId + k;
    assert pid !in t.ids by {
      forall i | 0 <= i < |t.ids|
        ensures t.ids[i] != pid
      {
      }
    }
    RangeOccurrences(t.nextId, NumProjects, pid);
    assert SeededProjects(db, o).ids == t.ids + Range(t.nextId, NumProjects);
  }

  /**
   * Every project the run inserts gets exactly three budget requests,
   * whatever order the scan returned the ids in: its own block, and no older
   * request can name an id the sequence had not handed out yet.
   */
  lemma ThreeRequestsPerProject(db: Database, o: Oracle, pids: seq<nat>, k: nat)
    requires Intact(db) && HasTables(db) && k < NumProjects
    requires ScanOf(pids, SeededProjects(db, o))
    ensures CountReferences(SeededBudgets(db, o, pids).rows, Projects, db[Projects].nextId + k) == 3
  {
    var pid: nat := db[Projects].nextId + k;
    assert TableIntact(db, Projects);
    NoReferencesToNewIds(db, BudgetRequests, Projects, pid);
    NewProjectOnce(db, o, k);
    ScannedOnce(db[BudgetRequests], pids, o, pid);
  }

  /** A project id scanned once, and named by no older request, has three requests after the loop. */
  lemma ScannedOnce(t: Table, pids: seq<nat>, o: Oracle, pid: nat)
    requires CountReferences(t.rows, Projects, pid) == 0 && multiset(pids)[pid] == 1
    ensures CountReferences(AppendAll(t, BudgetAll(pids, o)).rows, Projects, pid) == 3
  {
    BudgetCount(pids, o, pid);
    CountReferencesConcat(t.rows, BudgetAll(pids, o), Projects, pid);
  }

  /** Request q of the k-th scanned project is for the q-th fixed quarter and names that project. */
  lemma RequestQuarters(db: Database, o: Oracle, pids: seq<nat>, k: nat, q: nat)
    requires BudgetRequests in db && k < |pids| && q < |Quarters|
    ensures |db[BudgetRequests].rows| + 3 * k + q < |SeededBudgets(db, o, pids).rows|
    ensures SeededBudgets(db, o, pids).rows[|db[BudgetRequests].rows| + 3 * k + q].BudgetRequest?
    ensures SeededBudgets(db, o, pids).rows[|db[BudgetRequests].rows| + 3 * k + q].projId == Some(pids[k])
    ensures SeededBudgets(db, o, pids).rows[|db[BudgetRequests].rows| + 3 * k + q].quarter == Quarters[q]
  {
    BudgetLayout(pids, o, k, q);
  }

  /** With 30 projects in place, every event of the run names a project; 100 to 10000 attend. */
  lemma EventsOfProjects(db: Database, o: Oracle, j: nat)
    requires Employees in db && Projects in db && Events in db && j < NumEvents
    ensures |db[Events].rows| + j < |SeededEvents(db, o).rows|
    ensures SeededEvents(db, o).rows[|db[Events].rows| + j].Event?
    ensures SeededEvents(db, o).rows[|db[Events].rows| + j].projId.Some?
    ensures 100 <= SeededEvents(db, o).rows[|db[Events].rows| + j].attendance <= 10000
  {
    var ids := SeededProjects(db, o).ids;
    assert |ids| == |db[Projects].ids| + NumProjects;
    assert |SeededEvents(db, o).rows| == |db[Events].rows| + NumEvents;
    assert SeededEvents(db, o).rows[|db[Events].rows| + j] == EventRow(ids, o.event(j));
  }

  /** With 120 employees in place, every supplies request names an employee; 1 to 200 items. */
  lemma SuppliesOfEmployees(db: Database, o: Oracle, j: nat)
    requires Employees in db && SuppliesRequests in db && j < NumSupplies
    ensures |db[SuppliesRequests].rows| + j < |SeededSupplies(db, o).rows|
    ensures SeededSupplies(db, o).rows[|db[SuppliesRequests].rows| + j].SuppliesRequest?
    ensures SeededSupplies(db, o).rows[|db[SuppliesRequests].rows| + j].empId.Some?
    ensures 1 <= SeededSupplies(db, o).rows[|db[SuppliesRequests].rows| + j].quantity <= 200
  {
    var ids := SeededEmployees(db, o).ids;
    assert |ids| == |db[Employees].ids| + NumEmployees;
    assert |SeededSupplies(db, o).rows| == |db[SuppliesRequests].rows| + NumSupplies;
    assert SeededSupplies(db, o).rows[|db[SuppliesRequests].rows| + j] == SupplyRow(ids, o.supply(j));
  }

  // ---------------------------------------------------------------------
  // The run
  // ---------------------------------------------------------------------

  /** Inserting the next scanned project's block extends the batch by that block. */
  lemma BudgetStep(t: Table, pids: seq<nat>, k: nat, o: Oracle)
    requires k < |pids|
    ensures AppendAll(AppendAll(t, BudgetAll(pids[..k], o)), BudgetBlock(pids[k], k, o))
      == AppendAll(t, BudgetAll(pids[..k + 1], o))
  {
    assert pids[..k + 1][..k] == pids[..k];
    AppendAllConcat(t, BudgetAll(pids[..k], o), BudgetBlock(pids[k], k, o));
  }

  /** The nested loop over the scanned project ids and the three quarters. */
  method InsertBudgets(conn: Connection, pids: seq<nat>, o: Oracle)
    requires conn.Valid() && BudgetRequests in conn.tables && Projects in conn.tables
    requires forall k :: 0 <= k < |pids| ==> pids[k] in conn.tables[Projects].ids
    modifies conn
    ensures conn.Valid()
    ensures conn.tables == old(conn.tables)[BudgetRequests :=
      AppendAll(old(conn.tables[BudgetRequests]), BudgetAll(pids, o))]
  {
    var before := conn.tables[BudgetRequests];
    var k := 0;
    assert AppendAll(before, BudgetAll(pids[..0], o)) == before;
    UpdateSame(old(conn.tables), BudgetRequests);
    while k < |pids|
      invariant 0 <= k <= |pids|
      invariant conn.Valid()
      invariant conn.tables == old(conn.tables)[BudgetRequests := AppendAll(before, BudgetAll(pids[..k], o))]
    {
      assert conn.tables[Projects] == old(conn.tables)[Projects];
      BudgetBlockFits(conn.tables, pids[k], k, o);
      ghost var sofar := conn.tables[BudgetRequests];
      conn.InsertAll(BudgetRequests, BudgetBlock(pids[k], k, o));
      BudgetStep(before, pids, k, o);
      UpdateTwice(old(conn.tables), BudgetRequests, sofar, conn.tables[BudgetRequests]);
      k := k + 1;
    }
    assert pids[..k] == pids;
  }

  /** Employees and projects, then the scan the budget loop iterates over. */
  method InsertStaffAndProjects(conn: Connection, o: Oracle) returns (pids: seq<nat>)
    requires conn.Valid() && HasTables(conn.tables)
    modifies conn
    ensures conn.Valid()
    ensures conn.tables == old(conn.tables)
      [Employees := SeededEmployees(old(conn.tables), o)]
      [Projects := SeededProjects(old(conn.tables), o)]
    ensures ScanOf(pids, SeededProjects(old(conn.tables), o))
  {
    EmployeesFit(conn.tables, o);
    conn.InsertAll(Employees, EmployeeRows(o));
    ProjectsFit(conn.tables, o);
    conn.InsertAll(Projects, ProjectRows(conn.tables[Employees].ids, o));
    pids := conn.SelectIds(Projects);
  }

  /** The event loop and the supplies loop, drawing from the projects and employees in place. */
  method InsertEventsAndSupplies(conn: Connection, o: Oracle)
    requires conn.Valid() && HasTables(conn.tables)
    modifies conn
    ensures conn.Valid()
    ensures conn.tables == old(conn.tables)
      [Events := AppendAll(old(conn.tables[Events]), EventRows(old(conn.tables[Projects].ids), o))]
      [SuppliesRequests := AppendAll(old(conn.tables[SuppliesRequests]), SupplyRows(old(conn.tables[Employees].ids), o))]
  {
    EventsFit(conn.tables, o);
    conn.InsertAll(Events, EventRows(conn.tables[Projects].ids, o));
    SuppliesFit(conn.tables, o);
    conn.InsertAll(SuppliesRequests, SupplyRows(conn.tables[Employees].ids, o));
  }

  /** The inserts of a run that found Employees empty, on the open transaction. */
  method Populate(conn: Connection, o: Oracle) returns (pids: seq<nat>)
    requires conn.Valid() && HasTables(conn.tables)
    modifies conn
    ensures conn.Valid()
    ensures ScanOf(pids, SeededProjects(old(conn.tables), o))
    ensures conn.tables == Seeded4(old(conn.tables), o, pids)
  {
    ghost var db := conn.tables;
    pids := InsertStaffAndProjects(conn, o);
    ghost var staffed := conn.tables;
    assert staffed[BudgetRequests] == db[BudgetRequests];
    forall k | 0 <= k < |pids|
      ensures pids[k] in conn.tables[Projects].ids
    {
      assert pids[k] in multiset(conn.tables[Projects].ids);
    }
    InsertBudgets(conn, pids, o);
    ghost var budgeted := conn.tables;
    assert budgeted[Events] == db[Events] && budgeted[SuppliesRequests] == db[SuppliesRequests];
    assert budgeted[Employees] == SeededEmployees(db, o) && budgeted[Projects] == SeededProjects(db, o);
    InsertEventsAndSupplies(conn, o);
  }

  /**
   * `insert_mcp4`. A populated Employees table leaves the server as it was;
   * otherwise the run commits `Seeded4` of the prepared tables for the order
   * in which the project scan returned the ids.
   */
  method InsertMcp4(server: Server, o: Oracle) returns (outcome: Outcome, pids: seq<nat>)
    requires server.Valid()
    modifies server
    ensures server.Valid()
    ensures outcome != RolledBack
    ensures outcome == AlreadySeeded <==> Populated(old(server.databases), "mcp4", Employees)
    ensures outcome == AlreadySeeded ==> server.databases == old(server.databases)
    ensures outcome == Seeded ==> ScanOf(pids, SeededProjects(Prepared(old(server.databases), "mcp4", Tables), o))
    ensures outcome == Seeded ==>
      server.databases == old(server.databases)["mcp4" := Seeded4(Prepared(old(server.databases), "mcp4", Tables), o, pids)]
  {
    var conn, count := Open(server, "mcp4", Tables, Employees);
    if count > 0 {
      return AlreadySeeded, [];
    }
    pids := Populate(conn, o);
    conn.Commit();
    WithDatabaseOverwrite(old(server.databases), "mcp4", conn.tables);
    return Seeded, pids;
  }
}
