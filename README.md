# NXTCloud MCP seed data and IAM account tooling, modelled in Dafny

The repository contains two small tools.

* `mcp/mcp_data_initializer.py` seeds five PostgreSQL databases with synthetic
  data for five analysis scenarios:
  * `mcp1`: e-commerce and marketing;
  * `mcp2`: payments;
  * `mcp3`: IT-service logs and feedback;
  * `mcp4`: public administration projects;
  * `mcp5`: academic records.

  Each `insert_mcpN` follows the same steps:
  1. create the database if it is missing;
  2. create its tables;
  3. return without inserting anything if the domain's sentinel table already has rows;
  4. insert parent rows;
  5. insert child rows whose foreign keys are drawn from parent rows already present;
  6. commit once.

  `insert_mcp5` also contains the real algorithms:
  * a student-number counter shared by a high-GPA batch and a normal batch;
  * a running long-absence quota with a high-GPA sub-quota;
  * 15 attendance sessions per enrolment of an active student;
  * a grade per distinct enrolment pair, with pass/fail-conditioned scores.
* `iamuser/` is an IAM account generator. `app.py` keeps a registry of
  CloudFormation stack records and does the bookkeeping around the
  `aws cloudformation create-stack` and `delete-stack` calls. It also builds the
  Markdown user table of an account sheet and parses the `CREATORS` list.
  `generate-template.py` builds the five policy ARNs, serialises them into the
  Python list literal embedded twice in the Lambda template, and reports the
  missing required variables.

## How the program is represented

**Database server.** `Store.Server` is a class holding the committed databases,
a map from database name to tables.
* A `Table` is a serial-id column `ids`, its `rows` and the next serial value `nextId`.
* `Store.Connection` is an open transaction: a working copy of one database's tables.
* `Commit` writes the working copy back.
* Returning without commit, as every sentinel exit does, discards it, including
  the `CREATE TABLE`s of that run.

**Schema constraints.** The schema's constraints are the precondition of
`Connection.Insert`:
* the table of each row;
* every `REFERENCES` column must hold NULL or an id present in the parent table;
* `student_number` must be `UNIQUE`.

`Connection.Valid()`, which is `Intact`, is the invariant every method keeps. So
each seeding routine is proved never to make the database reject a row on a
`REFERENCES` or `UNIQUE` check. The SERIAL primary key is not checked: `Intact`
takes every committed id to be below its sequence's next value (see "## Left out").

**Random draws.** Every draw from `random.*`, `faker.*`, `ORDER BY RANDOM() LIMIT 1`
and `datetime.now()` is an oracle argument: a function from the draw's position
to a draw. The properties are proved for every oracle.
* `randint(lo, hi)` maps a raw natural `k` to `lo + k % (hi-lo+1)`. Every value
  is in range and every value is reachable (`Sampling.RandIntReaches`).
* `random.random()` is a real in `[0, 1)`.
* `random.choices` is Python's own algorithm: cumulative weights, then a bisection.

**Unordered queries.** Queries without `ORDER BY` produce their rows in an order
the oracle does not fix. These are:
* the active students (line 646);
* the courses of a student (line 668);
* `SELECT DISTINCT` pairs (line 693);
* the project ids (line 400).

They are methods whose contracts only fix the multiset or set of what they
return. `InsertMcp4` and `InsertMcp5` hand back the trace of what those queries
returned, and their postconditions are stated over that trace.

**Numbers.** A GPA is held as integer hundredths, from `round(x, 2)`.
`int(NUM_STUDENTS * 0.2)` is `N / 5`. Rates, weights and scores are exact reals.

The IAM side is an in-memory `IamApp.Registry` class whose `stacks` field
stands for the JSON file. A CLI call is a `CliResult`, one of:
* `Raised`, for an exception;
* `Exited(returnCode, stackId)`, with the parsed `StackId` of standard output.

### Where the code and the repository's own description differ (the model follows the code)

* **Absence quota cap: 41, not 40.** The high-GPA branch of the absence quota
  tests `long_absent_count < 270 * 0.15`, that is `< 40.5`, so it can fire 41
  times, not 40. `Quota.HighGpaAtMost41` gives the bound, and
  `Quota.HighGpaReaches41` shows that 41 is reached.
* **High-GPA students are not scanned first.** The active-student scan has no
  `ORDER BY`, so the model takes it in any order.
* **Only the first batch can have a GPA of 4.0 or more.** Normal-batch GPAs are
  at most 3.90, so only the first batch can reach `gpa >= 4.0`
  (`Academic.HighGpaOnlyInFirstBatch`).
* **`update_stack_id` can update an older record.** It updates the FIRST record
  with the given name. After a redeployment of a group whose earlier record is
  still listed, the new stack id lands on the older record, and the new record
  keeps `""` (`IamApp.RedeploymentIdGoesToOldest`).
* **A failed redeployment deletes older records.** It removes every record of
  that stack name, older ones included (`IamApp.FailedDeployment`).
* **An empty ARN override is used as is.** A policy-ARN override set to the
  empty string is embedded as `""`, although `main` reports that variable as
  missing (`PolicyTemplate.EmptyOverrideKept`).
* **A NULL student aborts the grade loop.** An enrolment with a NULL student
  makes the grade loop read `fetchone()[0]` of an empty result and raise.
  Past the sentinel check this happens in two cases: an enrolment already in
  the table has a NULL student, or `NUM_STUDENTS` is 0 while `NUM_ENROLLMENTS`
  is positive, so every student sub-select of the enrolment loop finds no row.
  Nothing is committed, but the sequences of tables that were already there
  keep the values the run drew. This is the `RolledBack` outcome of
  `AcademicSeed.InsertMcp5`.
* **`NUM_ATTENDANCE_RECORDS` is never used.** The attendance volume follows from
  the enrolments alone.

## Model

| member | source | states |
|---|---|---|
| Store.Server.CreateDatabaseIfNotExists | mcp/mcp_data_initializer.py:39-53 | the catalog afterwards holds the database; an existing database keeps its tables, a new one is empty; every other database is untouched |
| Store.WithDatabaseIdempotent | mcp/mcp_data_initializer.py:39-53 | creating a database twice is the same as creating it once; existing databases are kept verbatim |
| Store.Connection.CreateTableIfNotExists | mcp/mcp_data_initializer.py:68-100 | an existing table keeps its rows, a missing one is created empty; the schema invariant is kept |
| Seeding.CreateTables | mcp/mcp_data_initializer.py:68-100 | after the DDL batch every listed table exists; tables already present are unchanged |
| Seeding.WithTables | mcp/mcp_data_initializer.py:68-100 | the table set afterwards is the old set plus the listed names, old tables being kept and new ones empty |
| Seeding.Open | mcp/mcp_data_initializer.py:62-107 | opening a domain creates the database, prepares its tables in a fresh transaction, and counts the sentinel table; the count is positive exactly when the committed database was already seeded |
| Seeding.Prepared | mcp/mcp_data_initializer.py:62-100 | after a run's DDL batch every table it lists exists in the working copy |
| Store.ParentRowsFit | mcp/mcp_data_initializer.py:210-214 | rows of one table with no REFERENCES and no UNIQUE column pass every INSERT check, whatever the database holds |
| Seeding.PreparedSentinel | mcp/mcp_data_initializer.py:102-107 | the sentinel count seen after the DDL is positive exactly when the committed sentinel table already had rows |
| Store.Connection.Count | mcp/mcp_data_initializer.py:102-103 | `SELECT COUNT(*)` is the number of rows of the table |
| Store.Connection.Insert | mcp/mcp_data_initializer.py:112-121 | an INSERT appends the row under the next serial id, returns that id, keeps every foreign key and unique key valid and changes no other table |
| Store.Connection.InsertAll | mcp/mcp_data_initializer.py:112-121 | a loop of INSERTs into one table appends exactly those rows in order under consecutive serial ids |
| Store.AppendIntact | mcp/mcp_data_initializer.py:70-96 | appending a row whose references exist and whose unique key is fresh preserves the referential and uniqueness constraints of the whole database |
| Store.CreateIntact | mcp/mcp_data_initializer.py:70-96 | adding an empty table preserves the constraints |
| Store.AppendAll | mcp/mcp_data_initializer.py:112-121 | inserting a batch extends ids by consecutive serials from `nextId`, rows by the batch, and advances `nextId` by its length |
| Store.AppendAllExtends | mcp/mcp_data_initializer.py:146-154 | inserting rows never removes ids, so a reference valid before stays valid |
| Store.RefsOkExtends | mcp/mcp_data_initializer.py:146-154 | a row whose references are valid in a database stays valid in every extension of it |
| Store.Pick | mcp/mcp_data_initializer.py:148 | `ORDER BY RANDOM() LIMIT 1` yields NULL exactly when the parent table is empty and otherwise an id present in it |
| Store.PickFromRun | mcp/mcp_data_initializer.py:146-154 | a random pick from a freshly inserted id run lands in that run |
| Store.Connection.SelectIds | mcp/mcp_data_initializer.py:400-401 | an unordered `SELECT id` returns every id of the table exactly once, in some order |
| Store.Connection.Commit | mcp/mcp_data_initializer.py:156 | commit replaces the committed database with the transaction's tables and changes no other database |
| Store.Connection.Abandon | mcp/mcp_data_initializer.py:699-740 | a connection left with its transaction open when the script raises: the committed tables keep their rows and ids, each sequence keeps the value the transaction drew, tables the transaction created are gone, and no other database changes |
| Store.AbortedIntact | mcp/mcp_data_initializer.py:466-521 | what an aborted transaction leaves satisfies every constraint, provided its sequences only moved forward |
| Store.AbortedUnchanged | mcp/mcp_data_initializer.py:466-521 | aborting a transaction that drew nothing leaves the committed database as it was |
| Store.CountReferencesBlock | mcp/mcp_data_initializer.py:134-144 | a block of child rows that all point at one parent contributes its length to that parent and nothing to any other |
| Store.NoReferencesToNewIds | mcp/mcp_data_initializer.py:134-144 | no child row in an intact database refers to a parent id not yet issued |
| Store.RangeOccurrences | mcp/mcp_data_initializer.py:132 | a run of fresh serial ids contains each of its ids exactly once |
| Sampling.RandInt | mcp/mcp_data_initializer.py:130 | `randint(lo, hi)` lies in the closed range |
| Sampling.RandIntReaches | mcp/mcp_data_initializer.py:130 | every value of the closed range is drawn by some raw draw |
| Sampling.Choice | mcp/mcp_data_initializer.py:117 | `random.choice` returns a member of the list |
| Sampling.ChoiceReaches | mcp/mcp_data_initializer.py:117 | every member of the list can be chosen |
| Sampling.Uniform | mcp/mcp_data_initializer.py:567 | `uniform(a, b)` lies in `[a, b)` |
| Sampling.Accumulate | mcp/mcp_data_initializer.py:703-710 | the cumulative weights start with the first weight and add one weight per step |
| Sampling.BisectRight | mcp/mcp_data_initializer.py:703-710 | bisection finds the first cumulative weight above the point: all earlier ones are at most it, the found one exceeds it |
| Sampling.ChoicesIndex | mcp/mcp_data_initializer.py:703-710 | `random.choices` yields an index into the population |
| Sampling.ChosenWeightPositive | mcp/mcp_data_initializer.py:703-710 | `random.choices` never selects an entry of weight zero |
| Sampling.BisectWeightPositive | mcp/mcp_data_initializer.py:703-710 | bisecting a point below the total over non-negative weights lands on a positive weight |
| Text.ZeroPad | mcp/mcp_data_initializer.py:565 | `f"{n:0Wd}"` is all digits and at least W characters long |
| Text.ZeroPadRoundTrip | mcp/mcp_data_initializer.py:565 | the zero-padded decimal reads back as the number |
| Text.ZeroPadInjective | mcp/mcp_data_initializer.py:565 | different numbers give different zero-padded strings |
| Text.ValueOfDecimal | mcp/mcp_data_initializer.py:565 | the decimal rendering of a natural reads back as that natural |
| Text.DecimalLength | mcp/mcp_data_initializer.py:563-565 | a number between 10^k and 10^(k+1) has k+1 digits |
| Text.Split | iamuser/app.py:29 | `str.split(sep)` gives at least one piece and no piece contains the separator |
| Text.SplitCount | iamuser/app.py:29 | `str.split(sep)` gives one more piece than there are separators |
| Text.Join | iamuser/app.py:29 | `sep.join(parts)`: the pieces with the separator between neighbours; see JoinSplit and SplitJoin for its round trips with Split |
| Text.JoinSplit | iamuser/app.py:29 | joining the pieces of a split with the separator gives back the string |
| Text.SplitJoin | iamuser/generate-template.py:47 | splitting a join of separator-free pieces gives back the pieces |
| Text.Strip | iamuser/app.py:29 | `str.strip()`; see StripSpec, StripIdempotent and StripTrimmed for what it removes and keeps |
| Text.StripSpec | iamuser/app.py:29 | `str.strip()` removes exactly the leading and trailing whitespace and keeps the middle |
| Text.StripIdempotent | iamuser/app.py:29 | stripping twice is stripping once |
| Text.StripTrimmed | iamuser/app.py:29 | a string without outer whitespace is unchanged by stripping |
| Text.SplitTerminated | iamuser/app.py:128-131 | splitting newline-terminated lines on newline gives the lines and one trailing empty piece |
| Commerce.CustomerRow | mcp/mcp_data_initializer.py:112-121 | a customer's segment and channel come from the fixed lists |
| Commerce.CampaignRow | mcp/mcp_data_initializer.py:124-131 | campaign i is named `Campaign_{i+1}`, ends 30 days after it starts, and has a budget in 1000..5000 |
| Commerce.PerformanceRow | mcp/mcp_data_initializer.py:136-144 | a performance row belongs to its campaign and day and has `1000 <= impressions <= 10000`, `100 <= clicks <= impressions`, `0 <= conversions <= clicks` |
| Commerce.OrderRow | mcp/mcp_data_initializer.py:146-154 | an order's customer is NULL exactly when there are no customers, otherwise an existing customer; amount in 10000..300000, product in 1..100 |
| Commerce.CustomersFit | mcp/mcp_data_initializer.py:112-121 | every customer row satisfies the Customers schema |
| Commerce.PerformanceFits | mcp/mcp_data_initializer.py:134-144 | every performance row of an existing campaign satisfies its schema and foreign key |
| Commerce.OrdersFit | mcp/mcp_data_initializer.py:146-154 | every order row satisfies the schema and its customer reference exists |
| Commerce.PerformanceLayout | mcp/mcp_data_initializer.py:134-144 | the performance batch is 30 rows per campaign in campaign order; row 30k+i is day `now-30+i` of campaign k |
| Commerce.PerformanceLength | mcp/mcp_data_initializer.py:134-144 | the performance batch has 30 rows per campaign |
| Commerce.PerformanceCount | mcp/mcp_data_initializer.py:134-144 | each campaign id receives 30 rows per occurrence in the id list |
| Commerce.ThirtyDaysPerCampaign | mcp/mcp_data_initializer.py:123-144 | every campaign inserted by the run has exactly 30 performance rows |
| Commerce.OrdersReferToNewCustomers | mcp/mcp_data_initializer.py:112-154 | on an empty Customers table every order refers to one of the customers inserted by the run |
| Commerce.InsertCampaigns | mcp/mcp_data_initializer.py:123-132 | `campaign_ids` is exactly the run of serial ids issued to the new campaigns, in insertion order, and the campaigns are appended |
| Commerce.InsertPerformance | mcp/mcp_data_initializer.py:134-144 | the nested loop appends exactly the performance batch of the id list |
| Commerce.InsertOrders | mcp/mcp_data_initializer.py:146-154 | the loop appends exactly the order batch drawn against the current customers |
| Commerce.Populate | mcp/mcp_data_initializer.py:109-155 | the data phase leaves exactly the four seeded tables |
| Commerce.InsertMcp1 | mcp/mcp_data_initializer.py:61-159 | an already seeded `mcp1` is left as it was; otherwise exactly the seeded tables are committed and no other database changes |
| Payments.UserRow | mcp/mcp_data_initializer.py:210-214 | a user's segment comes from the fixed list |
| Payments.TransactionRow | mcp/mcp_data_initializer.py:216-222 | a transaction refers to a randomly picked user, and its amount is negative exactly when its type is `refund`, with magnitude 1000..100000 |
| Payments.PaymentRow | mcp/mcp_data_initializer.py:223-226 | the payment row carries the transaction id as its only reference, with method and status from the fixed lists |
| Payments.UserRows | mcp/mcp_data_initializer.py:210-214 | the user loop builds `NUM_USERS` user rows, each with a segment from the fixed list |
| Payments.TransactionFits | mcp/mcp_data_initializer.py:216-222 | a transaction satisfies the schema and its user reference exists |
| Payments.PaymentFits | mcp/mcp_data_initializer.py:223-226 | a payment for an existing transaction satisfies the schema |
| Payments.PaymentCount | mcp/mcp_data_initializer.py:216-227 | the payment batch refers to each id of the transaction run exactly once and to no other |
| Payments.OnePaymentPerTransaction | mcp/mcp_data_initializer.py:216-227 | every transaction of the run has exactly one payment method after seeding |
| Payments.PaymentCarriesTransactionId | mcp/mcp_data_initializer.py:216-227 | the k-th payment row carries the id of the k-th new transaction (`RETURNING`) |
| Payments.RefundsAreNegative | mcp/mcp_data_initializer.py:217-218 | every seeded transaction has a negative amount exactly when it is a refund |
| Payments.InsertTransaction | mcp/mcp_data_initializer.py:217-227 | one loop body appends a transaction, then a payment carrying the id it returned |
| Payments.InsertTransactions | mcp/mcp_data_initializer.py:216-227 | the loop appends exactly the transaction batch and the matching payment batch |
| Payments.Populate | mcp/mcp_data_initializer.py:205-227 | the data phase leaves exactly the three seeded tables |
| Payments.InsertMcp2 | mcp/mcp_data_initializer.py:167-232 | an already seeded `mcp2` is left as it was; otherwise exactly the seeded tables are committed |
| Service.UserRow | mcp/mcp_data_initializer.py:285-289 | a user's acquisition channel comes from the fixed list |
| Service.ActivityRow | mcp/mcp_data_initializer.py:291-295 | an activity refers to a randomly picked user and has a type from the fixed list |
| Service.FeedbackRow | mcp/mcp_data_initializer.py:297-307 | feedback refers to a picked user, has a rating 1..5 and sentiment and category from the fixed lists |
| Service.UserRows | mcp/mcp_data_initializer.py:285-289 | the user loop builds `NUM_USERS` user rows, each with an acquisition channel from the fixed list |
| Service.ActivitiesFit | mcp/mcp_data_initializer.py:291-295 | every activity row satisfies the schema and its user reference exists |
| Service.FeedbackFits | mcp/mcp_data_initializer.py:297-307 | every feedback row satisfies the schema and its user reference exists |
| Service.ActivitiesOfNewUsers | mcp/mcp_data_initializer.py:285-295 | on an empty Users table every activity refers to a user of the run |
| Service.FeedbackOfNewUsers | mcp/mcp_data_initializer.py:285-307 | on an empty Users table every feedback row refers to a user of the run and has a rating 1..5 |
| Service.Populate | mcp/mcp_data_initializer.py:280-307 | the data phase leaves exactly the three seeded tables |
| Service.InsertMcp3 | mcp/mcp_data_initializer.py:240-312 | an already seeded `mcp3` is left as it was; otherwise exactly the seeded tables are committed |
| Admin.EmployeeRow | mcp/mcp_data_initializer.py:380-389 | an employee's pay grade and department come from the fixed lists |
| Admin.ProjectRow | mcp/mcp_data_initializer.py:392-398 | project i is titled `프로젝트_{i+1:02d}`, ends 90 to 365 days after it starts, and is owned by a picked employee |
| Admin.BudgetRow | mcp/mcp_data_initializer.py:403-413 | a budget request belongs to its project and quarter, its only reference is the project, amount 5,000,000..200,000,000 |
| Admin.EventRow | mcp/mcp_data_initializer.py:422-431 | an event refers to a picked project, its venue is from the list, attendance 100..10000 |
| Admin.SupplyRow | mcp/mcp_data_initializer.py:436-446 | a supplies request refers to a picked employee, quantity 1..200, item, purpose and approval from the lists |
| Admin.EmployeesFit | mcp/mcp_data_initializer.py:380-389 | every employee row satisfies the schema |
| Admin.ProjectsFit | mcp/mcp_data_initializer.py:392-398 | every project row satisfies the schema and its owner exists |
| Admin.BudgetBlockFits | mcp/mcp_data_initializer.py:403-413 | the three requests of an existing project satisfy the schema |
| Admin.EventsFit | mcp/mcp_data_initializer.py:422-431 | every event row satisfies the schema and its project exists |
| Admin.SuppliesFit | mcp/mcp_data_initializer.py:436-446 | every supplies row satisfies the schema and its employee exists |
| Admin.ProjectDurations | mcp/mcp_data_initializer.py:392-398 | each project of the run has its padded title, an owner, and an end date 90 to 365 days after its start |
| Admin.ProjectTitlesDistinct | mcp/mcp_data_initializer.py:397 | the 30 project titles are pairwise different |
| Admin.TitlesDistinct | mcp/mcp_data_initializer.py:397 | different numbers give different project titles |
| Admin.BudgetLayout | mcp/mcp_data_initializer.py:403-413 | the budget batch is three rows per scanned project, row 3k+q being quarter q of project k |
| Admin.BudgetLength | mcp/mcp_data_initializer.py:403-413 | the budget batch has three rows per scanned project |
| Admin.BudgetBlockRefs | mcp/mcp_data_initializer.py:403-413 | every request of a project block refers to that project only |
| Admin.BudgetCount | mcp/mcp_data_initializer.py:403-413 | each project id receives three requests per occurrence in the scanned list |
| Admin.NewProjectOnce | mcp/mcp_data_initializer.py:392-401 | each new project id occurs once in the Projects id column |
| Admin.ThreeRequestsPerProject | mcp/mcp_data_initializer.py:400-413 | every project of the run has exactly three budget requests after seeding, whatever order the scan returned |
| Admin.ScannedOnce | mcp/mcp_data_initializer.py:403-413 | a project scanned once and previously unreferenced ends with three requests |
| Admin.RequestQuarters | mcp/mcp_data_initializer.py:403-413 | the requests of scanned project k are for 2024Q4, 2025Q1 and 2025Q2 in that order |
| Admin.EventsOfProjects | mcp/mcp_data_initializer.py:422-431 | every seeded event refers to a project and has attendance 100..10000 |
| Admin.SuppliesOfEmployees | mcp/mcp_data_initializer.py:436-446 | every seeded supplies request refers to an employee and has quantity 1..200 |
| Admin.InsertBudgets | mcp/mcp_data_initializer.py:403-413 | the nested loop over scanned projects and quarters appends exactly the budget batch |
| Admin.InsertStaffAndProjects | mcp/mcp_data_initializer.py:378-401 | employees then projects are appended and the returned list is a scan of the Projects ids |
| Admin.InsertEventsAndSupplies | mcp/mcp_data_initializer.py:415-446 | events and supplies are appended, drawn against the current projects and employees |
| Admin.Populate | mcp/mcp_data_initializer.py:378-446 | the data phase leaves exactly the five seeded tables for the returned project scan |
| Admin.InsertMcp4 | mcp/mcp_data_initializer.py:320-451 | an already seeded `mcp4` is left as it was; otherwise exactly the seeded tables are committed |
| Academic.HighCount | mcp/mcp_data_initializer.py:561 | the high-GPA batch is never larger than the student total |
| Academic.ProfessorRow | mcp/mcp_data_initializer.py:547-551 | a professor's department and position come from the fixed lists |
| Academic.ProfessorsFit | mcp/mcp_data_initializer.py:547-551 | every professor row satisfies the schema |
| Academic.YearDigits | mcp/mcp_data_initializer.py:563-565 | an admission year 2020..2024 has four digits |
| Academic.StudentNumber | mcp/mcp_data_initializer.py:565-586 | `f"{admission_year}{student_counter:05d}"`; see StudentNumberDecodes and StudentNumbersDistinct for its decoding and injectivity |
| Academic.StudentNumberDecodes | mcp/mcp_data_initializer.py:563-565 | a student number splits into the 4-digit year and the 5-digit-padded counter, both reading back exactly |
| Academic.StudentNumbersDistinct | mcp/mcp_data_initializer.py:563-587 | different counters give different student numbers, whatever the years |
| Academic.AdmissionYear | mcp/mcp_data_initializer.py:563 | the admission year is 2020..2024 |
| Academic.StudentRow | mcp/mcp_data_initializer.py:562-601 | a student has year of study 1..4, the number built from its year and counter, a GPA of 3.80..4.50 in the high batch and 1.00..3.90 otherwise |
| Academic.StudentCounter | mcp/mcp_data_initializer.py:558-601 | student i of the run (across both batches) carries counter i+1 |
| Academic.StudentNumbersUnique | mcp/mcp_data_initializer.py:556-601 | all student numbers of the run are pairwise distinct |
| Academic.HighGpaOnlyInFirstBatch | mcp/mcp_data_initializer.py:567-588 | a student with GPA at least 4.00 belongs to the high-GPA batch |
| Academic.StudentKeyFree | mcp/mcp_data_initializer.py:565-580 | the next student's number is not yet in the table, so the UNIQUE constraint never fires |
| Academic.StudentFits | mcp/mcp_data_initializer.py:569-580 | a student row satisfies the Students schema |
| Academic.InsertStudent | mcp/mcp_data_initializer.py:563-601 | one loop body appends the next student with the next counter |
| Academic.InsertStudents | mcp/mcp_data_initializer.py:556-601 | the two counter-sharing loops append exactly the student batch |
| Academic.CourseCode | mcp/mcp_data_initializer.py:621 | a course code is a listed two-letter prefix followed by a number 100..499 |
| Academic.CourseRow | mcp/mcp_data_initializer.py:620-633 | a course refers to a picked professor, has 1..3 credits and 30..120 places |
| Academic.CoursesFit | mcp/mcp_data_initializer.py:620-633 | every course row satisfies the schema and its professor exists |
| Academic.EnrollmentRow | mcp/mcp_data_initializer.py:636-640 | an enrolment refers to a picked student and a picked course in a listed semester |
| Academic.EnrollmentsFit | mcp/mcp_data_initializer.py:636-640 | every enrolment row satisfies the schema and its references exist |
| Quota.TierOf | mcp/mcp_data_initializer.py:652-664 | the high-GPA rare rate needs GPA at least 4.00 and a count of at most 40; the other rare rate needs a count below 270 |
| Quota.RateOf | mcp/mcp_data_initializer.py:652-664 | the rates are 0.3 for the high-GPA branch, 0.35 for the rare branch, and in `[0.7, 0.95)` otherwise |
| Quota.Tiers | mcp/mcp_data_initializer.py:649-664 | the branch each scanned student takes, one per student; see TiersPrefix, QuotaNeverExceeded and HighGpaAtMost41 for the quota it keeps |
| Quota.Rates | mcp/mcp_data_initializer.py:649-664 | the attendance rate of each scanned student, one per student; see AssignRate and CounterCountsRareRates for how the loop computes it |
| Quota.AssignRate | mcp/mcp_data_initializer.py:652-664 | one loop step assigns the tier's rate and increments the counter exactly when the rate is a rare one |
| Quota.QuotaNeverExceeded | mcp/mcp_data_initializer.py:649-664 | `long_absent_count` never exceeds 270 |
| Quota.HighGpaAtMost41 | mcp/mcp_data_initializer.py:654-656 | the high-GPA branch fires at most 41 times, and never more often than the counter counts |
| Quota.HighGpaReaches41 | mcp/mcp_data_initializer.py:654-656 | for up to 41 leading students with GPA at least 4.00, every one of them takes the high-GPA branch |
| Quota.HighGpaBranchNeedsGpa | mcp/mcp_data_initializer.py:654 | the high-GPA branch is only taken for GPA at least 4.00 |
| Quota.CounterCountsRareRates | mcp/mcp_data_initializer.py:649-664 | the final counter equals the number of rare rates (0.3 or 0.35) assigned |
| Quota.TiersPrefix | mcp/mcp_data_initializer.py:652-664 | the branch taken for a student depends only on the students scanned before it |
| RollCall.ActiveOf | mcp/mcp_data_initializer.py:646-647 | the active-student query returns at most one subject per student row |
| RollCall.SelectActive | mcp/mcp_data_initializer.py:646-647 | the query returns exactly the students with status `재학`, with their GPA, in some order |
| RollCall.ActiveOnce | mcp/mcp_data_initializer.py:646-647 | a student id occurs once among the active subjects if the student is active, otherwise not at all |
| RollCall.NotActive | mcp/mcp_data_initializer.py:646-647 | an id that is no student is never among the active subjects |
| RollCall.IdsPermutation | mcp/mcp_data_initializer.py:646-647 | reordering the scan does not change which ids it holds |
| RollCall.SelectCourses | mcp/mcp_data_initializer.py:667-670 | the per-student query returns the courses of its enrolments, duplicates included, in some order |
| RollCall.CoursesOfCount | mcp/mcp_data_initializer.py:667-670 | a course occurs in a student's list as often as that pair occurs among the enrolments |
| RollCall.CoursesOfRefOk | mcp/mcp_data_initializer.py:667-686 | a course returned for a student exists (or is NULL), so attendance rows satisfy their foreign key |
| RollCall.SessionRow | mcp/mcp_data_initializer.py:675-687 | a session is for its student, course and term `2025-1`; it is `결석` exactly when the trial is not below the rate, and otherwise one of `출석`/`지각`/`조퇴` |
| RollCall.AttendedWeightsValid | mcp/mcp_data_initializer.py:678-680 | the attended-status weights are a valid `random.choices` weight vector |
| RollCall.SessionsCount | mcp/mcp_data_initializer.py:674-687 | the weekly loop gives exactly 15 rows for its student and course and none for any other pair |
| RollCall.StudentLogCount | mcp/mcp_data_initializer.py:672-687 | a student's sessions for a course number 15 per enrolment of that pair |
| RollCall.Log | mcp/mcp_data_initializer.py:646-687 | the attendance rows of the whole scan in scan order; see LogCount, FifteenPerEnrollment and InsertAttendance for their counts and the loop that builds them |
| RollCall.LogCount | mcp/mcp_data_initializer.py:652-687 | over the whole scan, an active student gets 15 sessions per enrolment pair and a non-scanned one none |
| RollCall.FifteenPerEnrollment | mcp/mcp_data_initializer.py:646-687 | every student row gets 15 sessions per enrolment if active, and none otherwise |
| RollCall.NoSessionsForOthers | mcp/mcp_data_initializer.py:646-687 | ids that are not students get no sessions |
| RollCall.SessionsFit | mcp/mcp_data_initializer.py:684-687 | session rows satisfy the Attendance schema |
| RollCall.InsertStudentLog | mcp/mcp_data_initializer.py:672-687 | the course and week loops append exactly the student's sessions |
| RollCall.AttendStudent | mcp/mcp_data_initializer.py:652-687 | one student step updates the counter as the quota prescribes, fetches the student's courses and appends its sessions |
| RollCall.InsertAttendance | mcp/mcp_data_initializer.py:649-687 | the scan loop appends the sessions of every scanned student at the quota's rates, each student's course list being its enrolments, and ends with the quota counter |
| Grading.LettersDistinct | mcp/mcp_data_initializer.py:690 | the letter list has no repeats |
| Grading.IndexOf | mcp/mcp_data_initializer.py:712 | `list.index` returns the first position holding the value |
| Grading.IndexOfLetter | mcp/mcp_data_initializer.py:712 | looking a letter up gives back its own position |
| Grading.PointOf | mcp/mcp_data_initializer.py:712 | a grade point lies in 0.0..4.5 |
| Grading.PointOfLetter | mcp/mcp_data_initializer.py:690-712 | the grade point of the k-th letter is the k-th point |
| Grading.PointsStep | mcp/mcp_data_initializer.py:691 | the points fall by 0.5 from 4.5 down to D and F is 0.0 |
| Grading.PointOfInjective | mcp/mcp_data_initializer.py:690-712 | different letters have different grade points |
| Grading.WeightsFor | mcp/mcp_data_initializer.py:701-710 | the high-tier weights for GPA >= 4.00, the normal ones below; see WeightsValid and LetterIndex for what they allow |
| Grading.WeightsValid | mcp/mcp_data_initializer.py:703-710 | both weight vectors are valid `random.choices` weights |
| Grading.LetterIndex | mcp/mcp_data_initializer.py:701-710 | the drawn letter is never F, and for GPA at least 4.00 is never D+, D or F |
| Grading.DrawLetter | mcp/mcp_data_initializer.py:701-710 | the drawn letter is the letter at the drawn position |
| Grading.LetterAt | mcp/mcp_data_initializer.py:690 | the first eight letters are not F, and the first six are the high tier's possible letters |
| Grading.NormalLettersReachable | mcp/mcp_data_initializer.py:709 | every letter but F has positive weight for normal students |
| Grading.ScoresOf | mcp/mcp_data_initializer.py:714-723 | total is `0.3*midterm + 0.4*final + 0.3*assignment`; pass scores are in [60,100), [60,100), [70,100) and F scores below 59, 59, 69; the total is at least 63 exactly when the letter is not F |
| Grading.GradeRow | mcp/mcp_data_initializer.py:701-738 | a grade row is for its pair and term, its letter and point are the drawn table entries, its scores are pass scores and its total is in [63, 100) |
| Grading.GradeRowPasses | mcp/mcp_data_initializer.py:701-723 | no grade is F, every point is at least 1.0, and for GPA at least 4.00 the letter is in the high tier with point at least 2.0 |
| Grading.GpaOf | mcp/mcp_data_initializer.py:698-699 | the GPA lookup finds a value exactly when the id names a student row, and returns that row's GPA |
| Grading.SelectGpa | mcp/mcp_data_initializer.py:698-699 | the query returns the GPA lookup |
| Grading.PairsOfCount | mcp/mcp_data_initializer.py:693-694 | a pair is among the enrolment pairs exactly when at least one enrolment has it |
| Grading.PairsOfRefOk | mcp/mcp_data_initializer.py:693-738 | the student and course of an enrolment pair exist (or are NULL) |
| Grading.Dedup | mcp/mcp_data_initializer.py:693 | `DISTINCT` removes repeats and keeps exactly the same members |
| Grading.SelectDistinctPairs | mcp/mcp_data_initializer.py:693-694 | the query returns each enrolment pair once, in some order |
| Grading.GradeRows | mcp/mcp_data_initializer.py:696-738 | the grade batch has one row per pair |
| Grading.FirstUngraded | mcp/mcp_data_initializer.py:696-699 | the loop stops at the first pair whose student has no GPA row, and runs to the end exactly when every pair has one |
| Grading.FirstUngradedAt | mcp/mcp_data_initializer.py:696-699 | the first pair without a GPA is where the loop stops |
| Grading.GradeRowsCount | mcp/mcp_data_initializer.py:696-738 | over distinct pairs each pair gets exactly one grade row and nothing else gets one |
| Grading.OneGradePerEnrollment | mcp/mcp_data_initializer.py:693-738 | a (student, course) gets one grade row if it is enrolled at least once, and none otherwise |
| Grading.GradedIffNoNullStudent | mcp/mcp_data_initializer.py:693-699 | every pair has a GPA row exactly when no enrolment pair has a NULL student |
| Grading.GradeRowFits | mcp/mcp_data_initializer.py:725-738 | a grade row for an existing student and course satisfies the schema |
| Grading.GradePair | mcp/mcp_data_initializer.py:696-738 | one loop body appends the pair's grade row |
| Grading.InsertGrades | mcp/mcp_data_initializer.py:696-738 | the loop grades the pairs up to the first one whose student has no GPA row, and succeeds exactly when there is none |
| AcademicSeed.SeededStudents | mcp/mcp_data_initializer.py:556-601 | the Students table gains `NUM_STUDENTS` rows |
| AcademicSeed.ParentsAdvanced | mcp/mcp_data_initializer.py:547-640 | the four parent loops move every sequence only forward |
| AcademicSeed.RaisedAdvanced | mcp/mcp_data_initializer.py:547-699 | up to the point where the grade loop raises, the run moves the sequences of the committed tables only forward |
| AcademicSeed.Parents | mcp/mcp_data_initializer.py:547-640 | the parent phase keeps all six tables |
| AcademicSeed.AppendAllWellFormed | mcp/mcp_data_initializer.py:556-601 | inserting keeps the id column strictly increasing and parallel to the rows |
| AcademicSeed.NoStudentKeys | mcp/mcp_data_initializer.py:523-528 | past the sentinel check no attendance or grade row refers to any student |
| AcademicSeed.RunEnrollmentsNameStudents | mcp/mcp_data_initializer.py:636-640 | after the enrolment loop some enrolment has a NULL student exactly when an older one already had one, or the loop ran at least once with no student to pick |
| AcademicSeed.PairsOfNull | mcp/mcp_data_initializer.py:693-694 | a NULL-student pair is among the distinct pairs exactly when an enrolment has a NULL student |
| AcademicSeed.GradesFailOnOldNull | mcp/mcp_data_initializer.py:693-699 | the grade loop meets a missing GPA exactly when an old enrolment has a NULL student, or enrolments were inserted with no student to pick |
| AcademicSeed.SessionsPerEnrollment | mcp/mcp_data_initializer.py:642-687 | after seeding, each student has 15 attendance rows per enrolment of a course if active and none otherwise |
| AcademicSeed.GradePerEnrollment | mcp/mcp_data_initializer.py:689-738 | after seeding, each (student, course) has one grade row when enrolled and none otherwise |
| AcademicSeed.InsertParents | mcp/mcp_data_initializer.py:547-640 | professors, students, courses and enrolments are appended in that order |
| AcademicSeed.InsertSessions | mcp/mcp_data_initializer.py:642-687 | the attendance phase appends the log of a scan of the active students |
| AcademicSeed.InsertPairGrades | mcp/mcp_data_initializer.py:689-738 | the grade phase fetches the distinct pairs and appends the grades of the pairs before the first one whose student is missing, all of them when none is |
| AcademicSeed.InsertRecords | mcp/mcp_data_initializer.py:547-738 | all inserts of the run, producing a trace consistent with the queries; on success exactly the seeded database, on failure the parent rows, the attendance and the grades before the failing pair |
| AcademicSeed.InsertMcp5 | mcp/mcp_data_initializer.py:459-743 | for any `NUM_*` settings: seeded `mcp5` is left as it was; otherwise the run commits exactly the seeded database, or, when an old enrolment has a NULL student or enrolments are asked for with no students, raises, leaving the database creation and the sequence values drawn on tables that already existed |
| IamApp.StackName | iamuser/app.py:164 | the stack name is `nxtcloud-iamuser-` followed by the group name |
| IamApp.StackNameInjective | iamuser/app.py:164 | different groups give different stack names |
| IamApp.FirstMatch | iamuser/app.py:91-94 | the scan stops at the first record with the name, and finds none exactly when no record has it |
| IamApp.FirstMatchAt | iamuser/app.py:91-94 | a record preceded by no record of its name is the first match |
| IamApp.Without | iamuser/app.py:101 | filtering never lengthens the list |
| IamApp.WithoutMembers | iamuser/app.py:101 | the filtered list holds exactly the records of other names |
| IamApp.WithoutConcat | iamuser/app.py:101 | the filter keeps the original order |
| IamApp.WithoutNone | iamuser/app.py:101 | a list without the name is unchanged |
| IamApp.WithoutIdempotent | iamuser/app.py:101 | removing twice is removing once |
| IamApp.Registry.constructor | iamuser/app.py:47-55 | a new registry, like a missing file, has no records |
| IamApp.Registry.AddStackInfo | iamuser/app.py:68-85 | one record with empty `stack_id` is appended at the end and returned; earlier records are unchanged |
| IamApp.Registry.UpdateStackId | iamuser/app.py:88-95 | the loop with break sets `stack_id` of the first record with the name and nothing else; without a match the list is unchanged |
| IamApp.Registry.RemoveStackInfo | iamuser/app.py:98-102 | every record with the name is removed and the others keep their order |
| IamApp.Deployed | iamuser/app.py:160-206 | the registry a deployment leaves, by CLI outcome; see ExecuteCloudformation, FailedDeployment, FirstDeployment and RedeploymentIdGoesToOldest |
| IamApp.Registry.ExecuteCloudformation | iamuser/app.py:160-206 | success is return code 0; the returned name is the stack name, or `""` when the call raised; the registry becomes the deployment bookkeeping |
| IamApp.FailedDeployment | iamuser/app.py:164-203 | after a non-zero return code no record of the stack name remains, older ones included, and other records are kept |
| IamApp.FirstDeployment | iamuser/app.py:164-203 | a successful first deployment leaves the new record last, carrying the returned stack id if there is one |
| IamApp.RedeploymentIdGoesToOldest | iamuser/app.py:164-203 | on a redeployment the returned stack id lands on the oldest record of the name and the new record keeps `""` |
| IamApp.Registry.DeleteCloudformationStack | iamuser/app.py:209-223 | success is return code 0; only then are the records of the name removed |
| IamApp.UserName | iamuser/app.py:130 | user i is the group, a dash and i padded to two digits |
| IamApp.UserNamesDistinct | iamuser/app.py:130 | different indices give different user names |
| IamApp.UserTotal | iamuser/app.py:129 | the loop runs `user_count + 1` times, or not at all for a negative count |
| IamApp.UserLine | iamuser/app.py:130-131 | the table row of user i; see TableLines and TableSplits for the table built from these rows |
| IamApp.TableLines | iamuser/app.py:128-131 | the table is the two header lines followed by the user lines in increasing index |
| IamApp.UserTable | iamuser/app.py:128-131 | the `+=` loop builds exactly the newline-terminated table lines |
| IamApp.HeaderText | iamuser/app.py:128 | the header string is the two header lines, each terminated |
| IamApp.TableSplits | iamuser/app.py:128-131 | for a group without newline the table splits into the header, exactly `user_count + 1` user lines, and a final empty piece |
| IamApp.StripAll | iamuser/app.py:29 | every piece is stripped and none is dropped |
| IamApp.Creators | iamuser/app.py:28-29 | the parsed `CREATORS` list; see CreatorsShape, CreatorsRoundTrip and DefaultCreatorList |
| IamApp.CreatorsShape | iamuser/app.py:28-29 | the creator list has one more entry than the `CREATORS` string has commas, and entry i is the stripped i-th piece |
| IamApp.CreatorsRoundTrip | iamuser/app.py:28-29 | a comma-joined list of comma-free, trimmed names parses back to itself |
| IamApp.DefaultCreatorList | iamuser/app.py:28-29 | without `CREATORS` the list is the four default names |
| Env.Getenv | iamuser/generate-template.py:14-41 | `os.getenv(name, default)`: the value whenever the variable is set, even to ""; see EmptyOverrideKept and DefaultPolicyArns |
| Env.Truthy | iamuser/generate-template.py:400 | `os.getenv(var)` is truthy: set and not empty; see MissingVars and UnsetMembers |
| PolicyTemplate.GetPolicyArns | iamuser/generate-template.py:14-41 | exactly five ARNs in fixed order, each the override when set, otherwise `arn:aws:iam::ACCOUNT:policy/Name` |
| PolicyTemplate.PolicyArnInjective | iamuser/generate-template.py:19-40 | the default ARN determines the policy name |
| PolicyTemplate.DefaultPolicyArns | iamuser/generate-template.py:14-41 | with no overrides the five defaults use the account, which defaults to `YOUR_ACCOUNT_ID`, and are pairwise distinct |
| PolicyTemplate.EmptyOverrideKept | iamuser/generate-template.py:20-23 | an override set to `""` is used as the ARN although the variable is reported missing |
| PolicyTemplate.FormatArn | iamuser/generate-template.py:46 | a formatted line is 26 spaces, a quote, the ARN and a quote |
| PolicyTemplate.FormatAll | iamuser/generate-template.py:46 | one formatted line per ARN in input order |
| PolicyTemplate.GeneratePolicyArrayString | iamuser/generate-template.py:44-47 | the formatted ARNs joined by ",\n"; see ArrayLines, ArraySplits and ParseArrayRoundTrip for its lines and read-back |
| PolicyTemplate.ArrayLines | iamuser/generate-template.py:44-47 | the output lines are the formatted ARNs, each but the last followed by a comma |
| PolicyTemplate.JoinCommaNewline | iamuser/generate-template.py:47 | joining with `",\n"` is the comma-suffixed lines joined with newline |
| PolicyTemplate.ArraySplits | iamuser/generate-template.py:44-47 | an empty list gives `""`; otherwise the string splits into exactly one line per ARN with no trailing separator |
| PolicyTemplate.ParseArrayRoundTrip | iamuser/generate-template.py:44-47 | the ARNs can be read back from the array string |
| PolicyTemplate.ParseFormatted | iamuser/generate-template.py:46 | a formatted line, with or without its comma, reads back as its ARN |
| PolicyTemplate.PolicyArrays | iamuser/generate-template.py:54-59 | the create and delete policy arrays are the same string |
| PolicyTemplate.PolicyArraysReadBack | iamuser/generate-template.py:54-59 | for newline-free values the embedded array has five lines and reads back as the policy ARNs |
| PolicyTemplate.Unset | iamuser/generate-template.py:400 | the filter never lengthens the list |
| PolicyTemplate.UnsetMembers | iamuser/generate-template.py:400 | the filtered list holds exactly the variables that are unset or empty |
| PolicyTemplate.UnsetConcat | iamuser/generate-template.py:400 | the filter keeps the order of the required list |
| PolicyTemplate.MissingVars | iamuser/generate-template.py:399-400 | a variable is missing exactly when it is required and unset or empty; at most two are missing |
| PolicyTemplate.MissingVarsOrder | iamuser/generate-template.py:399-400 | the missing variables appear in the order of `required_vars` |

## Left out

- Store.Server / Store.WellFormed: committed ids are assumed to lie below the next value of their sequence, in increasing order, as when every row came from a SERIAL insert and nobody called `setval`. An explicit-id INSERT or a `setval` by another client could make `nextval` return an id already taken, and the duplicate-key error the source would then raise is not modelled.
- psycopg2 connections and cursors are not modelled: there is no SQL text, no `close`, and no autocommit catalog query. The store class keeps the tables, serial ids, constraints and sequence values that a commit or an aborted transaction leaves.
- The DDL column types are not modelled. Each row constructor carries the columns it is inserted with.
- Faker names, sentences and catch-phrases and the `date_between` / `datetime.now()` windows are opaque oracle values. Dates are day numbers, so `timedelta` arithmetic is integer addition. The windows themselves (for example "-3M" to "-1M") are not stated.
- Draw order is not modelled: each call site has its own oracle function, so the interleaving of draws from one shared generator is not captured.
- Floating point is not modelled:
  - rates, weights and scores are exact reals;
  - GPAs are integer hundredths, from `round(x, 2)`, assuming ties never matter;
  - `int(NUM_STUDENTS * 0.2)` is `N / 5`;
  - `gpa >= 4.0` compares hundredths against 400.
- Sampling.Uniform: states the half-open range `[a, b)`. Python's `uniform` may return `b` through float rounding.
- PostgreSQL `NUMERIC` and `INT` column widths are not modelled. Integers are unbounded, so an `int4` serial overflow is not modelled. No value the seeder stores comes near that limit.
- The `NUM_*` settings come from the environment. For mcp1 to mcp3 and mcp5 they are `Config` parameters, and the source defaults are given as `DefaultConfig`. The environment parsing itself (`int(os.getenv(...))`) is not modelled. The counts are `nat`: a negative setting, which `range` treats as 0, is not modelled.
- `mcp/cleanup-mcp-data.py` is not part of this model. It only issues one server-side TRUNCATE statement.
- The Streamlit UI of `iamuser/app.py` is not modelled: authentication, tabs and session state.
- The AWS CLI `subprocess` call is a `CliResult` parameter, and its JSON output is reduced to an optional stack id.
- The JSON file load and save of the stack registry is not modelled: `stacks` is held in memory, a failed save is not modelled, and `created_at` (a Seoul wall-clock timestamp) is a parameter.
- IamApp.Registry.ExecuteCloudformation: models the exception only as raised by the CLI call, after the record was added. `load_stack_info` and `save_stack_info` swallow every file error, so only two things can raise inside `add_stack_info`, and both are left out: `stack_list.append` on a registry file whose JSON value is not a list, and the `datetime.now(pytz.timezone(...))` call. A registry file that fails to load reads as an empty registry, which the next save then overwrites; this is not modelled either.
- The rest of `generate_markdown` is not modelled: the console URL, the password text and the surrounding Markdown are fixed text around the user table.
- The Lambda handler is not modelled. It is template text, and this code never runs it.
- The rest of the CloudFormation f-string template, `save_template` and the console messages of `main` are output text and file I/O, and are not modelled.
- The modelled results are the policy arrays embedded in the template and the `missing_vars` list.
- `print` is not modelled anywhere: console output only.
