/**
 * `insert_mcp2`: the payments database. Users first; then, in one loop,
 * a transaction (its user drawn from the users, its amount negated for a
 * refund) immediately followed by the payment-method row that carries the
 * id the transaction INSERT returned.
 */
module Payments {
  import opened Wrappers
  import opened Sampling
  import opened Schema
  import opened Store
  import opened Seeding

  const Tables: seq<TableName> := [Users, Transactions, PaymentMethods]
  const Segments: seq<string> := ["일반", "VIP", "기업"]
  const Methods: seq<string> := ["카드", "계좌이체", "포인트"]
  const Statuses: seq<string> := ["성공", "실패"]
  const Kinds: seq<string> := ["purchase", "refund", "reward"]

  /** NUM_USERS and NUM_TRANSACTIONS. */
  datatype Config = Config(numUsers: nat, numTransactions: nat)

  const DefaultConfig := Config(800, 4000)

  datatype UserDraw = UserDraw(name: string, joinDate: Day, segment: nat)
  datatype TransactionDraw = TransactionDraw(kind: nat, amount: nat, user: nat, date: Day)
  datatype PaymentDraw = PaymentDraw(payMethod: nat, status: nat)

  /** The random and Faker draws of one run, by call site and loop position. */
  datatype Oracle = Oracle(
    user: nat -> UserDraw,
    transaction: nat -> TransactionDraw,
    payment: nat -> PaymentDraw)

  function UserRow(d: UserDraw): (r: Row)
    ensures r.PaymentUser? && r.segment in Segments
  {
    PaymentUser(d.name, d.joinDate, Choice(Segments, d.segment))
  }

  function UserRows(n: nat, o: Oracle): (rows: seq<Row>)
    ensures |rows| == n
    ensures forall j :: 0 <= j < n ==> rows[j].PaymentUser? && rows[j].segment in Segments
  {
    var rows := seq(n, i requires 0 <= i => UserRow(o.user(i)));
    assert forall j :: 0 <= j < n ==> rows[j] == UserRow(o.user(j));
    rows
  }

  /** A transaction row as the loop builds it: a refund carries the negated amount. */
  predicate TransactionShape(r: Row)
  {
    && r.Transaction?
    && r.kind in Kinds
    && (r.amount < 0 <==> r.kind == "refund")
    && 1000 <= (if r.amount < 0 then -r.amount else r.amount) <= 100000
  }

  /**
   * One transaction: type, then `randint(1000, 100000)` times -1 for a
   * refund, and the user from the `ORDER BY RANDOM() LIMIT 1` sub-query.
   */
  function TransactionRow(userIds: seq<nat>, d: TransactionDraw): (r: Row)
    ensures TransactionShape(r)
    ensures r.userId == Pick(userIds, d.user)
  {
    var kind := Choice(Kinds, d.kind);
    var magnitude := RandInt(d.amount, 1000, 100000);
    Transaction(Pick(userIds, d.user), d.date, kind, if kind != "refund" then magnitude else -magnitude)
  }

  function TransactionRows(userIds: seq<nat>, n: nat, o: Oracle): seq<Row>
  {
    seq(n, i requires 0 <= i => TransactionRow(userIds, o.transaction(i)))
  }

  /** The payment-method row of the transaction whose returned id is tid. */
  function PaymentRow(tid: nat, d: PaymentDraw): (r: Row)
    ensures r.PaymentMethod? && r.transactionId == Some(tid)
    ensures References(r) == [ForeignKey(Transactions, Some(tid))]
    ensures r.payMethod in Methods && r.status in Statuses
  {
    PaymentMethod(Some(tid), Choice(Methods, d.payMethod), Choice(Statuses, d.status))
  }

  /**
   * The payment rows of n passes of the loop whose first transaction got id
   * `start`: pass k inserts the transaction with id start + k and then its payment.
   */
  function PaymentRows(start: nat, n: nat, o: Oracle): seq<Row>
  {
    seq(n, k requires 0 <= k => PaymentRow(start + k, o.payment(k)))
  }

  // ---------------------------------------------------------------------
  // Every generated row passes the checks of its INSERT
  // ---------------------------------------------------------------------

  lemma TransactionFits(db: Database, d: TransactionDraw)
    requires Transactions in db && Users in db
    ensures Fits(db, Transactions, TransactionRow(db[Users].ids, d))
    ensures KeyFree(db[Transactions], TransactionRow(db[Users].ids, d))
  {
    var r := TransactionRow(db[Users].ids, d);
    assert References(r) == [ForeignKey(Users, r.userId)];
  }

  lemma PaymentFits(db: Database, tid: nat, d: PaymentDraw)
    requires PaymentMethods in db && Transactions in db && tid in db[Transactions].ids
    ensures Fits(db, PaymentMethods, PaymentRow(tid, d)) && KeyFree(db[PaymentMethods], PaymentRow(tid, d))
  {
    assert References(PaymentRow(tid, d)) == [ForeignKey(Transactions, Some(tid))];
  }

  // ---------------------------------------------------------------------
  // The committed state of a seeding run
  // ---------------------------------------------------------------------

  /** The three tables of the domain exist. */
  predicate HasTables(db: Database)
  {
    Users in db && Transactions in db && PaymentMethods in db
  }

  /** Users after the run: the rows of the user loop appended. */
  function SeededUsers(db: Database, cfg: Config, o: Oracle): Table
    requires Users in db
  {
    AppendAll(db[Users], UserRows(cfg.numUsers, o))
  }

  /** Transactions after the run: each drawing its user from the users after the user loop. */
  function SeededTransactions(db: Database, cfg: Config, o: Oracle): Table
    requires Users in db && Transactions in db
  {
    AppendAll(db[Transactions], TransactionRows(SeededUsers(db, cfg, o).ids, cfg.numTransactions, o))
  }

  /** PaymentMethods after the run: one row per id the transaction INSERTs returned. */
  function SeededPayments(db: Database, cfg: Config, o: Oracle): Table
    requires Transactions in db && PaymentMethods in db
  {
    AppendAll(db[PaymentMethods], PaymentRows(db[Transactions].nextId, cfg.numTransactions, o))
  }

  /** The database `insert_mcp2` commits, from the prepared working copy. */
  function Seeded2(db: Database, cfg: Config, o: Oracle): Database
    requires HasTables(db)
  {
    db[Users := SeededUsers(db, cfg, o)]
      [Transactions := SeededTransactions(db, cfg, o)]
      [PaymentMethods := SeededPayments(db, cfg, o)]
  }

  // ---------------------------------------------------------------------
  // What a seeding run promises
  // ---------------------------------------------------------------------

  lemma PaymentRowsSnoc(start: nat, n: nat, o: Oracle)
    ensures PaymentRows(start, n + 1, o) == PaymentRows(start, n, o) + [PaymentRow(start + n, o.payment(n))]
  {
  }

  /** Each id handed out by the loop gets exactly one payment row, and no other id gets one. */
  lemma {:induction false} PaymentCount(start: nat, n: nat, o: Oracle, tid: nat)
    ensures CountReferences(PaymentRows(start, n, o), Transactions, tid) == if start <= tid < start + n then 1 else 0
    decreases n
  {
    if n > 0 {
      var last := PaymentRow(start + n - 1, o.payment(n - 1));
      PaymentRowsSnoc(start, n - 1, o);
      PaymentCount(start, n - 1, o, tid);
      CountReferencesSnoc(PaymentRows(start, n - 1, o), last, Transactions, tid);
      if tid == start + n - 1 {
        assert ForeignKey(Transactions, Some(tid)) in References(last);
      } else {
        assert ForeignKey(Transactions, Some(tid)) !in References(last);
      }
    }
  }

  /**
   * Every transaction a run inserts has exactly one payment-method row:
   * the one inserted right after it, and no older row can name an id the
   * sequence had not handed out yet.
   */
  lemma OnePaymentPerTransaction(db: Database, cfg: Config, o: Oracle, k: nat)
    requires Intact(db) && Transactions in db && PaymentMethods in db
    requires k < cfg.numTransactions
    ensures CountReferences(SeededPayments(db, cfg, o).rows, Transactions, db[Transactions].nextId + k) == 1
  {
    var start := db[Transactions].nextId;
    NoReferencesToNewIds(db, PaymentMethods, Transactions, start + k);
    PaymentCount(start, cfg.numTransactions, o, start + k);
    CountReferencesConcat(db[PaymentMethods].rows, PaymentRows(start, cfg.numTransactions, o), Transactions, start + k);
  }

  /** The k-th payment row of the run carries the id of the k-th transaction of the run. */
  lemma PaymentCarriesTransactionId(db: Database, cfg: Config, o: Oracle, k: nat)
    requires HasTables(db) && k < cfg.numTransactions
    ensures |db[PaymentMethods].rows| + k < |SeededPayments(db, cfg, o).rows|
    ensures |db[Transactions].ids| + k < |SeededTransactions(db, cfg, o).ids|
    ensures SeededPayments(db, cfg, o).rows[|db[PaymentMethods].rows| + k]
      == PaymentRow(SeededTransactions(db, cfg, o).ids[|db[Transactions].ids| + k], o.payment(k))
  {
    var start := db[Transactions].nextId;
    assert |SeededPayments(db, cfg, o).rows| == |db[PaymentMethods].rows| + cfg.numTransactions;
    assert SeededPayments(db, cfg, o).rows[|db[PaymentMethods].rows| + k] == PaymentRows(start, cfg.numTransactions, o)[k];
    assert SeededTransactions(db, cfg, o).ids[|db[Transactions].ids| + k] == Range(start, cfg.numTransactions)[k];
  }

  /**
   * Every transaction of the run has one of the three types, and its amount
   * is negative exactly when the type is "refund", with magnitude in
   * [1000, 100000].
   */
  lemma RefundsAreNegative(db: Database, cfg: Config, o: Oracle, k: nat)
    requires Users in db && Transactions in db
    requires k < cfg.numTransactions
    ensures |db[Transactions].rows| + k < |SeededTransactions(db, cfg, o).rows|
    ensures TransactionShape(SeededTransactions(db, cfg, o).rows[|db[Transactions].rows| + k])
  {
    var uids := SeededUsers(db, cfg, o).ids;
    assert |SeededTransactions(db, cfg, o).rows| == |db[Transactions].rows| + cfg.numTransactions;
    assert TransactionRows(uids, cfg.numTransactions, o)[k] == TransactionRow(uids, o.transaction(k));
  }

  // ---------------------------------------------------------------------
  // The run
  // ---------------------------------------------------------------------

  /** Inserting the next transaction extends the batch by one. */
  lemma TransactionStep(t: Table, uids: seq<nat>, n: nat, o: Oracle)
    ensures Append(AppendAll(t, TransactionRows(uids, n, o)), TransactionRow(uids, o.transaction(n)))
      == AppendAll(t, TransactionRows(uids, n + 1, o))
  {
    assert TransactionRows(uids, n + 1, o) == TransactionRows(uids, n, o) + [TransactionRow(uids, o.transaction(n))];
    AppendAllSnoc(t, TransactionRows(uids, n, o), TransactionRow(uids, o.transaction(n)));
  }

  /** Inserting the payment of the next returned id extends the batch by one. */
  lemma PaymentStep(t: Table, start: nat, n: nat, o: Oracle)
    ensures Append(AppendAll(t, PaymentRows(start, n, o)), PaymentRow(start + n, o.payment(n)))
      == AppendAll(t, PaymentRows(start, n + 1, o))
  {
    PaymentRowsSnoc(start, n, o);
    AppendAllSnoc(t, PaymentRows(start, n, o), PaymentRow(start + n, o.payment(n)));
  }

  /** The table state after one more pass of the transaction loop. */
  lemma LoopStep(db: Database, transactions: Table, payments: Table, uids: seq<nat>, i: nat, o: Oracle,
                 before: Database, after: Database)
    requires before == db
      [Transactions := AppendAll(transactions, TransactionRows(uids, i, o))]
      [PaymentMethods := AppendAll(payments, PaymentRows(transactions.nextId, i, o))]
    requires after == before
      [Transactions := Append(before[Transactions], TransactionRow(uids, o.transaction(i)))]
      [PaymentMethods := Append(before[PaymentMethods], PaymentRow(transactions.nextId + i, o.payment(i)))]
    ensures after == db
      [Transactions := AppendAll(transactions, TransactionRows(uids, i + 1, o))]
      [PaymentMethods := AppendAll(payments, PaymentRows(transactions.nextId, i + 1, o))]
  {
    TransactionStep(transactions, uids, i, o);
    PaymentStep(payments, transactions.nextId, i, o);
    UpdateBoth(db, Transactions, PaymentMethods, before[Transactions], before[PaymentMethods],
      after[Transactions], after[PaymentMethods]);
  }

  /** One pass of the transaction loop: the transaction, then its payment row. */
  method InsertTransaction(conn: Connection, d: TransactionDraw, p: PaymentDraw) returns (tid: nat)
    requires conn.Valid() && HasTables(conn.tables)
    modifies conn
    ensures conn.Valid()
    ensures tid == old(conn.tables[Transactions].nextId)
    ensures conn.tables == old(conn.tables)
      [Transactions := Append(old(conn.tables[Transactions]), TransactionRow(old(conn.tables[Users].ids), d))]
      [PaymentMethods := Append(old(conn.tables[PaymentMethods]), PaymentRow(tid, p))]
  {
    TransactionFits(conn.tables, d);
    tid := conn.Insert(Transactions, TransactionRow(conn.tables[Users].ids, d));
    assert conn.tables[Transactions].ids[|conn.tables[Transactions].ids| - 1] == tid;
    PaymentFits(conn.tables, tid, p);
    var _ := conn.Insert(PaymentMethods, PaymentRow(tid, p));
  }

  /** The transaction loop. */
  method InsertTransactions(conn: Connection, n: nat, o: Oracle)
    requires conn.Valid() && HasTables(conn.tables)
    modifies conn
    ensures conn.Valid()
    ensures conn.tables == old(conn.tables)
      [Transactions := AppendAll(old(conn.tables[Transactions]), TransactionRows(old(conn.tables[Users].ids), n, o))]
      [PaymentMethods := AppendAll(old(conn.tables[PaymentMethods]), PaymentRows(old(conn.tables[Transactions].nextId), n, o))]
  {
    var uids := conn.tables[Users].ids;
    var transactions := conn.tables[Transactions];
    var payments := conn.tables[PaymentMethods];
    var i := 0;
    assert AppendAll(transactions, TransactionRows(uids, 0, o)) == transactions;
    assert AppendAll(payments, PaymentRows(transactions.nextId, 0, o)) == payments;
    UpdateSame(old(conn.tables), Transactions);
    UpdateSame(old(conn.tables), PaymentMethods);
    while i < n
      invariant 0 <= i <= n
      invariant conn.Valid()
      invariant conn.tables == old(conn.tables)
        [Transactions := AppendAll(transactions, TransactionRows(uids, i, o))]
        [PaymentMethods := AppendAll(payments, PaymentRows(transactions.nextId, i, o))]
    {
      ghost var before := conn.tables;
      assert before[Users] == old(conn.tables)[Users];
      assert before[Transactions].nextId == transactions.nextId + i;
      var tid := InsertTransaction(conn, o.transaction(i), o.payment(i));
      LoopStep(old(conn.tables), transactions, payments, uids, i, o, before, conn.tables);
      i := i + 1;
    }
    assert i == n;
    assert transactions == old(conn.tables[Transactions]) && payments == old(conn.tables[PaymentMethods]);
    assert uids == old(conn.tables[Users].ids);
  }

  /** The inserts of a run that found Users empty, on the open transaction. */
  method Populate(conn: Connection, cfg: Config, o: Oracle)
    requires conn.Valid() && HasTables(conn.tables)
    modifies conn
    ensures conn.Valid()
    ensures conn.tables == Seeded2(old(conn.tables), cfg, o)
  {
    ParentRowsFit(conn.tables, Users, UserRows(cfg.numUsers, o));
    conn.InsertAll(Users, UserRows(cfg.numUsers, o));
    InsertTransactions(conn, cfg.numTransactions, o);
  }

  /**
   * `insert_mcp2`. A populated Users table leaves the server as it was;
   * otherwise the run commits exactly `Seeded2` of the prepared tables.
   */
  method InsertMcp2(server: Server, cfg: Config, o: Oracle) returns (outcome: Outcome)
    requires server.Valid()
    modifies server
    ensures server.Valid()
    ensures outcome != RolledBack
    ensures outcome == AlreadySeeded <==> Populated(old(server.databases), "mcp2", Users)
    ensures outcome == AlreadySeeded ==> server.databases == old(server.databases)
    ensures outcome == Seeded ==>
      server.databases == old(server.databases)["mcp2" := Seeded2(Prepared(old(server.databases), "mcp2", Tables), cfg, o)]
  {
    var conn, count := Open(server, "mcp2", Tables, Users);
    if count > 0 {
      return AlreadySeeded;
    }
    Populate(conn, cfg, o);
    conn.Commit();
    WithDatabaseOverwrite(old(server.databases), "mcp2", conn.tables);
    return Seeded;
  }
}
