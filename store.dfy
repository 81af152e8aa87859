/**
 * The PostgreSQL server the seeding engine talks to, as an in-memory store.
 *
 * A `Server` holds the committed databases; a `Connection` is one psycopg2
 * connection to one database, whose `tables` is the working copy of its
 * open transaction. `Commit` writes the working copy back; a connection that
 * is closed without a commit leaves the rows and tables of the server as
 * they were (psycopg2 keeps DDL inside the transaction too, so even the
 * CREATE TABLEs of a skipped run are discarded), but the sequences of the
 * tables that were already committed keep the values the transaction drew.
 *
 * A table keeps its SERIAL ids and its rows side by side, together with the
 * next value of its id sequence. The constraints that the DDL declares
 * (every row in its own table, REFERENCES, UNIQUE) are collected in
 * `Intact`, and `Insert` demands of its caller that the row satisfies them:
 * every call site of the model proves that the server never rejects a row.
 */
module Store {
  import opened Wrappers
  import opened Schema

  datatype Table = Table(ids: seq<nat>, rows: seq<Row>, nextId: nat)

  /** A database: its tables by name. */
  type Database = map<TableName, Table>

  /** A freshly created table: no rows, id sequence starting at 1. */
  const EmptyTable := Table([], [], 1)

  /** The ids a SERIAL column hands out for n inserts starting at `start`. */
  function Range(start: nat, n: nat): (r: seq<nat>)
    ensures |r| == n
    ensures forall i :: 0 <= i < n ==> r[i] == start + i
  {
    seq(n, i => start + i)
  }

  /** One id per row, ids strictly increasing, all below the next id to hand out. */
  predicate WellFormed(t: Table)
  {
    && |t.ids| == |t.rows|
    && (forall i, j :: 0 <= i < j < |t.ids| ==> t.ids[i] < t.ids[j])
    && (forall i :: 0 <= i < |t.ids| ==> t.ids[i] < t.nextId)
  }

  /** `INSERT … RETURNING id`: the row gets the sequence's next value. */
  function Append(t: Table, r: Row): Table
  {
    Table(t.ids + [t.nextId], t.rows + [r], t.nextId + 1)
  }

  /** Inserting rows one after another, in order. */
  function AppendAll(t: Table, rows: seq<Row>): (u: Table)
    ensures u.ids == t.ids + Range(t.nextId, |rows|)
    ensures u.rows == t.rows + rows
    ensures u.nextId == t.nextId + |rows|
    decreases |rows|
  {
    if |rows| == 0 then t
    else
      var prefix := rows[..|rows| - 1];
      assert prefix + [rows[|rows| - 1]] == rows;
      Append(AppendAll(t, prefix), rows[|rows| - 1])
  }

  lemma AppendAllSnoc(t: Table, rows: seq<Row>, r: Row)
    ensures AppendAll(t, rows + [r]) == Append(AppendAll(t, rows), r)
  {
    assert (rows + [r])[..|rows|] == rows;
  }

  lemma RangeSnoc(start: nat, n: nat)
    ensures Range(start, n + 1) == Range(start, n) + [start + n]
  {
  }

  lemma RangeConcat(start: nat, a: nat, b: nat)
    ensures Range(start, a) + Range(start + a, b) == Range(start, a + b)
  {
  }

  /** Inserting a batch and then another is inserting the two batches in order. */
  lemma AppendAllConcat(t: Table, a: seq<Row>, b: seq<Row>)
    ensures AppendAll(AppendAll(t, a), b) == AppendAll(t, a + b)
  {
    var u := AppendAll(AppendAll(t, a), b);
    var v := AppendAll(t, a + b);
    RangeConcat(t.nextId, |a|, |b|);
    assert u.ids == t.ids + Range(t.nextId, |a|) + Range(t.nextId + |a|, |b|);
    assert u.ids == v.ids;
    assert u.rows == v.rows;
  }

  /** The ids handed out by a batch are in the table afterwards. */
  lemma NewIdsPresent(t: Table, rows: seq<Row>)
    ensures forall k :: 0 <= k < |rows| ==> Range(t.nextId, |rows|)[k] in AppendAll(t, rows).ids
  {
    var u := AppendAll(t, rows);
    forall k | 0 <= k < |rows|
      ensures Range(t.nextId, |rows|)[k] in u.ids
    {
      assert u.ids[|t.ids| + k] == Range(t.nextId, |rows|)[k];
    }
  }

  /** A foreign-key value is NULL or the id of a row of its parent table. */
  predicate RefOk(db: Database, fk: ForeignKey)
  {
    fk.value.Some? ==> fk.parent in db && fk.value.value in db[fk.parent].ids
  }

  predicate RefsOk(db: Database, r: Row)
  {
    forall i :: 0 <= i < |References(r)| ==> RefOk(db, References(r)[i])
  }

  /** No two rows share a value of the UNIQUE column. */
  predicate KeysUnique(rows: seq<Row>)
  {
    forall i, j :: 0 <= i < j < |rows| && UniqueKey(rows[i]).Some? ==> UniqueKey(rows[i]) != UniqueKey(rows[j])
  }

  /** The row's UNIQUE value, if it has one, is not taken yet. */
  predicate KeyFree(t: Table, r: Row)
  {
    UniqueKey(r).Some? ==> forall j :: 0 <= j < |t.rows| ==> UniqueKey(t.rows[j]) != UniqueKey(r)
  }

  /** What `INSERT INTO name` checks of a row, apart from UNIQUE: its table, and its REFERENCES. */
  predicate Fits(db: Database, name: TableName, r: Row)
  {
    name in db && TableOf(r) == name && RefsOk(db, r)
  }

  /** Every row of a batch passes the checks of its INSERT and has no UNIQUE value to clash. */
  predicate AllFit(db: Database, name: TableName, rows: seq<Row>)
  {
    forall j :: 0 <= j < |rows| ==> Fits(db, name, rows[j]) && UniqueKey(rows[j]).None?
  }

  predicate TableIntact(db: Database, name: TableName)
    requires name in db
  {
    var t := db[name];
    && WellFormed(t)
    && KeysUnique(t.rows)
    && (forall j :: 0 <= j < |t.rows| ==> TableOf(t.rows[j]) == name && RefsOk(db, t.rows[j]))
  }

  /** Every table satisfies the constraints its DDL declares. */
  predicate Intact(db: Database)
  {
    forall name {:trigger TableIntact(db, name)} :: name in db ==> TableIntact(db, name)
  }

  /** Every table of db is still in db', and its ids have only grown at the end. */
  predicate Extends(db: Database, db': Database)
  {
    forall name :: name in db ==> name in db' && db[name].ids <= db'[name].ids
  }

  lemma InPrefix(v: nat, s: seq<nat>, t: seq<nat>)
    requires v in s && s <= t
    ensures v in t
  {
    var i :| 0 <= i < |s| && s[i] == v;
    assert t[i] == v;
  }

  /** A reference that was valid stays valid while parent tables only grow. */
  lemma RefsOkExtends(db: Database, db': Database, r: Row)
    requires Extends(db, db') && RefsOk(db, r)
    ensures RefsOk(db', r)
  {
    forall i | 0 <= i < |References(r)|
      ensures RefOk(db', References(r)[i])
    {
      var fk := References(r)[i];
      assert RefOk(db, fk);
      if fk.value.Some? {
        InPrefix(fk.value.value, db[fk.parent].ids, db'[fk.parent].ids);
      }
    }
  }

  /** Replacing a table other than a reference's parent leaves the reference as it was. */
  lemma RefOkElsewhere(db: Database, name: TableName, t: Table, fk: ForeignKey)
    requires RefOk(db, fk) && fk.parent != name
    ensures RefOk(db[name := t], fk)
  {
  }

  /** Taking the last element off a sequence takes one occurrence of it off its multiset. */
  lemma MultisetSnoc<T>(s: seq<T>)
    requires |s| > 0
    ensures multiset(s) == multiset(s[..|s| - 1]) + multiset{s[|s| - 1]}
  {
    assert s == s[..|s| - 1] + [s[|s| - 1]];
  }

  lemma AppendExtends(db: Database, name: TableName, r: Row)
    requires name in db
    ensures Extends(db, db[name := Append(db[name], r)])
  {
  }

  lemma AppendAllExtends(db: Database, name: TableName, rows: seq<Row>)
    requires name in db
    ensures Extends(db, db[name := AppendAll(db[name], rows)])
  {
    var t := AppendAll(db[name], rows);
    assert t.ids[..|db[name].ids|] == db[name].ids;
  }

  /** Inserting a row that satisfies the DDL's constraints keeps every table intact. */
  lemma {:induction false} AppendIntact(db: Database, name: TableName, r: Row)
    requires Intact(db) && name in db
    requires TableOf(r) == name && RefsOk(db, r) && KeyFree(db[name], r)
    ensures Intact(db[name := Append(db[name], r)])
  {
    var db' := db[name := Append(db[name], r)];
    AppendExtends(db, name, r);
    forall n | n in db'
      ensures TableIntact(db', n)
    {
      assert TableIntact(db, n);
      var t := db'[n];
      forall j | 0 <= j < |t.rows|
        ensures TableOf(t.rows[j]) == n && RefsOk(db', t.rows[j])
      {
        if n == name && j == |t.rows| - 1 {
          RefsOkExtends(db, db', r);
        } else {
          assert t.rows[j] == db[n].rows[j];
          RefsOkExtends(db, db', t.rows[j]);
        }
      }
    }
  }

  /** A batch of rows of one table with no REFERENCES and no UNIQUE column passes every INSERT check. */
  lemma ParentRowsFit(db: Database, name: TableName, rows: seq<Row>)
    requires name in db
    requires forall j :: 0 <= j < |rows| ==> TableOf(rows[j]) == name && References(rows[j]) == [] && UniqueKey(rows[j]).None?
    ensures AllFit(db, name, rows)
  {
  }

  /** Creating a table that is not there yet keeps every table intact. */
  lemma CreateIntact(db: Database, name: TableName)
    requires Intact(db) && name !in db
    ensures Intact(db[name := EmptyTable])
  {
    var db' := db[name := EmptyTable];
    assert Extends(db, db');
    forall n | n in db'
      ensures TableIntact(db', n)
    {
      if n != name {
        assert TableIntact(db, n);
        forall j | 0 <= j < |db'[n].rows|
          ensures RefsOk(db', db'[n].rows[j])
        {
          RefsOkExtends(db, db', db'[n].rows[j]);
        }
      }
    }
  }

  // ---------------------------------------------------------------------
  // Counting the rows that refer to one parent row
  // ---------------------------------------------------------------------

  /** The number of rows with a foreign key to row `id` of table `parent`. */
  function CountReferences(rows: seq<Row>, parent: TableName, id: nat): nat
    decreases |rows|
  {
    if |rows| == 0 then 0
    else
      CountReferences(rows[..|rows| - 1], parent, id)
      + (if ForeignKey(parent, Some(id)) in References(rows[|rows| - 1]) then 1 else 0)
  }

  lemma {:induction false} CountReferencesConcat(a: seq<Row>, b: seq<Row>, parent: TableName, id: nat)
    ensures CountReferences(a + b, parent, id) == CountReferences(a, parent, id) + CountReferences(b, parent, id)
    decreases |b|
  {
    if |b| == 0 {
      assert a + b == a;
    } else {
      assert (a + b)[..|a + b| - 1] == a + b[..|b| - 1];
      CountReferencesConcat(a, b[..|b| - 1], parent, id);
    }
  }

  lemma CountReferencesSnoc(rows: seq<Row>, r: Row, parent: TableName, id: nat)
    ensures CountReferences(rows + [r], parent, id)
      == CountReferences(rows, parent, id) + if ForeignKey(parent, Some(id)) in References(r) then 1 else 0
  {
    assert (rows + [r])[..|rows|] == rows;
  }

  /** Rows whose only foreign key names `owner` count fully for it and not at all for another id. */
  lemma {:induction false} CountReferencesBlock(rows: seq<Row>, parent: TableName, owner: nat, id: nat)
    requires forall j :: 0 <= j < |rows| ==> References(rows[j]) == [ForeignKey(parent, Some(owner))]
    ensures CountReferences(rows, parent, id) == if owner == id then |rows| else 0
    decreases |rows|
  {
    if |rows| > 0 {
      CountReferencesBlock(rows[..|rows| - 1], parent, owner, id);
    }
  }

  /** Rows none of which refers to the parent row do not count for it. */
  lemma {:induction false} CountReferencesNone(rows: seq<Row>, parent: TableName, id: nat)
    requires forall j :: 0 <= j < |rows| ==> ForeignKey(parent, Some(id)) !in References(rows[j])
    ensures CountReferences(rows, parent, id) == 0
    decreases |rows|
  {
    if |rows| > 0 {
      CountReferencesNone(rows[..|rows| - 1], parent, id);
    }
  }

  /**
   * In an intact database no row refers to an id the parent's sequence has
   * not handed out yet.
   */
  lemma NoReferencesToNewIds(db: Database, child: TableName, parent: TableName, id: nat)
    requires Intact(db) && child in db && parent in db
    requires id >= db[parent].nextId
    ensures CountReferences(db[child].rows, parent, id) == 0
  {
    var rows := db[child].rows;
    var ids := db[parent].ids;
    assert TableIntact(db, child) && TableIntact(db, parent);
    forall j | 0 <= j < |rows|
      ensures ForeignKey(parent, Some(id)) !in References(rows[j])
    {
      var refs := References(rows[j]);
      assert RefsOk(db, rows[j]);
      forall i | 0 <= i < |refs|
        ensures refs[i] != ForeignKey(parent, Some(id))
      {
        assert RefOk(db, refs[i]);
        if refs[i].parent == parent && refs[i].value.Some? {
          var m :| 0 <= m < |ids| && ids[m] == refs[i].value.value;
          assert refs[i].value.value < db[parent].nextId;
        }
      }
    }
    CountReferencesNone(rows, parent, id);
  }

  /** A run of SERIAL ids holds each id once. */
  lemma {:induction false} RangeOccurrences(start: nat, n: nat, id: nat)
    ensures multiset(Range(start, n))[id] == if start <= id < start + n then 1 else 0
    decreases n
  {
    if n > 0 {
      RangeOccurrences(start, n - 1, id);
      RangeSnoc(start, n - 1);
    }
  }

  /**
   * `(SELECT id FROM parent ORDER BY RANDOM() LIMIT 1)` for the raw draw k:
   * NULL on an empty table, otherwise one of its ids.
   */
  function Pick(ids: seq<nat>, k: nat): (r: Option<nat>)
    ensures r.None? <==> |ids| == 0
    ensures r.Some? ==> r.value in ids
  {
    if |ids| == 0 then None else Some(ids[k % |ids|])
  }

  /**
   * A foreign-key value that names one of the n ids a run handed out from
   * `start`, and is NULL exactly when the run handed out none.
   */
  predicate FromRun(v: Option<nat>, start: nat, n: nat)
  {
    && (v.Some? <==> n > 0)
    && (v.Some? ==> start <= v.value < start + n)
  }

  /** The sub-query picking from a table that holds exactly the ids of one run. */
  lemma PickFromRun(start: nat, n: nat, k: nat)
    ensures FromRun(Pick(Range(start, n), k), start, n)
  {
    var v := Pick(Range(start, n), k);
    if v.Some? {
      var i :| 0 <= i < n && Range(start, n)[i] == v.value;
    }
  }

  /** `CREATE DATABASE` when `SELECT 1 FROM pg_database` found nothing. */
  function WithDatabase(dbs: map<string, Database>, name: string): map<string, Database>
  {
    if name in dbs then dbs else dbs[name := map[]]
  }

  /** Committing over a database that was just created is the same as committing it directly. */
  lemma WithDatabaseOverwrite(dbs: map<string, Database>, name: string, db: Database)
    ensures WithDatabase(dbs, name)[name := db] == dbs[name := db]
  {
  }

  /** Updating the same two tables again overrides the earlier updates. */
  lemma UpdateBoth(db: Database, k1: TableName, k2: TableName, a: Table, b: Table, a2: Table, b2: Table)
    requires k1 != k2
    ensures db[k1 := a][k2 := b][k1 := a2][k2 := b2] == db[k1 := a2][k2 := b2]
  {
  }

  /** Updating the same table twice keeps only the second update. */
  lemma UpdateTwice(db: Database, k: TableName, a: Table, b: Table)
    ensures db[k := a][k := b] == db[k := b]
  {
  }

  /** Writing a table back unchanged leaves the database as it was. */
  lemma UpdateSame(db: Database, k: TableName)
    requires k in db
    ensures db[k := db[k]] == db
  {
  }

  /** `CREATE TABLE IF NOT EXISTS`. */
  function WithTable(db: Database, name: TableName): Database
  {
    if name in db then db else db[name := EmptyTable]
  }

  /** Creating a database twice is the same as creating it once, and it never removes one. */
  lemma WithDatabaseIdempotent(dbs: map<string, Database>, name: string)
    ensures WithDatabase(WithDatabase(dbs, name), name) == WithDatabase(dbs, name)
    ensures name in WithDatabase(dbs, name)
    ensures forall d :: d in dbs ==> d in WithDatabase(dbs, name) && WithDatabase(dbs, name)[d] == dbs[d]
  {
  }

  /** Every table of `before` is still in `after`, its sequence no further back. */
  predicate Advanced(before: Database, after: Database)
  {
    forall name :: name in before ==> name in after && before[name].nextId <= after[name].nextId
  }

  /**
   * What an aborted transaction whose working copy was `work` leaves of the
   * committed database: the tables it had, with their ids and rows, each of
   * whose sequences stays where the transaction moved it, since `nextval` is
   * never rolled back. Tables the transaction created are gone.
   */
  function Aborted(committed: Database, work: Database): Database
  {
    map name | name in committed ::
      Table(committed[name].ids, committed[name].rows,
            if name in work then work[name].nextId else committed[name].nextId)
  }

  /** An aborted transaction leaves every constraint of the committed database in place. */
  lemma AbortedIntact(committed: Database, work: Database)
    requires Intact(committed) && Advanced(committed, work)
    ensures Intact(Aborted(committed, work))
  {
    var r := Aborted(committed, work);
    forall name | name in r
      ensures TableIntact(r, name)
    {
      assert TableIntact(committed, name);
      forall j | 0 <= j < |r[name].rows|
        ensures RefsOk(r, r[name].rows[j])
      {
        var row := committed[name].rows[j];
        assert RefsOk(committed, row);
        forall i | 0 <= i < |References(row)|
          ensures RefOk(r, References(row)[i])
        {
          assert RefOk(committed, References(row)[i]);
        }
      }
    }
  }

  /** Aborting a transaction that left its working copy as committed changes nothing. */
  lemma AbortedUnchanged(committed: Database)
    ensures Aborted(committed, committed) == committed
  {
    var r := Aborted(committed, committed);
    forall name | name in committed
      ensures r[name] == committed[name]
    {
    }
  }

  class Server {
    /** The committed databases by name. */
    var databases: map<string, Database>

    predicate Valid()
      reads this
    {
      forall d :: d in databases ==> Intact(databases[d])
    }

    constructor (databases: map<string, Database>)
      requires forall d :: d in databases ==> Intact(databases[d])
      ensures this.databases == databases && Valid()
    {
      this.databases := databases;
    }

    /** The autocommit catalog check and `CREATE DATABASE` of `create_database_if_not_exists`. */
    method CreateDatabaseIfNotExists(name: string)
      requires Valid()
      modifies this
      ensures Valid()
      ensures databases == WithDatabase(old(databases), name)
    {
      if name !in databases {
        databases := databases[name := map[]];
      }
    }
  }

  class Connection {
    const server: Server
    const dbname: string
    /** The working copy of the open transaction. */
    var tables: Database

    predicate Valid()
      reads this
    {
      Intact(tables)
    }

    constructor (server: Server, dbname: string)
      requires server.Valid() && dbname in server.databases
      ensures this.server == server && this.dbname == dbname
      ensures tables == server.databases[dbname] && Valid()
    {
      this.server := server;
      this.dbname := dbname;
      tables := server.databases[dbname];
    }

    method CreateTableIfNotExists(name: TableName)
      requires Valid()
      modifies this
      ensures Valid()
      ensures tables == WithTable(old(tables), name)
    {
      if name !in tables {
        CreateIntact(tables, name);
        tables := tables[name := EmptyTable];
      }
    }

    /** `SELECT COUNT(*) FROM name`. */
    method Count(name: TableName) returns (n: nat)
      requires name in tables
      ensures n == |tables[name].rows|
    {
      n := |tables[name].rows|;
    }

    /** `INSERT INTO name … RETURNING id`; the caller shows the row breaks no constraint. */
    method Insert(name: TableName, r: Row) returns (id: nat)
      requires Valid() && Fits(tables, name, r) && KeyFree(tables[name], r)
      modifies this
      ensures Valid()
      ensures id == old(tables[name].nextId)
      ensures tables == old(tables)[name := Append(old(tables[name]), r)]
    {
      AppendIntact(tables, name, r);
      id := tables[name].nextId;
      tables := tables[name := Append(tables[name], r)];
    }

    /** A `for` loop of INSERTs into one table whose rows carry no UNIQUE value. */
    method InsertAll(name: TableName, rows: seq<Row>)
      requires Valid() && name in tables
      requires name in tables && AllFit(tables, name, rows)
      modifies this
      ensures Valid()
      ensures tables == old(tables)[name := AppendAll(old(tables[name]), rows)]
    {
      ghost var before := tables;
      var i := 0;
      while i < |rows|
        invariant 0 <= i <= |rows|
        invariant Valid()
        invariant tables == before[name := AppendAll(before[name], rows[..i])]
      {
        AppendAllExtends(before, name, rows[..i]);
        RefsOkExtends(before, tables, rows[i]);
        var _ := Insert(name, rows[i]);
        AppendAllSnoc(before[name], rows[..i], rows[i]);
        assert rows[..i + 1] == rows[..i] + [rows[i]];
        i := i + 1;
      }
      assert rows[..i] == rows;
    }

    /** `SELECT id FROM name`: every id once, in an order the server chooses. */
    method SelectIds(name: TableName) returns (ids: seq<nat>)
      requires name in tables
      ensures multiset(ids) == multiset(tables[name].ids)
    {
      ids :| multiset(ids) == multiset(tables[name].ids);
    }

    /** `conn.commit()`: the working copy becomes the database's committed state. */
    method Commit()
      requires Valid() && server.Valid()
      modifies server
      ensures server.Valid()
      ensures server.databases == old(server.databases)[dbname := tables]
    {
      server.databases := server.databases[dbname := tables];
    }

    /**
     * The connection closed with its transaction open, as when the script
     * raises: the server aborts the transaction. Only the draws on the
     * sequences of tables that were already committed outlive it.
     */
    method Abandon()
      requires server.Valid() && dbname in server.databases
      requires Advanced(server.databases[dbname], tables)
      modifies server
      ensures server.Valid()
      ensures server.databases == old(server.databases)[dbname := Aborted(old(server.databases[dbname]), tables)]
    {
      AbortedIntact(server.databases[dbname], tables);
      server.databases := server.databases[dbname := Aborted(server.databases[dbname], tables)];
    }
  }
}
