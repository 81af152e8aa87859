/**
 * The pattern every `insert_mcpN` follows before it inserts anything:
 * create the database if it is missing, connect, run the batch of
 * `CREATE TABLE IF NOT EXISTS` statements, and count the rows of the
 * domain's sentinel table.
 */
module Seeding {
  import opened Schema
  import opened Store

  /**
   * How a seeding run ends: it found the sentinel table populated and closed
   * without writing, it committed its rows, or it raised before the commit
   * (so the transaction is rolled back).
   */
  datatype Outcome = AlreadySeeded | Seeded | RolledBack

  /** Creating the named tables in order, each only if it is missing. */
  function WithTables(db: Database, names: seq<TableName>): (r: Database)
    ensures forall n :: n in r <==> n in db || n in names
    ensures forall n :: n in r ==> r[n] == if n in db then db[n] else EmptyTable
    decreases |names|
  {
    if |names| == 0 then db
    else WithTable(WithTables(db, names[..|names| - 1]), names[|names| - 1])
  }

  /** The working copy right after the CREATE TABLE batch of a run against `dbname`. */
  function Prepared(dbs: map<string, Database>, dbname: string, names: seq<TableName>): (db: Database)
    ensures forall n :: n in names ==> n in db
  {
    WithTables(WithDatabase(dbs, dbname)[dbname], names)
  }

  /** The sentinel table of the domain exists and already has rows. */
  predicate Populated(dbs: map<string, Database>, dbname: string, sentinel: TableName)
  {
    dbname in dbs && sentinel in dbs[dbname] && |dbs[dbname][sentinel].rows| > 0
  }

  /**
   * `create_database_if_not_exists(dbname)`, `psycopg2.connect`, the CREATE
   * TABLE batch and `SELECT COUNT(*) FROM sentinel`. The count is non-zero
   * exactly when the sentinel table was already populated.
   */
  method Open(server: Server, dbname: string, names: seq<TableName>, sentinel: TableName)
    returns (conn: Connection, count: nat)
    requires server.Valid() && sentinel in names
    modifies server
    ensures server.Valid() && server.databases == WithDatabase(old(server.databases), dbname)
    ensures fresh(conn) && conn.Valid() && conn.server == server && conn.dbname == dbname
    ensures conn.tables == Prepared(old(server.databases), dbname, names)
    ensures count == |conn.tables[sentinel].rows|
    ensures count > 0 <==> Populated(old(server.databases), dbname, sentinel)
  {
    server.CreateDatabaseIfNotExists(dbname);
    conn := new Connection(server, dbname);
    CreateTables(conn, names);
    count := conn.Count(sentinel);
    PreparedSentinel(old(server.databases), dbname, names, sentinel);
  }

  /** The sentinel table of a prepared database is the old one when it existed and empty otherwise. */
  lemma PreparedSentinel(dbs: map<string, Database>, dbname: string, names: seq<TableName>, sentinel: TableName)
    requires sentinel in names
    ensures sentinel in Prepared(dbs, dbname, names)
    ensures |Prepared(dbs, dbname, names)[sentinel].rows| > 0 <==> Populated(dbs, dbname, sentinel)
  {
    var before := WithDatabase(dbs, dbname)[dbname];
    assert dbname in dbs ==> before == dbs[dbname];
  }

  /** The CREATE TABLE batch moves no sequence. */
  lemma PreparedAdvanced(db: Database, names: seq<TableName>)
    ensures Advanced(db, WithTables(db, names))
  {
  }

  /** The batch of `CREATE TABLE IF NOT EXISTS` statements, in order. */
  method CreateTables(conn: Connection, names: seq<TableName>)
    requires conn.Valid()
    modifies conn
    ensures conn.Valid()
    ensures conn.tables == WithTables(old(conn.tables), names)
  {
    var i := 0;
    while i < |names|
      invariant 0 <= i <= |names|
      invariant conn.Valid()
      invariant conn.tables == WithTables(old(conn.tables), names[..i])
    {
      conn.CreateTableIfNotExists(names[i]);
      assert names[..i + 1][..i] == names[..i];
      i := i + 1;
    }
    assert names[..i] == names;
  }
}
