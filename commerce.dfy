/**
 * `insert_mcp1`: the e-commerce and marketing database. Customers first,
 * then campaigns (whose ids the insert returns), thirty daily performance
 * rows per campaign, and orders whose customer is drawn from the customers
 * already inserted.
 */
module Commerce {
  import opened Wrappers
  import opened Text
  import opened Sampling
  import opened Schema
  import opened Store
  import opened Seeding

  const Tables: seq<TableName> := [Customers, Orders, Campaigns, Campaign_Performance]
  const Segments: seq<string> := ["일반", "VIP", "기업"]
  const Channels: seq<string> := ["SNS 광고", "검색엔진", "이메일"]

  /** Days of performance data per campaign, and the length of a campaign. */
  const PerformanceDays: nat := 30
  const CampaignLength: nat := 30

  /** NUM_CUSTOMERS, NUM_ORDERS and NUM_CAMPAIGNS. */
  datatype Config = Config(numCustomers: nat, numOrders: nat, numCampaigns: nat)

  const DefaultConfig := Config(1000, 5000, 10)

  datatype CustomerDraw = CustomerDraw(name: string, segment: nat, signupDate: Day, channel: nat)
  datatype CampaignDraw = CampaignDraw(startDate: Day, budget: nat)
  datatype PerformanceDraw = PerformanceDraw(impressions: nat, clicks: nat, conversions: nat)
  datatype OrderDraw = OrderDraw(customer: nat, orderDate: Day, amount: nat, product: nat)

  /**
   * The random and Faker draws of one run, by call site and loop position;
   * `clock(k)` is `datetime.now()` when the k-th campaign's rows are made.
   */
  datatype Oracle = Oracle(
    customer: nat -> CustomerDraw,
    campaign: nat -> CampaignDraw,
    clock: nat -> Day,
    performance: (nat, nat) -> PerformanceDraw,
    order: nat -> OrderDraw)

  function CustomerRow(d: CustomerDraw): (r: Row)
    ensures r.Customer? && r.segment in Segments && r.channel in Channels
  {
    Customer(d.name, Choice(Segments, d.segment), d.signupDate, Choice(Channels, d.channel))
  }

  function CustomerRows(n: nat, o: Oracle): seq<Row>
  {
    seq(n, i requires 0 <= i => CustomerRow(o.customer(i)))
  }

  /** The i-th campaign (0-based): `Campaign_{i+1}`, thirty days long, budget in [1000, 5000]. */
  function CampaignRow(i: nat, d: CampaignDraw): (r: Row)
    ensures r.Campaign? && r.campaignName == "Campaign_" + Decimal(i + 1)
    ensures r.endDate == r.startDate + CampaignLength
    ensures 1000 <= r.budget <= 5000
  {
    Campaign("Campaign_" + Decimal(i + 1), d.startDate, d.startDate + CampaignLength, RandInt(d.budget, 1000, 5000))
  }

  function CampaignRows(n: nat, o: Oracle): seq<Row>
  {
    seq(n, i requires 0 <= i => CampaignRow(i, o.campaign(i)))
  }

  /** One day of a campaign: `100 <= clicks <= impressions` and `0 <= conversions <= clicks`. */
  function PerformanceRow(cid: nat, day: Day, d: PerformanceDraw): (r: Row)
    ensures r.CampaignPerformance? && r.campaignId == Some(cid) && r.date == day
    ensures 1000 <= r.impressions <= 10000
    ensures 100 <= r.clicks <= r.impressions
    ensures 0 <= r.conversions <= r.clicks
  {
    var impressions := RandInt(d.impressions, 1000, 10000);
    var clicks := RandInt(d.clicks, 100, impressions);
    CampaignPerformance(Some(cid), day, impressions, clicks, RandInt(d.conversions, 0, clicks))
  }

  /** The daily rows of the k-th campaign, id cid: the thirty days up to `now`. */
  function PerformanceRows(cid: nat, k: nat, o: Oracle): seq<Row>
  {
    seq(PerformanceDays, i requires 0 <= i => PerformanceRow(cid, o.clock(k) - PerformanceDays + i, o.performance(k, i)))
  }

  /** The performance rows of all campaigns, campaign by campaign. */
  function PerformanceAll(cids: seq<nat>, o: Oracle): seq<Row>
    decreases |cids|
  {
    if |cids| == 0 then []
    else
      var n := |cids| - 1;
      PerformanceAll(cids[..n], o) + PerformanceRows(cids[n], n, o)
  }

  /** Inserting the next campaign extends the batch by one. */
  lemma CampaignStep(t: Table, n: nat, o: Oracle)
    ensures Append(AppendAll(t, CampaignRows(n, o)), CampaignRow(n, o.campaign(n))) == AppendAll(t, CampaignRows(n + 1, o))
  {
    assert CampaignRows(n + 1, o) == CampaignRows(n, o) + [CampaignRow(n, o.campaign(n))];
    AppendAllSnoc(t, CampaignRows(n, o), CampaignRow(n, o.campaign(n)));
  }

  /** An order: its customer drawn from the customer ids, NULL only when there are none. */
  function OrderRow(customerIds: seq<nat>, d: OrderDraw): (r: Row)
    ensures r.Order? && r.customerId == Pick(customerIds, d.customer)
    ensures r.customerId.Some? <==> |customerIds| > 0
    ensures r.customerId.Some? ==> r.customerId.value in customerIds
    ensures 10000 <= r.amount <= 300000 && 1 <= r.productId <= 100
  {
    Order(Pick(customerIds, d.customer), d.orderDate, RandInt(d.amount, 10000, 300000), RandInt(d.product, 1, 100))
  }

  function OrderRows(customerIds: seq<nat>, n: nat, o: Oracle): seq<Row>
  {
    seq(n, i requires 0 <= i => OrderRow(customerIds, o.order(i)))
  }

  // ---------------------------------------------------------------------
  // Every generated row passes the checks of its INSERT
  // ---------------------------------------------------------------------

  lemma CustomersFit(db: Database, n: nat, o: Oracle)
    requires Customers in db
    ensures AllFit(db, Customers, CustomerRows(n, o))
  {
    forall j | 0 <= j < n
      ensures Fits(db, Customers, CustomerRows(n, o)[j]) && UniqueKey(CustomerRows(n, o)[j]).None?
    {
      var r := CustomerRows(n, o)[j];
      assert r == CustomerRow(o.customer(j));
      assert References(r) == [];
    }
  }

  lemma PerformanceFits(db: Database, cid: nat, k: nat, o: Oracle)
    requires Campaign_Performance in db && Campaigns in db && cid in db[Campaigns].ids
    ensures AllFit(db, Campaign_Performance, PerformanceRows(cid, k, o))
  {
    forall j | 0 <= j < |PerformanceRows(cid, k, o)|
      ensures Fits(db, Campaign_Performance, PerformanceRows(cid, k, o)[j]) && UniqueKey(PerformanceRows(cid, k, o)[j]).None?
    {
      var r := PerformanceRows(cid, k, o)[j];
      assert r == PerformanceRow(cid, o.clock(k) - PerformanceDays + j, o.performance(k, j));
      assert References(r) == [ForeignKey(Campaigns, Some(cid))];
    }
  }

  lemma OrdersFit(db: Database, n: nat, o: Oracle)
    requires Orders in db && Customers in db
    ensures AllFit(db, Orders, OrderRows(db[Customers].ids, n, o))
  {
    var ids := db[Customers].ids;
    forall j | 0 <= j < n
      ensures Fits(db, Orders, OrderRows(ids, n, o)[j]) && UniqueKey(OrderRows(ids, n, o)[j]).None?
    {
      var r := OrderRows(ids, n, o)[j];
      assert r == OrderRow(ids, o.order(j));
      assert References(r) == [ForeignKey(Customers, r.customerId)];
      assert RefOk(db, References(r)[0]);
    }
  }

  // ---------------------------------------------------------------------
  // The committed state of a seeding run
  // ---------------------------------------------------------------------

  /** Customers after the run: the rows of the customer loop appended. */
  function SeededCustomers(db: Database, cfg: Config, o: Oracle): Table
    requires Customers in db
  {
    AppendAll(db[Customers], CustomerRows(cfg.numCustomers, o))
  }

  /** Campaigns after the run: `Campaign_1` … `Campaign_n` appended. */
  function SeededCampaigns(db: Database, cfg: Config, o: Oracle): Table
    requires Campaigns in db
  {
    AppendAll(db[Campaigns], CampaignRows(cfg.numCampaigns, o))
  }

  /** Campaign_Performance after the run: thirty rows for each id the campaign loop got back. */
  function SeededPerformance(db: Database, cfg: Config, o: Oracle): Table
    requires Campaigns in db && Campaign_Performance in db
  {
    AppendAll(db[Campaign_Performance], PerformanceAll(Range(db[Campaigns].nextId, cfg.numCampaigns), o))
  }

  /** Orders after the run: each drawn from the customer ids as they stand after the customer loop. */
  function SeededOrders(db: Database, cfg: Config, o: Oracle): Table
    requires Customers in db && Orders in db
  {
    AppendAll(db[Orders], OrderRows(SeededCustomers(db, cfg, o).ids, cfg.numOrders, o))
  }

  /** The four tables of the domain exist. */
  predicate HasTables(db: Database)
  {
    Customers in db && Orders in db && Campaigns in db && Campaign_Performance in db
  }

  /** The database `insert_mcp1` commits, from the prepared working copy. */
  function Seeded1(db: Database, cfg: Config, o: Oracle): Database
    requires HasTables(db)
  {
    db[Customers := SeededCustomers(db, cfg, o)]
      [Campaigns := SeededCampaigns(db, cfg, o)]
      [Campaign_Performance := SeededPerformance(db, cfg, o)]
      [Orders := SeededOrders(db, cfg, o)]
  }

  // ---------------------------------------------------------------------
  // What a seeding run promises
  // ---------------------------------------------------------------------

  /** The performance rows come in blocks of thirty, one block per campaign, one row per day. */
  lemma {:induction false} PerformanceLayout(cids: seq<nat>, o: Oracle, k: nat, i: nat)
    requires k < |cids| && i < PerformanceDays
    ensures |PerformanceAll(cids, o)| == PerformanceDays * |cids|
    ensures PerformanceAll(cids, o)[PerformanceDays * k + i]
      == PerformanceRow(cids[k], o.clock(k) - PerformanceDays + i, o.performance(k, i))
    decreases |cids|
  {
    var n := |cids| - 1;
    var front := PerformanceAll(cids[..n], o);
    PerformanceLength(cids[..n], o);
    if k < n {
      PerformanceLayout(cids[..n], o, k, i);
      assert cids[..n][k] == cids[k];
    } else {
      assert PerformanceAll(cids, o)[PerformanceDays * k + i] == PerformanceRows(cids[n], n, o)[i];
    }
  }

  lemma {:induction false} PerformanceLength(cids: seq<nat>, o: Oracle)
    ensures |PerformanceAll(cids, o)| == PerformanceDays * |cids|
    decreases |cids|
  {
    if |cids| > 0 {
      PerformanceLength(cids[..|cids| - 1], o);
    }
  }

  /** Every row of a campaign's block names that campaign and nothing else. */
  lemma PerformanceBlockRefs(cid: nat, k: nat, o: Oracle)
    ensures forall j :: 0 <= j < |PerformanceRows(cid, k, o)| ==>
      References(PerformanceRows(cid, k, o)[j]) == [ForeignKey(Campaigns, Some(cid))]
  {
    var block := PerformanceRows(cid, k, o);
    forall j | 0 <= j < |block|
      ensures References(block[j]) == [ForeignKey(Campaigns, Some(cid))]
    {
      assert block[j] == PerformanceRow(cid, o.clock(k) - PerformanceDays + j, o.performance(k, j));
    }
  }

  /** Each campaign id in the list gets thirty rows for every time it occurs there. */
  lemma {:induction false} PerformanceCount(cids: seq<nat>, o: Oracle, cid: nat)
    ensures CountReferences(PerformanceAll(cids, o), Campaigns, cid) == PerformanceDays * multiset(cids)[cid]
    decreases |cids|
  {
    if |cids| > 0 {
      var n := |cids| - 1;
      var block := PerformanceRows(cids[n], n, o);
      PerformanceCount(cids[..n], o, cid);
      CountReferencesConcat(PerformanceAll(cids[..n], o), block, Campaigns, cid);
      PerformanceBlockRefs(cids[n], n, o);
      CountReferencesBlock(block, Campaigns, cids[n], cid);
      MultisetSnoc(cids);
    }
  }

  /**
   * Every campaign a run inserts ends up with exactly thirty rows in
   * Campaign_Performance: its own block, and no older row can name an id
   * the sequence had not handed out yet.
   */
  lemma ThirtyDaysPerCampaign(db: Database, cfg: Config, o: Oracle, k: nat)
    requires Intact(db) && Campaigns in db && Campaign_Performance in db
    requires k < cfg.numCampaigns
    ensures CountReferences(SeededPerformance(db, cfg, o).rows, Campaigns, db[Campaigns].nextId + k) == PerformanceDays
  {
    var cid: nat := db[Campaigns].nextId + k;
    var cids := Range(db[Campaigns].nextId, cfg.numCampaigns);
    NoReferencesToNewIds(db, Campaign_Performance, Campaigns, cid);
    PerformanceCount(cids, o, cid);
    RangeOccurrences(db[Campaigns].nextId, cfg.numCampaigns, cid);
    CountReferencesConcat(db[Campaign_Performance].rows, PerformanceAll(cids, o), Campaigns, cid);
  }

  /**
   * On a run that found Customers empty, every order names one of the
   * customers inserted by the same run, and is NULL only when that run
   * inserted none.
   */
  lemma OrdersReferToNewCustomers(db: Database, cfg: Config, o: Oracle, j: nat)
    requires Customers in db && Orders in db
    requires WellFormed(db[Customers]) && |db[Customers].rows| == 0 && j < cfg.numOrders
    ensures |db[Orders].rows| + j < |SeededOrders(db, cfg, o).rows|
    ensures SeededOrders(db, cfg, o).rows[|db[Orders].rows| + j].Order?
    ensures FromRun(SeededOrders(db, cfg, o).rows[|db[Orders].rows| + j].customerId,
                    db[Customers].nextId, cfg.numCustomers)
  {
    var ids := Range(db[Customers].nextId, cfg.numCustomers);
    assert SeededCustomers(db, cfg, o).ids == ids;
    assert |SeededOrders(db, cfg, o).rows| == |db[Orders].rows| + cfg.numOrders;
    assert SeededOrders(db, cfg, o).rows[|db[Orders].rows| + j] == OrderRow(ids, o.order(j));
    PickFromRun(db[Customers].nextId, cfg.numCustomers, o.order(j).customer);
  }

  // ---------------------------------------------------------------------
  // The run
  // ---------------------------------------------------------------------

  /** The campaign loop: each INSERT … RETURNING campaign_id appends its id to the list. */
  method InsertCampaigns(conn: Connection, n: nat, o: Oracle) returns (cids: seq<nat>)
    requires conn.Valid() && Campaigns in conn.tables
    modifies conn
    ensures conn.Valid()
    ensures cids == Range(old(conn.tables[Campaigns].nextId), n)
    ensures conn.tables == old(conn.tables)[Campaigns := AppendAll(old(conn.tables[Campaigns]), CampaignRows(n, o))]
  {
    var before := conn.tables[Campaigns];
    cids := [];
    var i := 0;
    while i < n
      invariant 0 <= i <= n
      invariant conn.Valid()
      invariant conn.tables == old(conn.tables)[Campaigns := AppendAll(before, CampaignRows(i, o))]
      invariant cids == Range(before.nextId, i)
    {
      var row := CampaignRow(i, o.campaign(i));
      assert References(row) == [];
      var id := conn.Insert(Campaigns, row);
      CampaignStep(before, i, o);
      RangeSnoc(before.nextId, i);
      cids := cids + [id];
      i := i + 1;
    }
  }

  /** Inserting the next campaign's block extends the batch by that block. */
  lemma PerformanceStep(t: Table, cids: seq<nat>, k: nat, o: Oracle)
    requires k < |cids|
    ensures AppendAll(AppendAll(t, PerformanceAll(cids[..k], o)), PerformanceRows(cids[k], k, o))
      == AppendAll(t, PerformanceAll(cids[..k + 1], o))
  {
    assert cids[..k + 1][..k] == cids[..k];
    AppendAllConcat(t, PerformanceAll(cids[..k], o), PerformanceRows(cids[k], k, o));
  }

  /** The nested loop over the returned campaign ids and their thirty days. */
  method InsertPerformance(conn: Connection, cids: seq<nat>, o: Oracle)
    requires conn.Valid() && Campaign_Performance in conn.tables && Campaigns in conn.tables
    requires forall k :: 0 <= k < |cids| ==> cids[k] in conn.tables[Campaigns].ids
    modifies conn
    ensures conn.Valid()
    ensures conn.tables == old(conn.tables)[Campaign_Performance :=
      AppendAll(old(conn.tables[Campaign_Performance]), PerformanceAll(cids, o))]
  {
    var before := conn.tables[Campaign_Performance];
    var k := 0;
    assert AppendAll(before, PerformanceAll(cids[..0], o)) == before;
    UpdateSame(old(conn.tables), Campaign_Performance);
    while k < |cids|
      invariant 0 <= k <= |cids|
      invariant conn.Valid()
      invariant conn.tables == old(conn.tables)[Campaign_Performance := AppendAll(before, PerformanceAll(cids[..k], o))]
    {
      assert conn.tables[Campaigns] == old(conn.tables)[Campaigns];
      PerformanceFits(conn.tables, cids[k], k, o);
      ghost var sofar := conn.tables[Campaign_Performance];
      conn.InsertAll(Campaign_Performance, PerformanceRows(cids[k], k, o));
      PerformanceStep(before, cids, k, o);
      UpdateTwice(old(conn.tables), Campaign_Performance, sofar, conn.tables[Campaign_Performance]);
      k := k + 1;
    }
    assert cids[..k] == cids;
  }

  /** The order loop: each order's customer is drawn from the customers already inserted. */
  method InsertOrders(conn: Connection, n: nat, o: Oracle)
    requires conn.Valid() && Orders in conn.tables && Customers in conn.tables
    modifies conn
    ensures conn.Valid()
    ensures conn.tables == old(conn.tables)[Orders :=
      AppendAll(old(conn.tables[Orders]), OrderRows(old(conn.tables[Customers].ids), n, o))]
  {
    OrdersFit(conn.tables, n, o);
    conn.InsertAll(Orders, OrderRows(conn.tables[Customers].ids, n, o));
  }

  /** The inserts of a run that found Customers empty, on the open transaction. */
  method Populate(conn: Connection, cfg: Config, o: Oracle)
    requires conn.Valid() && HasTables(conn.tables)
    modifies conn
    ensures conn.Valid()
    ensures conn.tables == Seeded1(old(conn.tables), cfg, o)
  {
    ghost var db := conn.tables;
    CustomersFit(conn.tables, cfg.numCustomers, o);
    conn.InsertAll(Customers, CustomerRows(cfg.numCustomers, o));
    var cids := InsertCampaigns(conn, cfg.numCampaigns, o);
    NewIdsPresent(db[Campaigns], CampaignRows(cfg.numCampaigns, o));
    InsertPerformance(conn, cids, o);
    InsertOrders(conn, cfg.numOrders, o);
  }

  /**
   * `insert_mcp1`. A populated Customers table leaves the server as it was;
   * otherwise the run commits exactly `Seeded1` of the prepared tables.
   */
  method InsertMcp1(server: Server, cfg: Config, o: Oracle) returns (outcome: Outcome)
    requires server.Valid()
    modifies server
    ensures server.Valid()
    ensures outcome != RolledBack
    ensures outcome == AlreadySeeded <==> Populated(old(server.databases), "mcp1", Customers)
    ensures outcome == AlreadySeeded ==> server.databases == old(server.databases)
    ensures outcome == Seeded ==>
      server.databases == old(server.databases)["mcp1" := Seeded1(Prepared(old(server.databases), "mcp1", Tables), cfg, o)]
  {
    var conn, count := Open(server, "mcp1", Tables, Customers);
    if count > 0 {
      return AlreadySeeded;
    }
    Populate(conn, cfg, o);
    conn.Commit();
    WithDatabaseOverwrite(old(server.databases), "mcp1", conn.tables);
    return Seeded;
  }
}
