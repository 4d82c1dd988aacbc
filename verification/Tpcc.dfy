/** TPC-C new orders, payments and deliveries over SQLite tables, with their transaction boundaries. */
module Tpcc {
  import opened Common

  datatype Place = Place(w: int, d: int)
  datatype OrderKey = OrderKey(w: int, d: int, o: int)
  datatype CustomerKey = CustomerKey(w: int, d: int, c: int)
  datatype StockKey = StockKey(w: int, i: int)

  datatype Warehouse = Warehouse(tax: real, ytd: real)
  datatype District = District(tax: real, ytd: real, nextOId: int)
  datatype Customer = Customer(discount: real, credit: string, balance: real)
  datatype Order = Order(customer: int, cnt: nat, allLocal: bool, carrier: Option<int>)
  datatype Line = Line(item: int, supply: int, qty: int, amount: real, delivered: Option<string>)

  datatype Parties = Parties(
    warehouses: map<int, Warehouse>, districts: map<Place, District>, customers: map<CustomerKey, Customer>)

  /** An order's lines are numbered from 1 in the order they were inserted; pending is NEW_ORDER. */
  datatype Sales = Sales(orders: map<OrderKey, Order>, pending: set<OrderKey>, lines: map<OrderKey, seq<Line>>)

  datatype Store = Store(items: map<int, real>, stock: map<StockKey, int>)

  datatype Db = Db(parties: Parties, sales: Sales, store: Store)

  // ---------------------------------------------------------------- new orders

  datatype Item = Item(id: int, supply: int, qty: int)
  datatype NewOrder = NewOrder(w: int, d: int, c: int, items: seq<Item>)

  function LinesOf(lines: map<OrderKey, seq<Line>>, k: OrderKey): seq<Line> {
    if k in lines then lines[k] else []
  }

  /** What is left on the shelf; too little triggers a refill of 91. */
  function Restock(quantity: int, ordered: int): int {
    if quantity > ordered then quantity - ordered else quantity - ordered + 91
  }

  /** The line an item asks for, at its price and a rate for taxes and discount. */
  function LineFor(prices: map<int, real>, item: Item, rate: real): Line
    requires item.id in prices
  {
    Line(item.id, item.supply, item.qty, item.qty as real * prices[item.id] * rate, None)
  }

  /** None where the item or its stock is unknown, or the line number is taken. */
  function AddLine(sales: Sales, store: Store, k: OrderKey, n: nat, item: Item, rate: real): Option<(Sales, Store)> {
    var shelf := StockKey(item.supply, item.id);
    if item.id !in store.items || shelf !in store.stock || |LinesOf(sales.lines, k)| >= n then None
    else
      var line := LineFor(store.items, item, rate);
      Some((sales.(lines := sales.lines[k := LinesOf(sales.lines, k) + [line]]),
            store.(stock := store.stock[shelf := Restock(store.stock[shelf], item.qty)])))
  }

  function AddLines(sales: Sales, store: Store, k: OrderKey, items: seq<Item>, rate: real): Option<(Sales, Store)> {
    if items == [] then Some((sales, store))
    else
      var before := AddLines(sales, store, k, items[..|items| - 1], rate);
      if before.None? then None
      else AddLine(before.value.0, before.value.1, k, |items|, items[|items| - 1], rate)
  }

  predicate AllLocal(r: NewOrder) { forall i :: 0 <= i < |r.items| ==> r.items[i].supply == r.w }

  function NextOrder(db: Db, r: NewOrder): OrderKey
    requires Place(r.w, r.d) in db.parties.districts
  {
    OrderKey(r.w, r.d, db.parties.districts[Place(r.w, r.d)].nextOId)
  }

  function Rate(p: Parties, r: NewOrder): real
    requires r.w in p.warehouses && Place(r.w, r.d) in p.districts && CustomerKey(r.w, r.d, r.c) in p.customers
  {
    (1.0 + p.warehouses[r.w].tax + p.districts[Place(r.w, r.d)].tax)
    * (1.0 - p.customers[CustomerKey(r.w, r.d, r.c)].discount)
  }

  predicate Served(p: Parties, r: NewOrder) {
    r.w in p.warehouses && CustomerKey(r.w, r.d, r.c) in p.customers && Place(r.w, r.d) in p.districts
  }

  /** None: an exception was raised and everything rolled back. */
  function NewOrderOf(db: Db, r: NewOrder): Option<Db> {
    if !Served(db.parties, r) then None
    else
      var place, k := Place(r.w, r.d), NextOrder(db, r);
      var district := db.parties.districts[place];
      var raised := district.(nextOId := district.nextOId + 1);
      var parties := db.parties.(districts := db.parties.districts[place := raised]);
      var filled := AddLines(db.sales, db.store, k, r.items, Rate(db.parties, r));
      if filled.None? then None
      else
        var sales := filled.value.0;
        if k in sales.orders || k in sales.pending then None
        else
          Some(Db(parties,
                  sales.(orders := sales.orders[k := Order(r.c, |r.items|, AllLocal(r), None)],
                      pending := sales.pending + {k}),
                  filled.value.1))
  }

  // ---------------------------------------------------------------- payments

  /** named: the customers the last name selects in (w, d), by first name, when paying by name. */
  datatype Payment = Payment(w: int, d: int, cw: int, cd: int, c: int, amount: real, byName: bool, named: seq<int>)

  /** Aborted: an exception no handler catches ends the process. */
  datatype Outcome = Committed(db: Db) | RolledBack | LeftOpen | Aborted

  /** The middle row, rounding up; with no row the given id stays. */
  function PaidCustomer(p: Payment): int {
    if p.byName && p.named != [] then p.named[(|p.named| + 1) / 2 - 1] else p.c
  }

  /** Whose balance is updated: bad credit is looked up under the paying district. */
  function PaidKey(parties: Parties, p: Payment): CustomerKey {
    var c := PaidCustomer(p);
    var read := if p.byName then CustomerKey(p.w, p.d, c) else CustomerKey(p.cw, p.cd, c);
    var found := (p.byName ==> p.named != []) && read in parties.customers;
    if found && parties.customers[read].credit == "BC" then CustomerKey(p.w, p.d, c) else CustomerKey(p.cw, p.cd, c)
  }

  /** An unknown warehouse returns without ROLLBACK; an unknown district throws what nothing catches. */
  function PaymentOf(db: Db, p: Payment): Outcome {
    var s, place := db.parties, Place(p.w, p.d);
    if p.w !in s.warehouses then LeftOpen
    else if place !in s.districts then Aborted
    else
      var k, warehouse, district := PaidKey(s, p), s.warehouses[p.w], s.districts[place];
      var customers :=
        if k in s.customers then s.customers[k := s.customers[k].(balance := s.customers[k].balance + p.amount)]
        else s.customers;
      Committed(db.(parties := Parties(
        s.warehouses[p.w := warehouse.(ytd := warehouse.ytd + p.amount)],
        s.districts[place := district.(ytd := district.ytd + p.amount)],
        customers)))
  }

  // ---------------------------------------------------------------- deliveries

  ghost predicate IsOldest(pending: set<OrderKey>, place: Place, o: int) {
    && OrderKey(place.w, place.d, o) in pending
    && forall k :: k in pending && k.w == place.w && k.d == place.d ==> o <= k.o
  }

  ghost predicate NonePending(pending: set<OrderKey>, place: Place) {
    forall k :: k in pending ==> k.w != place.w || k.d != place.d
  }

  function Total(lines: seq<Line>): real {
    if lines == [] then 0.0 else Total(lines[..|lines| - 1]) + lines[|lines| - 1].amount
  }

  function Dated(lines: seq<Line>, date: string): (r: seq<Line>)
    ensures |r| == |lines| && forall i :: 0 <= i < |lines| ==> r[i] == lines[i].(delivered := Some(date))
  {
    seq(|lines|, i requires 0 <= i < |lines| => lines[i].(delivered := Some(date)))
  }

  /** None where the pending order has no ORDERS row. */
  function DeliverOrder(db: Db, k: OrderKey, carrier: int, date: string): Option<Db> {
    if k !in db.sales.orders then None
    else
      var s, order := db.sales, db.sales.orders[k];
      var c, lines := CustomerKey(k.w, k.d, order.customer), LinesOf(s.lines, k);
      var customers := db.parties.customers;
      Some(db.(
        sales := Sales(s.orders[k := order.(carrier := Some(carrier))], s.pending - {k},
                       if k in s.lines then s.lines[k := Dated(lines, date)] else s.lines),
        parties := db.parties.(customers :=
          if c in customers then customers[c := customers[c].(balance := customers[c].balance + Total(lines))]
          else customers)))
  }

  /** The least pending id of a district, if any. */
  ghost function Oldest(pending: set<OrderKey>, place: Place): (r: Option<int>)
    ensures r.Some? ==> IsOldest(pending, place, r.value)
    ensures r.None? ==> NonePending(pending, place)
  {
    if NonePending(pending, place) then None
    else
      OldestExists(pending, place);
      var o :| IsOldest(pending, place, o);
      Some(o)
  }

  lemma {:induction false} OldestExists(pending: set<OrderKey>, place: Place)
    requires !NonePending(pending, place)
    ensures exists o :: IsOldest(pending, place, o)
  {
    var k :| k in pending && k.w == place.w && k.d == place.d;
    var rest := pending - {k};
    if NonePending(rest, place) {
      assert IsOldest(pending, place, k.o);
    } else {
      OldestExists(rest, place);
      var o :| IsOldest(rest, place, o);
      assert IsOldest(pending, place, if o <= k.o then o else k.o);
    }
  }

  ghost function DeliverDistrict(db: Db, place: Place, carrier: int, date: string): Option<Db> {
    var o := Oldest(db.sales.pending, place);
    if o.None? then Some(db) else DeliverOrder(db, OrderKey(place.w, place.d, o.value), carrier, date)
  }

  const DISTRICTS: nat := 10

  ghost function DeliverDistricts(db: Db, w: int, n: nat, carrier: int, date: string): Option<Db> {
    if n == 0 then Some(db)
    else
      var before := DeliverDistricts(db, w, n - 1, carrier, date);
      if before.None? then None else DeliverDistrict(before.value, Place(w, n), carrier, date)
  }

  // ---------------------------------------------------------------- the executor

  /** named: as for a payment. */
  datatype Request =
    | Buy(order: NewOrder)
    | Pay(payment: Payment)
    | Deliver(w: int, carrier: int, date: string)
    | OrderStatus(byName: bool, named: seq<int>)
    | StockLevel

  predicate IsQuery(r: Request) { r.OrderStatus? || r.StockLevel? }

  /** What a request makes of the tables, starting its own transaction. A name nobody has returns without ROLLBACK. */
  ghost function Execute(db: Db, r: Request): Outcome {
    match r
    case Buy(order) => var done := NewOrderOf(db, order); if done.Some? then Committed(done.value) else RolledBack
    case Pay(payment) => PaymentOf(db, payment)
    case Deliver(w, carrier, date) =>
      var done := DeliverDistricts(db, w, DISTRICTS, carrier, date);
      if done.Some? then Committed(done.value) else LeftOpen
    case OrderStatus(byName, named) => if byName && named == [] then LeftOpen else RolledBack
    case StockLevel => RolledBack
  }

  /** Between requests: no transaction, one left open, or the process gone. */
  datatype Status = Idle | Open | Down

  /** The executor: its committed tables and the state of its connection. */
  datatype Conn = Conn(db: Db, status: Status)

  /** BEGIN fails inside an open transaction; a query then rolls it back, the others return. */
  ghost function Step(c: Conn, r: Request): Conn {
    match c.status
    case Down => c
    case Open => if IsQuery(r) then Conn(c.db, Idle) else c
    case Idle =>
      match Execute(c.db, r)
      case Committed(db) => Conn(db, Idle)
      case RolledBack => c
      case LeftOpen => Conn(c.db, Open)
      case Aborted => Conn(c.db, Down)
  }

  class TpccExecutor {
    var db: Db
    var status: Status

    ghost function Abs(): Conn
      reads this
    {
      Conn(db, status)
    }

    constructor (db: Db)
      ensures Abs() == Conn(db, Idle)
    {
      this.db, status := db, Idle;
    }

    method ExecuteNewOrder(r: NewOrder) returns (ok: bool)
      modifies this
      ensures Abs() == Step(old(Abs()), Buy(r))
      ensures ok <==> old(status) == Idle && NewOrderOf(old(db), r).Some?
    {
      if status != Idle { return false; }
      if !Served(db.parties, r) { return false; }
      var k, rate := NextOrder(db, r), Rate(db.parties, r);
      var place := Place(r.w, r.d);
      var district := db.parties.districts[place];
      var raised := district.(nextOId := district.nextOId + 1);
      var parties := db.parties.(districts := db.parties.districts[place := raised]);
      var filled, local := FillLines(k, r, rate);
      if filled.None? { return false; }
      var sales := filled.value.0;
      if k in sales.orders || k in sales.pending { return false; }
      sales := sales.(orders := sales.orders[k := Order(r.c, |r.items|, local, None)], pending := sales.pending + {k});
      db := Db(parties, sales, filled.value.1);
      ok := true;
    }

    /** Works on copies: the tables change only once the whole order has gone through. */
    method FillLines(k: OrderKey, r: NewOrder, rate: real) returns (filled: Option<(Sales, Store)>, local: bool)
      ensures filled == AddLines(db.sales, db.store, k, r.items, rate)
      ensures filled.Some? ==> local == AllLocal(r)
    {
      hide AddLine;
      var sales, store := db.sales, db.store;
      local := true;
      for n := 0 to |r.items|
        invariant AddLines(db.sales, db.store, k, r.items[..n], rate) == Some((sales, store))
        invariant local <==> forall i :: 0 <= i < n ==> r.items[i].supply == r.w
      {
        assert r.items[..n + 1][..n] == r.items[..n];
        var item := r.items[n];
        if item.supply != r.w { local := false; }
        var added := AddLine(sales, store, k, n + 1, item, rate);
        if added.None? {
          NoneStays(db.sales, db.store, k, r.items, rate, n + 1);
          return None, local;
        }
        sales, store := added.value.0, added.value.1;
      }
      assert r.items[..|r.items|] == r.items;
      filled := Some((sales, store));
    }

    method ExecutePayment(p: Payment) returns (ok: bool)
      modifies this
      ensures Abs() == Step(old(Abs()), Pay(p))
      ensures ok <==> old(status) == Idle && PaymentOf(old(db), p).Committed?
    {
      if status != Idle { return false; }
      var s, place := db.parties, Place(p.w, p.d);
      if p.w !in s.warehouses {
        status := Open;
        return false;
      }
      var warehouses := s.warehouses[p.w := s.warehouses[p.w].(ytd := s.warehouses[p.w].ytd + p.amount)];
      if place !in s.districts {
        status := Down;
        return false;
      }
      var districts := s.districts[place := s.districts[place].(ytd := s.districts[place].ytd + p.amount)];
      var customers, k := s.customers, PaidKey(s, p);
      if k in customers { customers := customers[k := customers[k].(balance := customers[k].balance + p.amount)]; }
      db := db.(parties := Parties(warehouses, districts, customers));
      ok := true;
    }

    method FindOldest(pending: set<OrderKey>, place: Place) returns (o: Option<int>)
      ensures o == Oldest(pending, place)
    {
      var todo := pending;
      o := None;
      while todo != {}
        invariant todo <= pending
        invariant o.None? ==> NonePending(pending - todo, place)
        invariant o.Some? ==> IsOldest(pending - todo, place, o.value)
        decreases |todo|
      {
        var k :| k in todo;
        todo := todo - {k};
        if k.w == place.w && k.d == place.d && (o.None? || k.o < o.value) { o := Some(k.o); }
      }
      assert pending - todo == pending;
      assert OrderKey(place.w, place.d, if o.Some? then o.value else 0) in pending <==> o.Some?;
    }

    method ExecuteDelivery(w: int, carrier: int, date: string) returns (ok: bool)
      modifies this
      ensures Abs() == Step(old(Abs()), Deliver(w, carrier, date))
      ensures ok <==> old(status) == Idle && DeliverDistricts(old(db), w, DISTRICTS, carrier, date).Some?
    {
      if status != Idle { return false; }
      var working := db;
      for d := 0 to DISTRICTS
        invariant DeliverDistricts(db, w, d, carrier, date) == Some(working)
        invariant db == old(db) && status == old(status)
      {
        var o := FindOldest(working.sales.pending, Place(w, d + 1));
        if o.Some? {
          var done := DeliverOrder(working, OrderKey(w, d + 1, o.value), carrier, date);
          if done.None? {
            NeverDone(db, w, d + 1, DISTRICTS, carrier, date);
            status := Open;
            return false;
          }
          working := done.value;
        }
      }
      db := working;
      ok := true;
    }

    method ExecuteOrderStatus(byName: bool, named: seq<int>)
      modifies this`status
      ensures Abs() == Step(old(Abs()), OrderStatus(byName, named))
    {
      if status == Down { return; }
      if status == Open {
        status := Idle;
        return;
      }
      if byName && named == [] { status := Open; }
    }

    method ExecuteStockLevel()
      modifies this`status
      ensures Abs() == Step(old(Abs()), StockLevel)
    {
      if status == Open { status := Idle; }
    }
  }

  lemma {:induction false} NoneStays(sales: Sales, store: Store, k: OrderKey, items: seq<Item>, rate: real, n: nat)
    requires n <= |items| && AddLines(sales, store, k, items[..n], rate).None?
    ensures AddLines(sales, store, k, items, rate).None?
    decreases |items|
  {
    if n == |items| {
      assert items[..n] == items;
    } else {
      assert items[..|items| - 1][..n] == items[..n];
      NoneStays(sales, store, k, items[..|items| - 1], rate, n);
    }
  }

  lemma {:induction false} NeverDone(db: Db, w: int, n: nat, m: nat, carrier: int, date: string)
    requires n <= m && DeliverDistricts(db, w, n, carrier, date).None?
    ensures DeliverDistricts(db, w, m, carrier, date).None?
  {
    if n < m { NeverDone(db, w, n, m - 1, carrier, date); }
  }

  // ---------------------------------------------------------------- consistency

  /** An order has as many lines as it says, and a carrier and delivery dates exactly once it has left NEW_ORDER. */
  ghost predicate OrderOk(s: Sales, districts: map<Place, District>, k: OrderKey)
    requires k in s.orders
  {
    var lines := LinesOf(s.lines, k);
    && Place(k.w, k.d) in districts && k.o < districts[Place(k.w, k.d)].nextOId
    && |lines| == s.orders[k].cnt
    && (s.orders[k].carrier.None? <==> k in s.pending)
    && forall i :: 0 <= i < |lines| ==> (lines[i].delivered.None? <==> k in s.pending)
  }

  /** Every later id of the district is pending too. */
  ghost predicate PendingOk(s: Sales, districts: map<Place, District>, k: OrderKey)
    requires Place(k.w, k.d) in districts
  {
    forall p :: k.o <= p < districts[Place(k.w, k.d)].nextOId ==> OrderKey(k.w, k.d, p) in s.pending
  }

  ghost predicate KeyOk(s: Sales, districts: map<Place, District>, k: OrderKey) {
    && (k in s.lines || k in s.pending ==> k in s.orders)
    && (k in s.orders ==> OrderOk(s, districts, k))
    && (k in s.pending ==> PendingOk(s, districts, k))
  }

  ghost predicate Consistent(db: Db) { forall k :: KeyOk(db.sales, db.parties.districts, k) }

  /** Filling an order touches its own lines and the stock. */
  lemma {:induction false} AddLinesEffect(sales: Sales, store: Store, k: OrderKey, items: seq<Item>, rate: real)
    requires k !in sales.lines && AddLines(sales, store, k, items, rate).Some?
    ensures var s := AddLines(sales, store, k, items, rate).value.0;
            && s.orders == sales.orders && s.pending == sales.pending && s.lines - {k} == sales.lines
            && |LinesOf(s.lines, k)| == |items|
            && forall i :: 0 <= i < |items| ==> LinesOf(s.lines, k)[i].delivered.None?
  {
    if items == [] {
      assert sales.lines - {k} == sales.lines;
    } else {
      AddLinesEffect(sales, store, k, items[..|items| - 1], rate);
    }
  }

  lemma NewOrderConsistent(db: Db, r: NewOrder)
    requires Consistent(db) && NewOrderOf(db, r).Some?
    ensures Consistent(NewOrderOf(db, r).value)
  {
    var k0, db' := NextOrder(db, r), NewOrderOf(db, r).value;
    assert KeyOk(db.sales, db.parties.districts, k0);
    AddLinesEffect(db.sales, db.store, k0, r.items, Rate(db.parties, r));
    var filled := AddLines(db.sales, db.store, k0, r.items, Rate(db.parties, r)).value.0;
    forall k ensures KeyOk(db'.sales, db'.parties.districts, k) {
      assert KeyOk(db.sales, db.parties.districts, k);
      assert k != k0 ==> (k in filled.lines <==> k in filled.lines - {k0});
      assert k != k0 ==> LinesOf(db'.sales.lines, k) == LinesOf(db.sales.lines, k);
    }
  }

  /** Between consistent tables no key is ever taken: only an unknown party, item or shelf fails an order. */
  lemma NewOrderFailsIff(db: Db, r: NewOrder)
    requires Consistent(db)
    ensures NewOrderOf(db, r).None? <==>
            || !Served(db.parties, r)
            || exists i :: 0 <= i < |r.items| && Unknown(db.store, r.items[i])
  {
    if Served(db.parties, r) {
      var k := NextOrder(db, r);
      assert KeyOk(db.sales, db.parties.districts, k);
      AddLinesIff(db.sales, db.store, k, r.items, Rate(db.parties, r));
      if AddLines(db.sales, db.store, k, r.items, Rate(db.parties, r)).Some? {
        AddLinesEffect(db.sales, db.store, k, r.items, Rate(db.parties, r));
      }
    }
  }

  predicate Unknown(store: Store, item: Item) {
    item.id !in store.items || StockKey(item.supply, item.id) !in store.stock
  }

  lemma {:induction false} AddLinesIff(sales: Sales, store: Store, k: OrderKey, items: seq<Item>, rate: real)
    requires k !in sales.lines
    ensures var r := AddLines(sales, store, k, items, rate);
            && (r.None? <==> exists i :: 0 <= i < |items| && Unknown(store, items[i]))
            && (r.Some? ==> r.value.1.items == store.items && r.value.1.stock.Keys == store.stock.Keys)
  {
    if items != [] {
      var init, last := items[..|items| - 1], items[|items| - 1];
      AddLinesIff(sales, store, k, init, rate);
      assert forall i :: 0 <= i < |init| ==> init[i] == items[i];
      if AddLines(sales, store, k, init, rate).Some? {
        AddLinesEffect(sales, store, k, init, rate);
        if Unknown(store, last) { assert Unknown(store, items[|items| - 1]); }
      } else {
        var i :| 0 <= i < |init| && Unknown(store, init[i]);
        assert Unknown(store, items[i]);
      }
    }
  }

  lemma PaymentConsistent(db: Db, p: Payment)
    requires Consistent(db) && PaymentOf(db, p).Committed?
    ensures Consistent(PaymentOf(db, p).db)
  {
    var db' := PaymentOf(db, p).db;
    forall k ensures KeyOk(db'.sales, db'.parties.districts, k) {
      assert KeyOk(db.sales, db.parties.districts, k);
    }
  }

  lemma DeliverOrderConsistent(db: Db, k0: OrderKey, carrier: int, date: string)
    requires Consistent(db) && IsOldest(db.sales.pending, Place(k0.w, k0.d), k0.o)
    ensures DeliverOrder(db, k0, carrier, date).Some? && Consistent(DeliverOrder(db, k0, carrier, date).value)
  {
    assert KeyOk(db.sales, db.parties.districts, k0);
    var db' := DeliverOrder(db, k0, carrier, date).value;
    forall k ensures KeyOk(db'.sales, db'.parties.districts, k) {
      assert KeyOk(db.sales, db.parties.districts, k);
      assert k != k0 ==> LinesOf(db'.sales.lines, k) == LinesOf(db.sales.lines, k);
      assert k0 !in db.sales.lines ==> |LinesOf(db.sales.lines, k0)| == 0;
    }
  }

  lemma {:induction false} DeliveryConsistent(db: Db, w: int, n: nat, carrier: int, date: string)
    requires Consistent(db)
    ensures DeliverDistricts(db, w, n, carrier, date).Some?
    ensures Consistent(DeliverDistricts(db, w, n, carrier, date).value)
  {
    if n > 0 {
      DeliveryConsistent(db, w, n - 1, carrier, date);
      var before := DeliverDistricts(db, w, n - 1, carrier, date).value;
      var o := Oldest(before.sales.pending, Place(w, n));
      if o.Some? { DeliverOrderConsistent(before, OrderKey(w, n, o.value), carrier, date); }
    }
  }

  ghost function Run(c: Conn, history: seq<Request>): Conn {
    if history == [] then c else Step(Run(c, history[..|history| - 1]), history[|history| - 1])
  }

  lemma StepConsistent(c: Conn, r: Request)
    requires Consistent(c.db)
    ensures Consistent(Step(c, r).db)
  {
    if c.status == Idle {
      match r
      case Buy(order) => if NewOrderOf(c.db, order).Some? { NewOrderConsistent(c.db, order); }
      case Pay(payment) => if PaymentOf(c.db, payment).Committed? { PaymentConsistent(c.db, payment); }
      case Deliver(w, carrier, date) => DeliveryConsistent(c.db, w, DISTRICTS, carrier, date);
      case OrderStatus(_, _) =>
      case StockLevel =>
    }
  }

  /** Whatever is executed, consistent tables stay consistent. */
  lemma {:induction false} RunConsistent(c: Conn, history: seq<Request>)
    requires Consistent(c.db)
    ensures Consistent(Run(c, history).db)
  {
    if history != [] {
      RunConsistent(c, history[..|history| - 1]);
      StepConsistent(Run(c, history[..|history| - 1]), history[|history| - 1]);
    }
  }

  // ---------------------------------------------------------------- what consistency means

  ghost predicate PendingFrom(db: Db, place: Place, low: int)
    requires place in db.parties.districts
  {
    forall o :: OrderKey(place.w, place.d, o) in db.sales.pending <==> low <= o < db.parties.districts[place].nextOId
  }

  /** The pending ids of a district are an interval that ends just below the next id. */
  lemma PendingIsInterval(db: Db, place: Place)
    requires Consistent(db) && place in db.parties.districts
    ensures exists low :: PendingFrom(db, place, low)
  {
    var next, oldest := db.parties.districts[place].nextOId, Oldest(db.sales.pending, place);
    var low := if oldest.Some? then oldest.value else next;
    forall o ensures OrderKey(place.w, place.d, o) in db.sales.pending <==> low <= o < next {
      assert KeyOk(db.sales, db.parties.districts, OrderKey(place.w, place.d, o));
      assert KeyOk(db.sales, db.parties.districts, OrderKey(place.w, place.d, low));
    }
    assert PendingFrom(db, place, low);
  }

  /** Within a district orders are delivered in the order of their ids. */
  lemma DeliveredInOrder(db: Db, j: OrderKey, k: OrderKey)
    requires Consistent(db) && j in db.sales.orders && k in db.sales.orders && j.w == k.w && j.d == k.d && j.o < k.o
    requires db.sales.orders[k].carrier.Some?
    ensures db.sales.orders[j].carrier.Some?
  {
    assert KeyOk(db.sales, db.parties.districts, j) && KeyOk(db.sales, db.parties.districts, k);
  }

  ghost predicate KeepsDelivered(a: Sales, b: Sales, k: OrderKey) {
    k in a.orders && k !in a.pending ==>
      k in b.orders && b.orders[k] == a.orders[k] && LinesOf(b.lines, k) == LinesOf(a.lines, k) && k !in b.pending
  }

  lemma {:induction false} DeliveryKeeps(db: Db, w: int, n: nat, carrier: int, date: string, k: OrderKey)
    requires Consistent(db)
    ensures DeliverDistricts(db, w, n, carrier, date).Some?
    ensures KeepsDelivered(db.sales, DeliverDistricts(db, w, n, carrier, date).value.sales, k)
  {
    DeliveryConsistent(db, w, n, carrier, date);
    if n > 0 { DeliveryKeeps(db, w, n - 1, carrier, date, k); }
  }

  lemma StepKeepsDelivered(c: Conn, r: Request, k: OrderKey)
    requires Consistent(c.db)
    ensures KeepsDelivered(c.db.sales, Step(c, r).db.sales, k)
  {
    if c.status == Idle && r.Buy? && NewOrderOf(c.db, r.order).Some? {
      var k0, rate := NextOrder(c.db, r.order), Rate(c.db.parties, r.order);
      assert KeyOk(c.db.sales, c.db.parties.districts, k0);
      AddLinesEffect(c.db.sales, c.db.store, k0, r.order.items, rate);
      var filled := AddLines(c.db.sales, c.db.store, k0, r.order.items, rate).value.0;
      assert k != k0 ==> (k in filled.lines <==> k in filled.lines - {k0});
    } else if c.status == Idle && r.Deliver? {
      DeliveryKeeps(c.db, r.w, DISTRICTS, r.carrier, r.date, k);
    }
  }

  /** A delivered order is never touched again: no later run changes its carrier or its lines. */
  lemma {:induction false} DeliveredOnce(c: Conn, history: seq<Request>, k: OrderKey)
    requires Consistent(c.db)
    ensures KeepsDelivered(c.db.sales, Run(c, history).db.sales, k)
  {
    if history != [] {
      var init := history[..|history| - 1];
      DeliveredOnce(c, init, k);
      RunConsistent(c, init);
      StepKeepsDelivered(Run(c, init), history[|history| - 1], k);
    }
  }

  /** Two databases agree on everything of one district that a delivery touches. */
  ghost predicate SameAt(a: Db, b: Db, place: Place) {
    && (forall o :: var k := OrderKey(place.w, place.d, o);
          && (k in a.sales.orders <==> k in b.sales.orders) && (k in a.sales.pending <==> k in b.sales.pending)
          && (k in a.sales.orders ==> a.sales.orders[k] == b.sales.orders[k])
          && LinesOf(a.sales.lines, k) == LinesOf(b.sales.lines, k))
    && (forall c :: var k := CustomerKey(place.w, place.d, c);
          && (k in a.parties.customers <==> k in b.parties.customers)
          && (k in a.parties.customers ==> a.parties.customers[k] == b.parties.customers[k]))
  }

  lemma SameOldest(a: set<OrderKey>, b: set<OrderKey>, place: Place)
    requires forall o :: OrderKey(place.w, place.d, o) in a <==> OrderKey(place.w, place.d, o) in b
    ensures Oldest(a, place) == Oldest(b, place)
  {
    var x, y := Oldest(a, place), Oldest(b, place);
    assert x.Some? ==> OrderKey(place.w, place.d, x.value) in b;
    assert y.Some? ==> OrderKey(place.w, place.d, y.value) in a;
  }

  lemma SameDelivery(a: Db, b: Db, place: Place, carrier: int, date: string)
    requires SameAt(a, b, place)
    ensures var x, y := DeliverDistrict(a, place, carrier, date), DeliverDistrict(b, place, carrier, date);
            (x.Some? <==> y.Some?) && (x.Some? ==> SameAt(x.value, y.value, place))
  {
    forall o
      ensures OrderKey(place.w, place.d, o) in a.sales.pending <==> OrderKey(place.w, place.d, o) in b.sales.pending
    {
      var k := OrderKey(place.w, place.d, o);
      assert k in a.sales.orders <==> k in b.sales.orders;
    }
    SameOldest(a.sales.pending, b.sales.pending, place);
  }

  lemma OtherDelivery(db: Db, place: Place, carrier: int, date: string, other: Place)
    requires other != place
    ensures var x := DeliverDistrict(db, place, carrier, date); x.Some? ==> SameAt(x.value, db, other)
  {}

  /** One delivery serves each of the ten districts as if alone, its oldest pending order, and nothing else. */
  lemma {:induction false} DeliveryPerDistrict(db: Db, w: int, n: nat, carrier: int, date: string, place: Place)
    requires Consistent(db)
    ensures DeliverDistricts(db, w, n, carrier, date).Some?
    ensures var after := DeliverDistricts(db, w, n, carrier, date).value;
            if place.w == w && 1 <= place.d <= n then
              var alone := DeliverDistrict(db, place, carrier, date);
              alone.Some? && SameAt(after, alone.value, place)
            else SameAt(after, db, place)
  {
    DeliveryConsistent(db, w, n, carrier, date);
    if n > 0 {
      DeliveryPerDistrict(db, w, n - 1, carrier, date, place);
      var before := DeliverDistricts(db, w, n - 1, carrier, date).value;
      if place == Place(w, n) {
        SameDelivery(before, db, place, carrier, date);
      } else {
        OtherDelivery(before, Place(w, n), carrier, date, place);
      }
    }
  }

  // ---------------------------------------------------------------- stock

  function Demand(items: seq<Item>, shelf: StockKey): int {
    if items == [] then 0
    else
      var last := items[|items| - 1];
      Demand(items[..|items| - 1], shelf) + (if StockKey(last.supply, last.id) == shelf then last.qty else 0)
  }

  predicate Supplied(items: seq<Item>) { forall i :: 0 <= i < |items| ==> 0 <= items[i].qty <= 91 }

  /** A shelf stays between 1 and 100 whatever was on it exactly for quantities from 0 to 91. */
  lemma RestockIff(ordered: int)
    ensures (forall s :: 1 <= s <= 100 ==> 1 <= Restock(s, ordered) <= 100) <==> 0 <= ordered <= 91
  {
    if ordered < 0 { assert Restock(100, ordered) > 100; }
    if ordered > 91 { assert Restock(1, ordered) < 1 || Restock(100, ordered) < 1; }
  }

  lemma {:induction false} LinesStock(sales: Sales, store: Store, k: OrderKey, items: seq<Item>, rate: real,
                                      shelf: StockKey)
    requires AddLines(sales, store, k, items, rate).Some? && shelf in store.stock
    ensures var after := AddLines(sales, store, k, items, rate).value.1.stock;
            && shelf in after && (after[shelf] - store.stock[shelf] + Demand(items, shelf)) % 91 == 0
            && (Supplied(items) && 1 <= store.stock[shelf] <= 100 ==> 1 <= after[shelf] <= 100)
  {
    if items != [] { LinesStock(sales, store, k, items[..|items| - 1], rate, shelf); }
  }

  /** What a request takes off a shelf if it commits. */
  ghost function Taken(c: Conn, r: Request, shelf: StockKey): int {
    if c.status == Idle && r.Buy? && NewOrderOf(c.db, r.order).Some? then Demand(r.order.items, shelf) else 0
  }

  ghost function TakenBy(c: Conn, history: seq<Request>, shelf: StockKey): int {
    if history == [] then 0
    else
      var init := history[..|history| - 1];
      TakenBy(c, init, shelf) + Taken(Run(c, init), history[|history| - 1], shelf)
  }

  lemma {:induction false} DeliveryStore(db: Db, w: int, n: nat, carrier: int, date: string)
    ensures var done := DeliverDistricts(db, w, n, carrier, date);
            done.Some? ==> done.value.store == db.store && done.value.parties.warehouses == db.parties.warehouses
                           && done.value.parties.districts == db.parties.districts
  {
    if n > 0 { DeliveryStore(db, w, n - 1, carrier, date); }
  }

  lemma StepStock(c: Conn, r: Request, shelf: StockKey)
    requires shelf in c.db.store.stock
    ensures var after := Step(c, r).db.store.stock;
            && shelf in after && (after[shelf] - c.db.store.stock[shelf] + Taken(c, r, shelf)) % 91 == 0
            && ((r.Buy? ==> Supplied(r.order.items)) && 1 <= c.db.store.stock[shelf] <= 100 ==>
                1 <= after[shelf] <= 100)
  {
    if c.status == Idle && r.Buy? && NewOrderOf(c.db, r.order).Some? {
      LinesStock(c.db.sales, c.db.store, NextOrder(c.db, r.order), r.order.items, Rate(c.db.parties, r.order), shelf);
    } else if c.status == Idle && r.Deliver? {
      DeliveryStore(c.db, r.w, DISTRICTS, r.carrier, r.date);
    }
  }

  /** Over any history a shelf differs from start minus committed orders by whole refills of 91. */
  lemma {:induction false} StockModulo91(c: Conn, history: seq<Request>, shelf: StockKey)
    requires shelf in c.db.store.stock
    ensures var after := Run(c, history).db.store.stock;
            shelf in after && (after[shelf] - c.db.store.stock[shelf] + TakenBy(c, history, shelf)) % 91 == 0
  {
    if history != [] {
      StockModulo91(c, history[..|history| - 1], shelf);
      StepStock(Run(c, history[..|history| - 1]), history[|history| - 1], shelf);
    }
  }

  lemma {:induction false} StockInRange(c: Conn, history: seq<Request>, shelf: StockKey)
    requires shelf in c.db.store.stock && 1 <= c.db.store.stock[shelf] <= 100
    requires forall i :: 0 <= i < |history| && history[i].Buy? ==> Supplied(history[i].order.items)
    ensures shelf in Run(c, history).db.store.stock && 1 <= Run(c, history).db.store.stock[shelf] <= 100
  {
    if history != [] {
      StockInRange(c, history[..|history| - 1], shelf);
      StepStock(Run(c, history[..|history| - 1]), history[|history| - 1], shelf);
    }
  }

  // ---------------------------------------------------------------- money

  ghost function SumOver<K(!new)>(keys: set<K>, f: K -> real): real {
    if keys == {} then 0.0 else var k :| k in keys; f(k) + SumOver(keys - {k}, f)
  }

  lemma {:induction false} SumPick<K(!new)>(keys: set<K>, f: K -> real, k: K)
    requires k in keys
    ensures SumOver(keys, f) == f(k) + SumOver(keys - {k}, f)
  {
    var q :| q in keys && SumOver(keys, f) == f(q) + SumOver(keys - {q}, f);
    if k != q {
      SumPick(keys - {q}, f, k);
      SumPick(keys - {k}, f, q);
      assert keys - {q} - {k} == keys - {k} - {q};
    }
  }

  lemma {:induction false} SumSame<K(!new)>(keys: set<K>, f: K -> real, g: K -> real)
    requires forall k :: k in keys ==> f(k) == g(k)
    ensures SumOver(keys, f) == SumOver(keys, g)
  {
    if keys != {} {
      var k :| k in keys;
      SumPick(keys, f, k);
      SumPick(keys, g, k);
      SumSame(keys - {k}, f, g);
    }
  }

  /** One term more in one place. */
  lemma SumChange<K(!new)>(keys: set<K>, f: K -> real, g: K -> real, k: K)
    requires k in keys && forall j :: j in keys && j != k ==> f(j) == g(j)
    ensures SumOver(keys, g) - SumOver(keys, f) == g(k) - f(k)
  {
    SumPick(keys, f, k);
    SumPick(keys, g, k);
    SumSame(keys - {k}, f, g);
  }

  ghost function YtdOf(districts: map<Place, District>): Place -> real {
    p => if p in districts then districts[p].ytd else 0.0
  }

  function PlacesOf(districts: map<Place, District>, w: int): set<Place> {
    set p | p in districts && p.w == w
  }

  /** How far a warehouse's year-to-date is from the sum of its districts'. */
  ghost function YtdGap(p: Parties, w: int): real
    requires w in p.warehouses
  {
    p.warehouses[w].ytd - SumOver(PlacesOf(p.districts, w), YtdOf(p.districts))
  }

  lemma PaymentGap(db: Db, p: Payment, w: int)
    requires PaymentOf(db, p).Committed? && w in db.parties.warehouses
    ensures w in PaymentOf(db, p).db.parties.warehouses
    ensures YtdGap(PaymentOf(db, p).db.parties, w) == YtdGap(db.parties, w)
  {
    var a, b, place := db.parties.districts, PaymentOf(db, p).db.parties.districts, Place(p.w, p.d);
    var places := PlacesOf(a, w);
    assert PlacesOf(b, w) == places;
    if w == p.w { SumChange(places, YtdOf(a), YtdOf(b), place); } else { SumSame(places, YtdOf(a), YtdOf(b)); }
  }

  lemma StepGap(c: Conn, r: Request, w: int)
    requires w in c.db.parties.warehouses
    ensures w in Step(c, r).db.parties.warehouses && YtdGap(Step(c, r).db.parties, w) == YtdGap(c.db.parties, w)
  {
    if c.status == Idle {
      match r
      case Buy(order) =>
        if NewOrderOf(c.db, order).Some? {
          var a, b := c.db.parties.districts, NewOrderOf(c.db, order).value.parties.districts;
          assert PlacesOf(b, w) == PlacesOf(a, w);
          SumSame(PlacesOf(a, w), YtdOf(a), YtdOf(b));
        }
      case Pay(payment) => if PaymentOf(c.db, payment).Committed? { PaymentGap(c.db, payment, w); }
      case Deliver(w0, carrier, date) => DeliveryStore(c.db, w0, DISTRICTS, carrier, date);
      case OrderStatus(_, _) =>
      case StockLevel =>
    }
  }

  /** Payments never move a warehouse's year-to-date against its districts'. */
  lemma {:induction false} YtdConserved(c: Conn, history: seq<Request>, w: int)
    requires w in c.db.parties.warehouses
    ensures w in Run(c, history).db.parties.warehouses
    ensures YtdGap(Run(c, history).db.parties, w) == YtdGap(c.db.parties, w)
  {
    if history != [] {
      YtdConserved(c, history[..|history| - 1], w);
      StepGap(Run(c, history[..|history| - 1]), history[|history| - 1], w);
    }
  }

  ghost function BalanceOf(customers: map<CustomerKey, Customer>): CustomerKey -> real {
    k => if k in customers then customers[k].balance else 0.0
  }

  ghost function AmountOf(lines: map<OrderKey, seq<Line>>): OrderKey -> real { k => Total(LinesOf(lines, k)) }

  ghost function DeliveredKeys(s: Sales): set<OrderKey> { set k | k in s.orders && s.orders[k].carrier.Some? }

  /** What the customers hold beyond what was delivered to them. */
  ghost function Credit(db: Db): real {
    SumOver(db.parties.customers.Keys, BalanceOf(db.parties.customers))
    - SumOver(DeliveredKeys(db.sales), AmountOf(db.sales.lines))
  }

  /** Every order was placed by a customer of its district. */
  ghost predicate CustomersKnown(db: Db) {
    forall k :: k in db.sales.orders ==> CustomerKey(k.w, k.d, db.sales.orders[k].customer) in db.parties.customers
  }

  lemma {:induction false} TotalDated(lines: seq<Line>, date: string)
    ensures Total(Dated(lines, date)) == Total(lines)
  {
    if lines != [] {
      TotalDated(lines[..|lines| - 1], date);
      assert Dated(lines, date)[..|lines| - 1] == Dated(lines[..|lines| - 1], date);
    }
  }

  lemma DeliverOrderCredit(db: Db, k: OrderKey, carrier: int, date: string)
    requires Consistent(db) && CustomersKnown(db) && k in db.sales.pending
    ensures var done := DeliverOrder(db, k, carrier, date);
            done.Some? && CustomersKnown(done.value) && Credit(done.value) == Credit(db)
  {
    assert KeyOk(db.sales, db.parties.districts, k);
    var after, c := DeliverOrder(db, k, carrier, date).value, CustomerKey(k.w, k.d, db.sales.orders[k].customer);
    var lines := LinesOf(db.sales.lines, k);
    var a, b := DeliveredKeys(db.sales), DeliveredKeys(after.sales);
    assert b == a + {k} && k !in a && b - {k} == a;
    SumPick(b, AmountOf(after.sales.lines), k);
    SumSame(a, AmountOf(db.sales.lines), AmountOf(after.sales.lines));
    TotalDated(lines, date);
    assert LinesOf(after.sales.lines, k) == (if k in db.sales.lines then Dated(lines, date) else []);
    assert after.parties.customers.Keys == db.parties.customers.Keys;
    SumChange(db.parties.customers.Keys, BalanceOf(db.parties.customers), BalanceOf(after.parties.customers), c);
  }

  lemma {:induction false} DeliveryCredit(db: Db, w: int, n: nat, carrier: int, date: string)
    requires Consistent(db) && CustomersKnown(db)
    ensures var done := DeliverDistricts(db, w, n, carrier, date);
            done.Some? && CustomersKnown(done.value) && Credit(done.value) == Credit(db)
  {
    if n > 0 {
      DeliveryCredit(db, w, n - 1, carrier, date);
      DeliveryConsistent(db, w, n - 1, carrier, date);
      var before := DeliverDistricts(db, w, n - 1, carrier, date).value;
      var o := Oldest(before.sales.pending, Place(w, n));
      if o.Some? { DeliverOrderCredit(before, OrderKey(w, n, o.value), carrier, date); }
    }
  }

  lemma NewOrderCredit(db: Db, r: NewOrder)
    requires Consistent(db) && CustomersKnown(db) && NewOrderOf(db, r).Some?
    ensures CustomersKnown(NewOrderOf(db, r).value) && Credit(NewOrderOf(db, r).value) == Credit(db)
  {
    var k0, after := NextOrder(db, r), NewOrderOf(db, r).value;
    assert KeyOk(db.sales, db.parties.districts, k0);
    AddLinesEffect(db.sales, db.store, k0, r.items, Rate(db.parties, r));
    var filled := AddLines(db.sales, db.store, k0, r.items, Rate(db.parties, r)).value.0;
    assert DeliveredKeys(after.sales) == DeliveredKeys(db.sales);
    forall k | k in DeliveredKeys(db.sales) ensures LinesOf(after.sales.lines, k) == LinesOf(db.sales.lines, k) {
      assert k in filled.lines <==> k in filled.lines - {k0};
    }
    SumSame(DeliveredKeys(db.sales), AmountOf(db.sales.lines), AmountOf(after.sales.lines));
  }

  /** What a committed payment credits: nothing when its customer does not exist. */
  ghost function PaidIn(c: Conn, r: Request): real {
    if c.status == Idle && r.Pay? && PaymentOf(c.db, r.payment).Committed?
        && PaidKey(c.db.parties, r.payment) in c.db.parties.customers
    then r.payment.amount else 0.0
  }

  ghost function PaidInBy(c: Conn, history: seq<Request>): real {
    if history == [] then 0.0
    else
      var init := history[..|history| - 1];
      PaidInBy(c, init) + PaidIn(Run(c, init), history[|history| - 1])
  }

  lemma PaymentCredit(db: Db, p: Payment)
    requires CustomersKnown(db) && PaymentOf(db, p).Committed?
    ensures CustomersKnown(PaymentOf(db, p).db)
    ensures Credit(PaymentOf(db, p).db)
            == Credit(db) + (if PaidKey(db.parties, p) in db.parties.customers then p.amount else 0.0)
  {
    var a, b, k := db.parties.customers, PaymentOf(db, p).db.parties.customers, PaidKey(db.parties, p);
    assert b.Keys == a.Keys;
    if k in a { SumChange(a.Keys, BalanceOf(a), BalanceOf(b), k); }
  }

  lemma StepCredit(c: Conn, r: Request)
    requires Consistent(c.db) && CustomersKnown(c.db)
    ensures CustomersKnown(Step(c, r).db) && Credit(Step(c, r).db) == Credit(c.db) + PaidIn(c, r)
  {
    if c.status == Idle {
      match r
      case Buy(order) => if NewOrderOf(c.db, order).Some? { NewOrderCredit(c.db, order); }
      case Pay(payment) => if PaymentOf(c.db, payment).Committed? { PaymentCredit(c.db, payment); }
      case Deliver(w, carrier, date) => DeliveryCredit(c.db, w, DISTRICTS, carrier, date);
      case OrderStatus(_, _) =>
      case StockLevel =>
    }
  }

  /** Over any history the customers' balances are what was paid in and what was delivered, each order once. */
  lemma {:induction false} MoneyConserved(c: Conn, history: seq<Request>)
    requires Consistent(c.db) && CustomersKnown(c.db)
    ensures CustomersKnown(Run(c, history).db) && Credit(Run(c, history).db) == Credit(c.db) + PaidInBy(c, history)
  {
    if history != [] {
      var init := history[..|history| - 1];
      MoneyConserved(c, init);
      RunConsistent(c, init);
      StepCredit(Run(c, init), history[|history| - 1]);
    }
  }

  // ---------------------------------------------------------------- transactions left open

  predicate UnknownWarehouse(p: Parties, r: Request) { r.Pay? && r.payment.w !in p.warehouses }

  predicate UnknownDistrict(p: Parties, r: Request) {
    r.Pay? && r.payment.w in p.warehouses && Place(r.payment.w, r.payment.d) !in p.districts
  }

  predicate UnknownName(r: Request) { r.OrderStatus? && r.byName && r.named == [] }

  /**
   * Over consistent tables, the requests that leave their transaction open are a payment at an
   * unknown warehouse and an order status by an unknown name; a payment at a known warehouse and an
   * unknown district ends the process; and every other request leaves the connection as it was.
   */
  lemma StatusIff(c: Conn, r: Request)
    requires Consistent(c.db) && c.status == Idle
    ensures Step(c, r).status == Open <==> UnknownWarehouse(c.db.parties, r) || UnknownName(r)
    ensures Step(c, r).status == Down <==> UnknownDistrict(c.db.parties, r)
  {
    if r.Deliver? { DeliveryConsistent(c.db, r.w, DISTRICTS, r.carrier, r.date); }
  }

  /** A transaction left open stops everything until a query, which closes it without effect. */
  lemma {:induction false} OpenUntilQuery(c: Conn, history: seq<Request>, q: Request)
    requires c.status == Open && IsQuery(q) && forall i :: 0 <= i < |history| ==> !IsQuery(history[i])
    ensures Run(c, history) == c && Run(c, history + [q]) == Conn(c.db, Idle)
  {
    assert (history + [q])[..|history|] == history;
    if history != [] { OpenUntilQuery(c, history[..|history| - 1], q); }
  }

  /** A process that has ended executes nothing. */
  lemma {:induction false} DownForGood(c: Conn, history: seq<Request>)
    requires c.status == Down
    ensures Run(c, history) == c
  {
    if history != [] { DownForGood(c, history[..|history| - 1]); }
  }

  /** Nothing that would disturb the connection. */
  ghost predicate Placed(p: Parties, r: Request) {
    !UnknownWarehouse(p, r) && !UnknownDistrict(p, r) && !UnknownName(r)
  }

  /** Warehouses and districts never come or go. */
  lemma StepKeepsPlaces(c: Conn, r: Request)
    ensures var p, q := c.db.parties, Step(c, r).db.parties;
            q.warehouses.Keys == p.warehouses.Keys && q.districts.Keys == p.districts.Keys
  {
    if c.status == Idle && r.Deliver? { DeliveryStore(c.db, r.w, DISTRICTS, r.carrier, r.date); }
  }

  lemma {:induction false} RunKeepsPlaces(c: Conn, history: seq<Request>)
    ensures var p, q := c.db.parties, Run(c, history).db.parties;
            q.warehouses.Keys == p.warehouses.Keys && q.districts.Keys == p.districts.Keys
  {
    if history != [] {
      RunKeepsPlaces(c, history[..|history| - 1]);
      StepKeepsPlaces(Run(c, history[..|history| - 1]), history[|history| - 1]);
    }
  }

  /** The connection is idle after every request of the history. */
  ghost predicate AlwaysIdle(c: Conn, history: seq<Request>) {
    Run(c, history).status == Idle && (history != [] ==> AlwaysIdle(c, history[..|history| - 1]))
  }

  /** Over a whole history the connection is undisturbed exactly when every request is placed. */
  lemma {:induction false} AlwaysIdleIff(c: Conn, history: seq<Request>)
    requires Consistent(c.db) && c.status == Idle
    ensures AlwaysIdle(c, history) <==> forall i :: 0 <= i < |history| ==> Placed(c.db.parties, history[i])
  {
    hide Consistent, Step;
    if history != [] {
      var init, last := history[..|history| - 1], history[|history| - 1];
      AlwaysIdleIff(c, init);
      assert history == init + [last];
      RunConsistent(c, init);
      RunKeepsPlaces(c, init);
      if Run(c, init).status == Idle { StatusIff(Run(c, init), last); }
    }
  }
}
