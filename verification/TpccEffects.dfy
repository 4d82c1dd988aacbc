/** What each committed TPC-C request does to the tables, row by row. */
module TpccEffects {
  import opened Common
  import opened Tpcc

  // ---------------------------------------------------------------- new orders

  ghost predicate LinesFor(prices: map<int, real>, items: seq<Item>, rate: real, lines: seq<Line>) {
    |lines| == |items| &&
    forall i :: 0 <= i < |items| ==> items[i].id in prices && lines[i] == LineFor(prices, items[i], rate)
  }

  lemma OneLine(sales: Sales, store: Store, k: OrderKey, n: nat, item: Item, rate: real)
    requires AddLine(sales, store, k, n, item, rate).Some?
    ensures item.id in store.items
    ensures var (s, t) := AddLine(sales, store, k, n, item, rate).value;
            && t.items == store.items
            && LinesOf(s.lines, k) == LinesOf(sales.lines, k) + [LineFor(store.items, item, rate)]
  {
    hide LineFor;
  }

  lemma MoreLines(prices: map<int, real>, items: seq<Item>, rate: real, lines: seq<Line>)
    requires items != [] && LinesFor(prices, items[..|items| - 1], rate, lines) && items[|items| - 1].id in prices
    ensures LinesFor(prices, items, rate, lines + [LineFor(prices, items[|items| - 1], rate)])
  {
    hide LineFor;
    var n := |items| - 1;
    assert forall i :: 0 <= i < n ==> items[..n][i] == items[i];
  }

  /** Filling an order appends its lines as they were asked for. */
  lemma {:induction false} FilledLines(sales: Sales, store: Store, k: OrderKey, items: seq<Item>, rate: real)
    requires k !in sales.lines && AddLines(sales, store, k, items, rate).Some?
    ensures var (s, t) := AddLines(sales, store, k, items, rate).value;
            t.items == store.items && LinesFor(store.items, items, rate, LinesOf(s.lines, k))
  {
    if items != [] {
      var n := |items| - 1;
      FilledLines(sales, store, k, items[..n], rate);
      hide AddLine, LineFor, LinesFor;
      var (s, t) := AddLines(sales, store, k, items[..n], rate).value;
      OneLine(s, t, k, n + 1, items[n], rate);
      MoreLines(store.items, items, rate, LinesOf(s.lines, k));
    }
  }

  lemma TimesBoth(x: real, a: real, b: real)
    ensures x * (a * b) == x * a * b
  {}

  /** A committed order takes the district's next id; its row and pending entry are new, and nothing else changes. */
  lemma OrderEffect(db: Db, r: NewOrder)
    requires Consistent(db) && Execute(db, Buy(r)).Committed?
    ensures Place(r.w, r.d) in db.parties.districts
    ensures var t, p, place := Execute(db, Buy(r)).db, db.parties, Place(r.w, r.d);
            var k := OrderKey(r.w, r.d, p.districts[place].nextOId);
            var local := forall i :: 0 <= i < |r.items| ==> r.items[i].supply == r.w;
            && k !in db.sales.orders && k !in db.sales.pending && k !in db.sales.lines
            && t.sales.orders == db.sales.orders[k := Order(r.c, |r.items|, local, None)]
            && t.sales.pending == db.sales.pending + {k} && t.sales.lines - {k} == db.sales.lines
            && t.parties == p.(districts := p.districts[place := p.districts[place].(nextOId := k.o + 1)])
            && t.store.items == db.store.items
  {
    var k, rate := NextOrder(db, r), Rate(db.parties, r);
    assert KeyOk(db.sales, db.parties.districts, k);
    hide Consistent, KeyOk, Rate, LinesFor;
    AddLinesEffect(db.sales, db.store, k, r.items, rate);
    FilledLines(db.sales, db.store, k, r.items, rate);
    hide AddLines;
  }

  lemma OrderedLines(db: Db, r: NewOrder)
    requires Consistent(db) && Execute(db, Buy(r)).Committed?
    ensures Served(db.parties, r)
    ensures LinesFor(db.store.items, r.items, Rate(db.parties, r),
                     LinesOf(Execute(db, Buy(r)).db.sales.lines, NextOrder(db, r)))
  {
    var k, rate := NextOrder(db, r), Rate(db.parties, r);
    assert KeyOk(db.sales, db.parties.districts, k);
    hide Consistent, KeyOk, Rate, LinesFor;
    FilledLines(db.sales, db.store, k, r.items, rate);
    hide AddLines;
  }

  /** Its lines are what was asked for, each with the amount quantity * price * (1 + taxes) * (1 - discount). */
  lemma OrderAmounts(db: Db, r: NewOrder, i: nat)
    requires Consistent(db) && Execute(db, Buy(r)).Committed? && i < |r.items|
    ensures Place(r.w, r.d) in db.parties.districts && r.w in db.parties.warehouses
    ensures CustomerKey(r.w, r.d, r.c) in db.parties.customers && r.items[i].id in db.store.items
    ensures var t, p, place, item := Execute(db, Buy(r)).db, db.parties, Place(r.w, r.d), r.items[i];
            var lines := LinesOf(t.sales.lines, OrderKey(r.w, r.d, p.districts[place].nextOId));
            var wTax, dTax := p.warehouses[r.w].tax, p.districts[place].tax;
            var discount := p.customers[CustomerKey(r.w, r.d, r.c)].discount;
            && |lines| == |r.items|
            && lines[i].item == item.id && lines[i].supply == item.supply && lines[i].qty == item.qty
            && lines[i].delivered == None
            && lines[i].amount == item.qty as real * db.store.items[item.id] * (1.0 + wTax + dTax) * (1.0 - discount)
  {
    OrderedLines(db, r);
    hide Execute, Consistent;
    var p, item := db.parties, r.items[i];
    TimesBoth(item.qty as real * db.store.items[item.id],
              1.0 + p.warehouses[r.w].tax + p.districts[Place(r.w, r.d)].tax,
              1.0 - p.customers[CustomerKey(r.w, r.d, r.c)].discount);
  }

  /** A shelf is refilled exactly when it would otherwise be empty or worse, and then by 91. */
  lemma RefillsIff(quantity: int, ordered: int)
    ensures Restock(quantity, ordered) == quantity - ordered <==> quantity - ordered >= 1
    ensures Restock(quantity, ordered) == quantity - ordered + 91 <==> quantity - ordered <= 0
  {}

  // ---------------------------------------------------------------- payments

  /** The row in the middle: as many before it as behind it, or one fewer. */
  lemma MiddleRow(p: Payment)
    ensures !p.byName || p.named == [] ==> PaidCustomer(p) == p.c
    ensures p.byName && p.named != [] ==>
              exists m :: 0 <= m < |p.named| && PaidCustomer(p) == p.named[m] && m <= |p.named| - 1 - m <= m + 1
  {
    if p.byName && p.named != [] {
      var m := (|p.named| + 1) / 2 - 1;
      assert PaidCustomer(p) == p.named[m];
    }
  }

  /** Whether the row the payment reads has bad credit. */
  predicate BadCredit(parties: Parties, p: Payment, c: int) {
    var read := if p.byName then CustomerKey(p.w, p.d, c) else CustomerKey(p.cw, p.cd, c);
    (p.byName ==> p.named != []) && read in parties.customers && parties.customers[read].credit == "BC"
  }

  /**
   * A committed payment raises the year-to-date of its warehouse and its district by its amount, and
   * the balance of one customer, of its own district if the credit is bad and else of the customer's;
   * nothing else changes.
   */
  lemma PaymentEffect(db: Db, p: Payment)
    ensures Execute(db, Pay(p)).Committed? <==>
            p.w in db.parties.warehouses && Place(p.w, p.d) in db.parties.districts
    ensures Execute(db, Pay(p)).Committed? ==>
            var t, s, place, c := Execute(db, Pay(p)).db, db.parties, Place(p.w, p.d), PaidCustomer(p);
            var k := if BadCredit(s, p, c) then CustomerKey(p.w, p.d, c) else CustomerKey(p.cw, p.cd, c);
            && t.sales == db.sales && t.store == db.store
            && t.parties.warehouses == s.warehouses[p.w := s.warehouses[p.w].(ytd := s.warehouses[p.w].ytd + p.amount)]
            && t.parties.districts
               == s.districts[place := s.districts[place].(ytd := s.districts[place].ytd + p.amount)]
            && t.parties.customers.Keys == s.customers.Keys
            && forall j :: j in s.customers ==>
                 t.parties.customers[j] == if j == k then s.customers[j].(balance := s.customers[j].balance + p.amount)
                                           else s.customers[j]
  {}

  // ---------------------------------------------------------------- deliveries

  /** The sum over a list is that over its parts, and over one line its amount. */
  lemma {:induction false} TotalAdds(a: seq<Line>, b: seq<Line>)
    ensures Total(a + b) == Total(a) + Total(b)
  {
    if b == [] {
      assert a + b == a;
    } else {
      TotalAdds(a, b[..|b| - 1]);
      assert (a + b)[..|a + b| - 1] == a + b[..|b| - 1];
    }
  }

  lemma TotalOfOne(l: Line)
    ensures Total([l]) == l.amount && Total([]) == 0.0
  {
    assert [l][..0] == [];
  }

  /** The order is the oldest pending one of districts 1 to 10 of the warehouse. */
  ghost predicate Due(db: Db, w: int, k: OrderKey) {
    k.w == w && 1 <= k.d <= 10 && IsOldest(db.sales.pending, Place(k.w, k.d), k.o)
  }

  lemma OldestIs(pending: set<OrderKey>, place: Place, o: int)
    ensures IsOldest(pending, place, o) <==> Oldest(pending, place) == Some(o)
  {}

  /** What a delivery does to the district of an order, from the delivery of that district alone. */
  lemma DistrictServed(db: Db, w: int, carrier: int, date: string, place: Place)
    requires Consistent(db)
    ensures Execute(db, Deliver(w, carrier, date)).Committed?
    ensures var t := Execute(db, Deliver(w, carrier, date)).db;
            if place.w == w && 1 <= place.d <= 10 then
              var alone := DeliverDistrict(db, place, carrier, date);
              alone.Some? && SameAt(t, alone.value, place)
            else SameAt(t, db, place)
  {
    DeliveryPerDistrict(db, w, 10, carrier, date, place);
  }

  /** A due order leaves NEW_ORDER and gets its carrier and the date on every line; every other order stays as it is. */
  lemma DeliveryEffect(db: Db, w: int, carrier: int, date: string, k: OrderKey)
    requires Consistent(db)
    ensures Execute(db, Deliver(w, carrier, date)).Committed?
    ensures var s, t := db.sales, Execute(db, Deliver(w, carrier, date)).db.sales;
            var before, after := LinesOf(s.lines, k), LinesOf(t.lines, k);
            if Due(db, w, k) then
              && k in s.orders && k !in t.pending && k in t.orders
              && t.orders[k] == s.orders[k].(carrier := Some(carrier)) && |after| == |before|
              && forall i :: 0 <= i < |before| ==> after[i] == before[i].(delivered := Some(date))
            else
              && (k in t.pending <==> k in s.pending) && (k in t.orders <==> k in s.orders)
              && (k in s.orders ==> t.orders[k] == s.orders[k]) && after == before
  {
    var place := Place(k.w, k.d);
    DistrictServed(db, w, carrier, date, place);
    OldestIs(db.sales.pending, place, k.o);
    assert KeyOk(db.sales, db.parties.districts, k);
    hide Execute, Consistent, Oldest;
    var t := Execute(db, Deliver(w, carrier, date)).db;
    if place.w == w && 1 <= place.d <= 10 {
      var alone := DeliverDistrict(db, place, carrier, date).value;
      assert OrderKey(place.w, place.d, k.o) == k;
      assert k in t.sales.pending <==> k in alone.sales.pending;
      assert k in t.sales.orders <==> k in alone.sales.orders;
      OneServed(db, place, carrier, date, k);
    } else {
      assert OrderKey(place.w, place.d, k.o) == k;
      assert k in t.sales.pending <==> k in db.sales.pending;
    }
  }

  lemma OneServed(db: Db, place: Place, carrier: int, date: string, k: OrderKey)
    requires k.w == place.w && k.d == place.d && DeliverDistrict(db, place, carrier, date).Some?
    ensures var s, t := db.sales, DeliverDistrict(db, place, carrier, date).value.sales;
            var before, after := LinesOf(s.lines, k), LinesOf(t.lines, k);
            if Oldest(s.pending, place) == Some(k.o) then
              && k in s.orders && k !in t.pending && k in t.orders
              && t.orders[k] == s.orders[k].(carrier := Some(carrier)) && |after| == |before|
              && forall i :: 0 <= i < |before| ==> after[i] == before[i].(delivered := Some(date))
            else
              && (k in t.pending <==> k in s.pending) && (k in t.orders <==> k in s.orders)
              && (k in s.orders ==> t.orders[k] == s.orders[k]) && after == before
  {
    hide Oldest;
  }

  /** Whoever placed a due order is credited with the amounts of its lines; every other customer stays as it is. */
  lemma DeliveryPays(db: Db, w: int, carrier: int, date: string, c: CustomerKey, o: Option<int>)
    requires Consistent(db) && c in db.parties.customers
    requires if o.Some? then Due(db, w, OrderKey(c.w, c.d, o.value)) else forall n :: !Due(db, w, OrderKey(c.w, c.d, n))
    ensures Execute(db, Deliver(w, carrier, date)).Committed?
    ensures var t := Execute(db, Deliver(w, carrier, date)).db;
            && c in t.parties.customers
            && (o.Some? ==> OrderKey(c.w, c.d, o.value) in db.sales.orders)
            && t.parties.customers[c]
               == if o.Some? && db.sales.orders[OrderKey(c.w, c.d, o.value)].customer == c.c
                  then db.parties.customers[c].(balance :=
                         db.parties.customers[c].balance + Total(LinesOf(db.sales.lines, OrderKey(c.w, c.d, o.value))))
                  else db.parties.customers[c]
  {
    var place := Place(c.w, c.d);
    DistrictServed(db, w, carrier, date, place);
    if o.Some? {
      OldestIs(db.sales.pending, place, o.value);
      assert KeyOk(db.sales, db.parties.districts, OrderKey(c.w, c.d, o.value));
    } else if place.w == w && 1 <= place.d <= 10 {
      NoneDue(db, w, place);
    }
    hide Execute, Consistent, Oldest;
    assert CustomerKey(place.w, place.d, c.c) == c;
    var t := Execute(db, Deliver(w, carrier, date)).db;
    if place.w == w && 1 <= place.d <= 10 {
      var alone := DeliverDistrict(db, place, carrier, date).value;
      assert c in t.parties.customers <==> c in alone.parties.customers;
    } else {
      assert c in t.parties.customers <==> c in db.parties.customers;
    }
  }

  lemma NoneDue(db: Db, w: int, place: Place)
    requires place.w == w && 1 <= place.d <= 10 && forall n :: !Due(db, w, OrderKey(place.w, place.d, n))
    ensures Oldest(db.sales.pending, place) == None
  {
    forall o ensures !IsOldest(db.sales.pending, place, o) {
      assert !Due(db, w, OrderKey(place.w, place.d, o));
    }
  }
}
