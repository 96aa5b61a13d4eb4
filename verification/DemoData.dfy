/** The generated blotter and alert batch of the demonstration data. */
module DemoData {
  import opened Prelude
  import opened DeterministicRandom
  import Sorting

  const VENUES := ["XLIT", "XMER", "XNOR", "XPAC", "DARK-1", "DARK-2"]

  const SYMBOLS := ["ATLN", "BRDG", "CRVN", "DLTA", "EVRT", "FLGN", "GRDN", "HLYX",
                    "IRSA", "JVLN", "KSTL", "LMBD", "MRDN", "NVSA", "ORCL8", "PLRS"]

  const ALERT_TYPES := ["PotentialFrontRunning", "UnusualPreAnnouncementActivity", "WashTradeSuspicion",
                        "LayeringPattern", "OffVenueConcentration", "MarkingTheClose"]

  function CodeUnits(name: string): seq<bv16> {
    seq(|name|, i requires 0 <= i < |name| => (name[i] as int % 0x1_0000) as bv16)
  }

  function StreamStart(seed: bv64, name: string): bv64 { Start(StreamSeed(seed, CodeUnits(name))) }

  datatype Order = Order(id: string, timestamp: int, symbol: string, quantity: int, venue: string)

  /** Executions are numbered by their place in the blotter; the price is not part of this model. */
  datatype Execution = Execution(number: nat, orderId: string, timestamp: int, quantity: int, venue: string)

  // ---- Executions ----

  function Max(a: int, b: int): int { if a >= b then a else b }
  function Min(a: int, b: int): int { if a <= b then a else b }

  /** The size of fill `f` of `fills`. */
  function FillSize(fills: int, f: int, remaining: int): int
    requires f < fills
  {
    Min(if f == fills - 1 then remaining else Max(100, remaining / (fills - f)), remaining)
  }

  function VenueDrawn(state: bv64, order: Order): Drawn<string> {
    var stays := Chance(state, 0.85);
    if stays.value then Drawn(order.venue, stays.state) else Pick(stays.state, VENUES)
  }

  /** An execution of that order: within a quarter of an hour after it, at its own venue or a listed one. */
  ghost predicate Executes(e: Execution, order: Order) {
    && e.orderId == order.id && order.timestamp < e.timestamp < order.timestamp + 900
    && (e.venue == order.venue || e.venue in VENUES)
  }

  /** One execution, drawing its time, its price and its venue. */
  function OneFill(state: bv64, order: Order, quantity: int, number: nat): (d: Drawn<Execution>)
    ensures d.value.quantity == quantity && d.value.number == number && Executes(d.value, order)
  {
    var at := Between(state, 1, 900);
    var price := Unit(at.state);
    var venue := VenueDrawn(price.state, order);
    Drawn(Execution(number, order.id, order.timestamp + at.value, quantity, venue.value), venue.state)
  }

  /** How one execution of an order is drawn. */
  type FillDraw = (bv64, Order, int, nat) -> Drawn<Execution>

  /** Fills `f` and later of one order. */
  function Fills(
    one: FillDraw, state: bv64, order: Order, fills: int, f: int, remaining: int, number: nat): Drawn<seq<Execution>>
    decreases fills - f
  {
    if f >= fills || remaining <= 0 then Drawn([], state) else
      var quantity := FillSize(fills, f, remaining);
      var first := one(state, order, quantity, number);
      var rest := Fills(one, first.state, order, fills, f + 1, remaining - quantity, number + 1);
      Drawn([first.value] + rest.value, rest.state)
  }

  function OrderFills(state: bv64, order: Order, number: nat): Drawn<seq<Execution>> {
    var fills := Between(state, 1, 4);
    Fills(OneFill, fills.state, order, fills.value, 0, order.quantity, number)
  }

  /** How the executions of one order are drawn. */
  type OrderDraw = (bv64, Order, nat) -> Drawn<seq<Execution>>

  /** The blotter: the fills of each order in turn. */
  function Blotter(draw: OrderDraw, state: bv64, orders: seq<Order>): Drawn<seq<Execution>> {
    if orders == [] then Drawn([], state) else
      var n := |orders| - 1;
      var before := Blotter(draw, state, orders[..n]);
      var last := draw(before.state, orders[n], |before.value|);
      Drawn(before.value + last.value, last.state)
  }

  function Total(executions: seq<Execution>): int {
    if executions == [] then 0 else executions[0].quantity + Total(executions[1..])
  }

  /** The execution drawn is of that order, of that size and under that number. */
  ghost predicate DrawsAsAsked(one: FillDraw) {
    forall state, order, quantity, number ::
      var e := one(state, order, quantity, number).value;
      e.quantity == quantity && e.number == number && Executes(e, order)
  }

  lemma FillSizeTakes(fills: int, f: int, remaining: int)
    requires f < fills && remaining > 0
    ensures 0 < FillSize(fills, f, remaining) <= remaining
    ensures f == fills - 1 || remaining <= 100 ==> FillSize(fills, f, remaining) == remaining
  {
  }

  /** `size` is the whole number of an equal share between `n`. */
  ghost predicate IsShare(size: int, remaining: int, n: int) { size * n <= remaining < (size + 1) * n }

  /** Before the last fill at most an equal share is taken, but a hundred when that is less. */
  lemma FillSizeShares(fills: int, f: int, remaining: int)
    requires f < fills - 1 && remaining > 100
    ensures var size := FillSize(fills, f, remaining);
            if remaining / (fills - f) < 100 then size == 100 else IsShare(size, remaining, fills - f)
  {
    var n := fills - f;
    var size := remaining / n;
    assert IsShare(size, remaining, n);
    assert size <= remaining;
  }

  /** Fills of one order: positive, numbered on, as many as allowed, and adding up to what remained. */
  lemma {:induction false} FillsConserve(
    one: FillDraw, state: bv64, order: Order, fills: int, f: int, remaining: int, number: nat)
    requires DrawsAsAsked(one) && f < fills
    ensures var e := Fills(one, state, order, fills, f, remaining, number).value;
            && Total(e) == Max(remaining, 0)
            && |e| <= fills - f && (remaining > 0 <==> e != [])
            && (forall k :: 0 <= k < |e| ==> e[k].quantity > 0 && Executes(e[k], order) && e[k].number == number + k)
    decreases fills - f
  {
    if remaining > 0 {
      FillSizeTakes(fills, f, remaining);
      var quantity := FillSize(fills, f, remaining);
      var first := one(state, order, quantity, number);
      if f + 1 < fills {
        FillsConserve(one, first.state, order, fills, f + 1, remaining - quantity, number + 1);
      }
    }
  }

  function ForOrder(id: string): Execution -> bool { (e: Execution) => e.orderId == id }

  /** The executions of one order. */
  function Of(id: string, executions: seq<Execution>): seq<Execution> { Filter(ForOrder(id), executions) }

  lemma {:induction false} TotalConcat(a: seq<Execution>, b: seq<Execution>)
    ensures Total(a + b) == Total(a) + Total(b)
  {
    if a == [] {
      assert a + b == b;
    } else {
      TotalConcat(a[1..], b);
      assert (a + b)[1..] == a[1..] + b;
    }
  }

  lemma {:induction false} OfOne(id: string, owner: string, executions: seq<Execution>)
    requires forall k :: 0 <= k < |executions| ==> executions[k].orderId == owner
    ensures Of(id, executions) == if id == owner then executions else []
  {
    if executions != [] {
      OfOne(id, owner, executions[1..]);
      assert executions == [executions[0]] + executions[1..];
    }
  }

  /** One to three executions adding up to the order's quantity, each positive; none for an order of nothing. */
  ghost predicate Fulfils(executions: seq<Execution>, order: Order) {
    && Total(executions) == Max(order.quantity, 0)
    && |executions| <= 3 && (order.quantity > 0 <==> executions != [])
    && forall k :: 0 <= k < |executions| ==> executions[k].quantity > 0 && Executes(executions[k], order)
  }

  /** Numbered in a row. */
  ghost predicate Numbered(executions: seq<Execution>, from: nat) {
    forall k :: 0 <= k < |executions| ==> executions[k].number == from + k
  }

  /** Every draw fulfils its order under fresh numbers. */
  ghost predicate Fulfilling(draw: OrderDraw) {
    forall state, order, number ::
        Fulfils(draw(state, order, number).value, order) && Numbered(draw(state, order, number).value, number)
  }

  lemma OrderFillsFulfil(state: bv64, order: Order, number: nat)
    ensures Fulfils(OrderFills(state, order, number).value, order)
    ensures Numbered(OrderFills(state, order, number).value, number)
  {
    var fills := Between(state, 1, 4);
    FillsConserve(OneFill, fills.state, order, fills.value, 0, order.quantity, number);
  }

  lemma DrawsFulfil()
    ensures Fulfilling(OrderFills)
  {
    forall state, order, number
      ensures Fulfils(OrderFills(state, order, number).value, order)
              && Numbered(OrderFills(state, order, number).value, number)
    {
      OrderFillsFulfil(state, order, number);
    }
  }

  /** What was ordered under an identifier. */
  function Ordered(id: string, orders: seq<Order>): int {
    if orders == [] then 0 else
      Ordered(id, orders[..|orders| - 1]) + if orders[|orders| - 1].id == id then Max(orders[|orders| - 1].quantity, 0)
          else 0
  }

  /** What the last order adds to the blotter, seen under one identifier. */
  lemma LastOrderAdds(draw: OrderDraw, state: bv64, orders: seq<Order>, id: string) returns (last: seq<Execution>)
    requires Fulfilling(draw) && orders != []
    ensures var n := |orders| - 1;
            && Blotter(draw, state, orders).value == Blotter(draw, state, orders[..n]).value + last
            && Of(id, Blotter(draw, state, orders).value)
                == Of(id, Blotter(draw, state, orders[..n]).value) + (if orders[n].id == id then last else [])
            && Numbered(last, |Blotter(draw, state, orders[..n]).value|) && Fulfils(last, orders[n])
  {
    var n := |orders| - 1;
    var before := Blotter(draw, state, orders[..n]);
    last := draw(before.state, orders[n], |before.value|).value;
    FilterConcat(ForOrder(id), before.value, last);
    OfOne(id, orders[n].id, last);
  }

  /**
   Conservation: what is executed under an identifier is what was ordered under it, and executions are numbered in
   order.
   */
  lemma {:induction false} BlotterConserves(draw: OrderDraw, state: bv64, orders: seq<Order>, id: string)
    requires Fulfilling(draw)
    ensures Total(Of(id, Blotter(draw, state, orders).value)) == Ordered(id, orders)
    ensures Numbered(Blotter(draw, state, orders).value, 0)
  {
    if orders != [] {
      var n := |orders| - 1;
      BlotterConserves(draw, state, orders[..n], id);
      var last := LastOrderAdds(draw, state, orders, id);
      TotalConcat(Of(id, Blotter(draw, state, orders[..n]).value), if orders[n].id == id then last else []);
    }
  }

  lemma {:induction false} NothingOfOthers(draw: OrderDraw, state: bv64, orders: seq<Order>, id: string)
    requires Fulfilling(draw) && forall k :: 0 <= k < |orders| ==> orders[k].id != id
    ensures Of(id, Blotter(draw, state, orders).value) == []
  {
    if orders != [] {
      NothingOfOthers(draw, state, orders[..|orders| - 1], id);
      var last := LastOrderAdds(draw, state, orders, id);
    }
  }

  /** No other order shares the identifier of the one at `i`. */
  ghost predicate Alone(orders: seq<Order>, i: nat)
    requires i < |orders|
  {
    forall k :: 0 <= k < |orders| && k != i ==> orders[k].id != orders[i].id
  }

  /** Every order with an identifier of its own is fulfilled exactly, wherever it stands. */
  lemma {:induction false} EveryOrderFulfilled(draw: OrderDraw, state: bv64, orders: seq<Order>, i: nat)
    requires Fulfilling(draw) && i < |orders| && Alone(orders, i)
    ensures Fulfils(Of(orders[i].id, Blotter(draw, state, orders).value), orders[i])
    decreases |orders|
  {
    var n := |orders| - 1;
    var id := orders[i].id;
    var last := LastOrderAdds(draw, state, orders, id);
    var before := Of(id, Blotter(draw, state, orders[..n]).value);
    if i < n {
      EveryOrderFulfilled(draw, state, orders[..n], i);
      assert before + [] == before;
    } else {
      NothingOfOthers(draw, state, orders[..n], id);
      assert [] + last == last;
    }
  }

  /** The next fill after those already made. */
  lemma FillsNext(
    one: FillDraw, made: seq<Execution>, state: bv64, order: Order, fills: int, f: int, remaining: int, number: nat)
    returns (first: Drawn<Execution>, next: Drawn<seq<Execution>>)
    requires f < fills && remaining > 0
    ensures first == one(state, order, FillSize(fills, f, remaining), number)
    ensures next == Fills(one, first.state, order, fills, f + 1, remaining - FillSize(fills, f, remaining), number + 1)
    ensures made + Fills(one, state, order, fills, f, remaining, number).value == (made + [first.value]) + next.value
    ensures Fills(one, state, order, fills, f, remaining, number).state == next.state
  {
    first := one(state, order, FillSize(fills, f, remaining), number);
    next := Fills(one, first.state, order, fills, f + 1, remaining - FillSize(fills, f, remaining), number + 1);
    Associate(made, [first.value], next.value);
  }

  /**
   In the generated blotter every order with an identifier of its own is fulfilled, and executions are numbered in a
   row.
   */
  lemma ExecutionsFulfilOrders(seed: bv64, orders: seq<Order>)
    ensures var blotter := Blotter(OrderFills, StreamStart(seed, "executions"), orders).value;
            && Numbered(blotter, 0)
            && (forall id :: Total(Of(id, blotter)) == Ordered(id, orders))
            && forall i :: 0 <= i < |orders| && Alone(orders, i) ==> Fulfils(Of(orders[i].id, blotter), orders[i])
  {
    var start := StreamStart(seed, "executions");
    DrawsFulfil();
    BlotterConserves(OrderFills, start, orders, "");
    forall id ensures Total(Of(id, Blotter(OrderFills, start, orders).value)) == Ordered(id, orders) {
      BlotterConserves(OrderFills, start, orders, id);
    }
    forall i | 0 <= i < |orders| && Alone(orders, i)
      ensures Fulfils(Of(orders[i].id, Blotter(OrderFills, start, orders).value), orders[i])
    {
      EveryOrderFulfilled(OrderFills, start, orders, i);
    }
  }

  method VenueOf(rng: Generator, order: Order) returns (venue: string)
    modifies rng
    ensures Drawn(venue, rng.state) == VenueDrawn(old(rng.state), order)
  {
    var stays := rng.NextBool(0.85);
    if stays { venue := order.venue; } else { venue := rng.PickFrom(VENUES); }
  }

  method FillOnce(rng: Generator, order: Order, quantity: int, number: nat) returns (execution: Execution)
    modifies rng
    ensures Drawn(execution, rng.state) == OneFill(old(rng.state), order, quantity, number)
  {
    var seconds := rng.NextBetween(1, 900);
    var price := rng.NextDouble();
    var venue := VenueOf(rng, order);
    execution := Execution(number, order.id, order.timestamp + seconds, quantity, venue);
  }

  /** What has been drawn, followed by what is still to be drawn, is the whole. */
  ghost predicate Pending(
    whole: Drawn<seq<Execution>>, filled: seq<Execution>, state: bv64, order: Order, fills: int, f: int,
    remaining: int, number: nat)
  {
    var rest := Fills(OneFill, state, order, fills, f, remaining, number + |filled|);
    whole.value == filled + rest.value && whole.state == rest.state
  }

  lemma AllPending(whole: Drawn<seq<Execution>>, state: bv64, order: Order, fills: int, number: nat)
    requires whole == Fills(OneFill, state, order, fills, 0, order.quantity, number)
    ensures Pending(whole, [], state, order, fills, 0, order.quantity, number)
  {
    assert [] + whole.value == whole.value;
  }

  lemma NothingPending(
    whole: Drawn<seq<Execution>>, filled: seq<Execution>, state: bv64, order: Order, fills: int, f: int,
    remaining: int, number: nat)
    requires Pending(whole, filled, state, order, fills, f, remaining, number) && !(f < fills && remaining > 0)
    ensures whole == Drawn(filled, state)
  {
    assert filled + [] == filled;
  }

  /** One turn of the loop over the fills of an order. */
  method FillNext(
    rng: Generator, order: Order, fills: int, f: int, remaining: int, filled: seq<Execution>, number: nat,
        ghost whole: Drawn<seq<Execution>>)
    returns (quantity: int, execution: Execution)
    requires f < fills && remaining > 0 && Pending(whole, filled, rng.state, order, fills, f, remaining, number)
    modifies rng
    ensures Pending(whole, filled + [execution], rng.state, order, fills, f + 1, remaining - quantity, number)
  {
    ghost var first, next := FillsNext(OneFill, filled, rng.state, order, fills, f, remaining, number + |filled|);
    var isLast := f == fills - 1;
    quantity := if isLast then remaining else Max(100, remaining / (fills - f));
    quantity := Min(quantity, remaining);
    execution := FillOnce(rng, order, quantity, number + |filled|);
    assert |filled + [execution]| == |filled| + 1;
  }

  /** The loop over the fills of one order. */
  method FillAll(
    rng: Generator, order: Order, fills: int, number: nat,
    ghost whole: Drawn<seq<Execution>>) returns (filled: seq<Execution>)
    requires Pending(whole, [], rng.state, order, fills, 0, order.quantity, number)
    modifies rng
    ensures whole == Drawn(filled, rng.state)
  {
    var remaining := order.quantity;
    filled := [];
    var f := 0;
    while f < fills && remaining > 0
      invariant Pending(whole, filled, rng.state, order, fills, f, remaining, number)
    {
      var quantity, execution := FillNext(rng, order, fills, f, remaining, filled, number, whole);
      filled := filled + [execution];
      remaining := remaining - quantity;
      f := f + 1;
    }
    NothingPending(whole, filled, rng.state, order, fills, f, remaining, number);
  }

  /** The fills of one order, numbered from `number`. */
  method FillOrder(rng: Generator, order: Order, number: nat) returns (filled: seq<Execution>)
    modifies rng
    ensures Drawn(filled, rng.state) == OrderFills(old(rng.state), order, number)
  {
    ghost var whole := OrderFills(rng.state, order, number);
    var fills := rng.NextBetween(1, 4);
    AllPending(whole, rng.state, order, fills, number);
    filled := FillAll(rng, order, fills, number, whole);
  }

  method GenerateExecutions(seed: bv64, orders: seq<Order>) returns (result: seq<Execution>)
    ensures result == Blotter(OrderFills, StreamStart(seed, "executions"), orders).value
  {
    var rng := ForStream(seed, CodeUnits("executions"));
    ghost var start := rng.state;
    result := [];
    for i := 0 to |orders|
      invariant fresh(rng)
      invariant Drawn(result, rng.state) == Blotter(OrderFills, start, orders[..i])
    {
      assert orders[..i + 1][..i] == orders[..i];
      var filled := FillOrder(rng, orders[i], |result|);
      result := result + filled;
    }
    assert orders[..|orders|] == orders;
  }

  // ---- Alerts ----

  datatype Communication = Communication(id: string, timestamp: int, fromParty: string, symbol: Option<string>,
      concerning: bool)

  datatype Alert = Alert(
    number: nat, timestamp: int, symbol: string, traderId: string, alertType: string,
    communicationIds: seq<string>, orderIds: seq<string>, concerning: bool)

  function IsConcerning(): Communication -> bool { (c: Communication) => c.concerning }
  function IsBenign(): Communication -> bool { (c: Communication) => !c.concerning }
  function Trades(symbol: string): Order -> bool { (o: Order) => o.symbol == symbol }
  function OrderId(): Order -> string { (o: Order) => o.id }
  function Flagged(): Alert -> bool { (a: Alert) => a.concerning }

  datatype Batch = Batch(communications: seq<Communication>, orders: seq<Order>, count: int) {
    function Concerning(): seq<Communication> { Filter(IsConcerning(), communications) }
    function Benign(): seq<Communication> { Filter(IsBenign(), communications) }

    /** How many alerts are planted as concerning. */
    function Target(): (t: int)
      ensures t <= |Concerning()| && 5 * t <= count
      ensures t < |Concerning()| ==> count < 5 * (t + 1)
    {
      Min(count / 5, |Concerning()|)
    }

    /** The alert at `i` has nothing to draw from. */
    predicate Starved(i: nat) { orders == [] || (i >= Target() && Benign() == []) }

    predicate Ready() { count > 0 && orders != [] && Benign() != [] }
  }

  /** The communication an alert grows from. */
  function SeedOf(b: Batch, state: bv64, i: nat): (d: Drawn<Communication>)
    requires b.Ready()
    ensures d.value in b.communications && d.value.concerning == (i < b.Target())
  {
    FilterMembers(IsConcerning(), b.communications);
    FilterMembers(IsBenign(), b.communications);
    if i < b.Target() then
      assert b.Concerning()[i] in b.Concerning();
      Drawn(b.Concerning()[i], state)
    else
      Pick(state, b.Benign())
  }

  function SymbolOf(state: bv64, c: Communication): Drawn<string> {
    if c.symbol.Some? then Drawn(c.symbol.value, state) else Pick(state, SYMBOLS)
  }

  /** Up to three orders in the symbol, or else any one order. */
  function RelatedOrders(state: bv64, symbol: string, orders: seq<Order>): Drawn<seq<string>>
    requires orders != []
  {
    var matching := Filter(Trades(symbol), orders);
    var ids := Map(OrderId(), matching[..Min(3, |matching|)]);
    if ids != [] then Drawn(ids, state) else
      var any := Pick(state, orders);
      Drawn([any.value.id], any.state)
  }

  function PickIds(state: bv64, communications: seq<Communication>, k: int): Drawn<seq<string>>
    requires communications != []
  {
    if k <= 0 then Drawn([], state) else
      var before := PickIds(state, communications, k - 1);
      var last := Pick(before.state, communications);
      Drawn(before.value + [last.value.id], last.state)
  }

  /** What an alert is about. */
  datatype Subject = Subject(communication: Communication, symbol: string, orderIds: seq<string>)

  function SubjectOf(b: Batch, state: bv64, i: nat): Drawn<Subject>
    requires b.Ready()
  {
    var c := SeedOf(b, state, i);
    var symbol := SymbolOf(c.state, c.value);
    var orderIds := RelatedOrders(symbol.state, symbol.value, b.orders);
    Drawn(Subject(c.value, symbol.value, orderIds.value), orderIds.state)
  }

  /** The rest of an alert: further communications, its time and its type. */
  function Completed(b: Batch, subject: Subject, state: bv64, i: nat): Drawn<Alert>
    requires b.communications != []
  {
    var extra := Between(state, 0, 3);
    var more := PickIds(extra.state, b.communications, extra.value);
    var delay := Between(more.state, 5, 120);
    var kind := Pick(delay.state, ALERT_TYPES);
    var c := subject.communication;
    Drawn(
      Alert(i, c.timestamp + delay.value, subject.symbol, c.fromParty, kind.value, [c.id] + more.value,
          subject.orderIds, i < b.Target()),
      kind.state)
  }

  function OneAlert(b: Batch, state: bv64, i: nat): Drawn<Alert>
    requires b.Ready()
  {
    var subject := SubjectOf(b, state, i);
    Completed(b, subject.value, subject.state, i)
  }

  predicate Cites(id: string, communications: seq<Communication>) { exists c :: c in communications && c.id == id }

  predicate CitesOrder(id: string, orders: seq<Order>) { exists o :: o in orders && o.id == id }

  predicate CitesOrderIn(id: string, symbol: string, orders: seq<Order>) {
    exists o :: o in orders && o.id == id && o.symbol == symbol
  }

  /**
   An alert's evidence resolves: it cites existing orders, in its own symbol whenever any order trades that symbol,
   and existing communications, the first of which is concerning exactly when the alert is.
   */
  ghost predicate Resolves(a: Alert, communications: seq<Communication>, orders: seq<Order>) {
    && 1 <= |a.orderIds| <= 3 && 1 <= |a.communicationIds| <= 3
    && (forall id :: id in a.orderIds ==> CitesOrder(id, orders))
    && ((exists o :: o in orders && o.symbol == a.symbol) ==> forall id :: id in a.orderIds ==>
            CitesOrderIn(id, a.symbol, orders))
    && (forall id :: id in a.communicationIds ==> Cites(id, communications))
    && a.alertType in ALERT_TYPES
    && exists c :: c in communications && c.id == a.communicationIds[0] && c.concerning == a.concerning
                   && c.fromParty == a.traderId && GrowsFrom(a, c)
  }

  /** The alert comes minutes after the communication it grows from, in its symbol, or in a listed one. */
  ghost predicate GrowsFrom(a: Alert, c: Communication) {
    && c.timestamp + 5 <= a.timestamp < c.timestamp + 120
    && (c.symbol.Some? ==> a.symbol == c.symbol.value)
    && (c.symbol.None? ==> a.symbol in SYMBOLS)
  }

  lemma RelatedOrdersExist(state: bv64, symbol: string, orders: seq<Order>)
    requires orders != []
    ensures var ids := RelatedOrders(state, symbol, orders).value;
            && 1 <= |ids| <= 3
            && (forall id :: id in ids ==> CitesOrder(id, orders))
            && ((exists o :: o in orders && o.symbol == symbol) ==> forall id :: id in ids ==>
                    CitesOrderIn(id, symbol, orders))
  {
    var matching := Filter(Trades(symbol), orders);
    var some := matching[..Min(3, |matching|)];
    FilterMembers(Trades(symbol), orders);
    MapAt(OrderId(), some);
    MapMembers(OrderId(), some);
    var ids := Map(OrderId(), some);
    forall id | id in ids ensures CitesOrderIn(id, symbol, orders) {
      var o :| o in some && id == OrderId()(o);
      assert o in matching;
    }
  }

  lemma {:induction false} PickedIdsExist(state: bv64, communications: seq<Communication>, k: int)
    requires communications != []
    ensures |PickIds(state, communications, k).value| == Max(k, 0)
    ensures forall id :: id in PickIds(state, communications, k).value ==> Cites(id, communications)
  {
    if k > 0 { PickedIdsExist(state, communications, k - 1); }
  }

  /** The alert planned for place `i`: concerning up to the target, and with evidence that resolves. */
  ghost predicate Planned(b: Batch, a: Alert, i: nat) {
    a.number == i && a.concerning == (i < b.Target()) && Resolves(a, b.communications, b.orders)
  }

  type AlertDraw = (bv64, nat) -> Drawn<Alert>

  /** `n` draws in a row. */
  function Series(draw: AlertDraw, state: bv64, n: nat): Drawn<seq<Alert>> {
    if n == 0 then Drawn([], state) else
      var before := Series(draw, state, n - 1);
      var last := draw(before.state, n - 1);
      Drawn(before.value + [last.value], last.state)
  }

  /** The alerts of a batch, before shuffling. */
  function Built(b: Batch, state: bv64, n: nat): Drawn<seq<Alert>>
    requires b.Ready()
  {
    Series(Drawing(b), state, n)
  }

  function Drawing(b: Batch): AlertDraw
    requires b.Ready()
  {
    (state: bv64, i: nat) => OneAlert(b, state, i)
  }

  /** What the subject of an alert is. */
  ghost predicate SubjectOk(b: Batch, subject: Subject, concerning: bool) {
    && subject.communication in b.communications && subject.communication.concerning == concerning
    && (subject.communication.symbol.Some? ==> subject.symbol == subject.communication.symbol.value)
    && (subject.communication.symbol.None? ==> subject.symbol in SYMBOLS)
    && 1 <= |subject.orderIds| <= 3
    && (forall id :: id in subject.orderIds ==> CitesOrder(id, b.orders))
    && ((exists o :: o in b.orders && o.symbol == subject.symbol) ==>
          forall id :: id in subject.orderIds ==> CitesOrderIn(id, subject.symbol, b.orders))
  }

  lemma SubjectIsOk(b: Batch, state: bv64, i: nat)
    requires b.Ready()
    ensures SubjectOk(b, SubjectOf(b, state, i).value, i < b.Target())
  {
    var c := SeedOf(b, state, i);
    var symbol := SymbolOf(c.state, c.value);
    RelatedOrdersExist(symbol.state, symbol.value, b.orders);
  }

  lemma CompletedGrows(b: Batch, subject: Subject, state: bv64, i: nat)
    requires b.communications != [] && SubjectOk(b, subject, i < b.Target())
    ensures GrowsFrom(Completed(b, subject, state, i).value, subject.communication)
  {
  }

  lemma CompletedIs(b: Batch, subject: Subject, state: bv64, i: nat) returns (more: seq<string>)
    requires b.communications != []
    ensures var a := Completed(b, subject, state, i).value;
            && a.communicationIds == [subject.communication.id] + more && |more| <= 2
            && (forall id :: id in more ==> Cites(id, b.communications))
            && a.alertType in ALERT_TYPES && a.orderIds == subject.orderIds && a.symbol == subject.symbol
            && a.number == i && a.concerning == (i < b.Target()) && a.traderId == subject.communication.fromParty
  {
    var extra := Between(state, 0, 3);
    PickedIdsExist(extra.state, b.communications, extra.value);
    more := PickIds(extra.state, b.communications, extra.value).value;
  }

  lemma CompletedResolves(b: Batch, subject: Subject, state: bv64, i: nat)
    requires b.communications != [] && SubjectOk(b, subject, i < b.Target())
    ensures Planned(b, Completed(b, subject, state, i).value, i)
  {
    var a := Completed(b, subject, state, i).value;
    CompletedGrows(b, subject, state, i);
    var more := CompletedIs(b, subject, state, i);
    assert Cites(subject.communication.id, b.communications);
  }

  lemma OneAlertResolves(b: Batch, state: bv64, i: nat)
    requires b.Ready()
    ensures Planned(b, OneAlert(b, state, i).value, i)
  {
    SubjectIsOk(b, state, i);
    CompletedResolves(b, SubjectOf(b, state, i).value, SubjectOf(b, state, i).state, i);
  }

  lemma {:induction false} SeriesPlanned(b: Batch, draw: AlertDraw, state: bv64, n: nat)
    requires forall s, i :: Planned(b, draw(s, i).value, i)
    ensures |Series(draw, state, n).value| == n
    ensures forall i :: 0 <= i < n ==> Planned(b, Series(draw, state, n).value[i], i)
  {
    if n > 0 { SeriesPlanned(b, draw, state, n - 1); }
  }

  lemma BuiltPlanned(b: Batch, state: bv64, n: nat)
    requires b.Ready()
    ensures |Built(b, state, n).value| == n
    ensures forall i :: 0 <= i < n ==> Planned(b, Built(b, state, n).value[i], i)
  {
    forall s, i ensures Planned(b, Drawing(b)(s, i).value, i) { OneAlertResolves(b, s, i); }
    SeriesPlanned(b, Drawing(b), state, n);
  }

  // ---- The shuffle ----

  /** Fisher-Yates over the first `n` places, from the top down. */
  function Shuffled<T>(state: bv64, s: seq<T>, n: nat): Drawn<seq<T>>
    requires n <= |s|
    decreases n
  {
    if n <= 1 then Drawn(s, state) else
      var j := Below(state, n);
      Shuffled(j.state, Sorting.Swap(s, n - 1, j.value), n - 1)
  }

  lemma {:induction false} ShufflePermutes<T>(state: bv64, s: seq<T>, n: nat)
    requires n <= |s|
    ensures multiset(Shuffled(state, s, n).value) == multiset(s)
    ensures |Shuffled(state, s, n).value| == |s|
    decreases n
  {
    if n > 1 {
      var j := Below(state, n);
      Sorting.SwapPermutes(s, n - 1, j.value);
      ShufflePermutes(j.state, Sorting.Swap(s, n - 1, j.value), n - 1);
    }
  }

  method Shuffle(rng: Generator, a: array<Alert>)
    modifies rng, a
    ensures Drawn(a[..], rng.state) == Shuffled(old(rng.state), old(a[..]), a.Length)
  {
    ghost var whole := Shuffled(rng.state, a[..], a.Length);
    var i := a.Length - 1;
    while i > 0
      invariant -1 <= i < a.Length && (i == -1 ==> a.Length == 0)
      invariant whole == Shuffled(rng.state, a[..], i + 1)
    {
      ghost var s := a[..];
      var j := rng.Next(i + 1);
      a[i], a[j] := a[j], a[i];
      assert a[..] == Sorting.Swap(s, i, j);
      i := i - 1;
    }
  }

  /**
   A finished batch: the alerts built, shuffled on the same stream. Without orders or benign messages there is nothing
   to draw from.
   */
  function AlertsFrom(b: Batch, state: bv64): Option<seq<Alert>> {
    if b.count == 0 then Some([])
    else if !b.Ready() then None
    else
      var built := Built(b, state, b.count);
      BuiltPlanned(b, state, b.count);
      Some(Shuffled(built.state, built.value, b.count).value)
  }

  function Alerts(b: Batch, seed: bv64): Option<seq<Alert>> { AlertsFrom(b, StreamStart(seed, "alerts")) }

  lemma {:induction false} FlaggedCount(alerts: seq<Alert>, target: int)
    requires forall i :: 0 <= i < |alerts| ==> alerts[i].concerning == (i < target)
    ensures |Filter(Flagged(), alerts)| == Min(Max(target, 0), |alerts|)
  {
    if alerts != [] {
      var n := |alerts| - 1;
      FlaggedCount(alerts[..n], target);
      assert alerts == alerts[..n] + [alerts[n]];
      FilterConcat(Flagged(), alerts[..n], [alerts[n]]);
      assert [alerts[n]][1..] == [];
    }
  }

  /**
   The shuffled batch: a rearrangement of what was built, every alert with evidence that resolves, and the planned
   number concerning.
   */
  lemma AlertsResolve(b: Batch, seed: bv64)
    requires b.Ready()
    ensures var alerts := Alerts(b, seed).value;
            && |alerts| == b.count
            && multiset(alerts) == multiset(Built(b, StreamStart(seed, "alerts"), b.count).value)
            && (forall a :: a in alerts ==> Resolves(a, b.communications, b.orders))
            && |Filter(Flagged(), alerts)| == b.Target()
  {
    var built := Built(b, StreamStart(seed, "alerts"), b.count);
    BuiltPlanned(b, StreamStart(seed, "alerts"), b.count);
    ShufflePermutes(built.state, built.value, b.count);
    BatchRearranged(b, built.value, Alerts(b, seed).value);
  }

  /** What every rearrangement of planned alerts keeps. */
  lemma BatchRearranged(b: Batch, built: seq<Alert>, alerts: seq<Alert>)
    requires b.count > 0 && |built| == b.count && multiset(alerts) == multiset(built)
    requires forall i :: 0 <= i < |built| ==> Planned(b, built[i], i)
    ensures forall a :: a in alerts ==> Resolves(a, b.communications, b.orders)
    ensures |Filter(Flagged(), alerts)| == b.Target()
  {
    PermutationElements(alerts, built);
    FilterPermutation(Flagged(), alerts, built);
    PermutationElements(Filter(Flagged(), alerts), Filter(Flagged(), built));
    FlaggedCount(built, b.Target());
    forall a | a in alerts ensures Resolves(a, b.communications, b.orders) {
      var i :| 0 <= i < |built| && built[i] == a;
      assert Planned(b, built[i], i);
    }
  }

  // ---- The generator ----

  lemma SmallRemainder(i: nat, n: nat)
    requires i < n
    ensures i % n == i
  {
  }

  lemma Sizes(b: Batch)
    ensures |b.Concerning()| <= |b.communications| && |b.Benign()| <= |b.communications|
  {
    FilterMembers(IsConcerning(), b.communications);
    FilterMembers(IsBenign(), b.communications);
  }

  /** None when the draw is from an empty list. */
  method SeedCommunication(rng: Generator, b: Batch, concerning: seq<Communication>, benign: seq<Communication>, i: nat)
    returns (c: Option<Communication>)
    requires concerning == b.Concerning() && benign == b.Benign()
    modifies rng
    ensures c.None? <==> i >= b.Target() && benign == []
    ensures c.Some? ==> b.communications != []
    ensures c.Some? && b.Ready() ==> Drawn(c.value, rng.state) == SeedOf(b, old(rng.state), i)
  {
    Sizes(b);
    if i < b.Target() {
      SmallRemainder(i, |concerning|);
      c := Some(concerning[i % |concerning|]);
    } else {
      if benign == [] { return None; }
      var picked := rng.PickFrom(benign);
      c := Some(picked);
    }
  }

  method SymbolFor(rng: Generator, c: Communication) returns (symbol: string)
    modifies rng
    ensures Drawn(symbol, rng.state) == SymbolOf(old(rng.state), c)
  {
    if c.symbol.Some? { symbol := c.symbol.value; } else { symbol := rng.PickFrom(SYMBOLS); }
  }

  /** None when no order can be drawn. */
  method OrdersFor(rng: Generator, symbol: string, orders: seq<Order>) returns (ids: Option<seq<string>>)
    modifies rng
    ensures ids.None? <==> orders == []
    ensures ids.Some? ==> Drawn(ids.value, rng.state) == RelatedOrders(old(rng.state), symbol, orders)
  {
    var matching := Filter(Trades(symbol), orders);
    FilterMembers(Trades(symbol), orders);
    var related := Map(OrderId(), matching[..Min(3, |matching|)]);
    if related == [] {
      if orders == [] { return None; }
      var any := rng.PickFrom(orders);
      related := [any.id];
    }
    ids := Some(related);
  }

  method MoreCommunications(rng: Generator, communications: seq<Communication>, extra: nat) returns (ids: seq<string>)
    requires communications != []
    modifies rng
    ensures Drawn(ids, rng.state) == PickIds(old(rng.state), communications, extra)
  {
    ghost var start := rng.state;
    ids := [];
    for e := 0 to extra
      invariant Drawn(ids, rng.state) == PickIds(start, communications, e)
    {
      var c := rng.PickFrom(communications);
      ids := ids + [c.id];
    }
  }

  /** None when a draw is from an empty list. */
  method ChooseSubject(rng: Generator, b: Batch, concerning: seq<Communication>, benign: seq<Communication>, i: nat)
    returns (subject: Option<Subject>)
    requires concerning == b.Concerning() && benign == b.Benign()
    modifies rng
    ensures subject.None? <==> b.Starved(i)
    ensures subject.Some? ==> b.communications != []
    ensures subject.Some? && b.Ready() ==> Drawn(subject.value, rng.state) == SubjectOf(b, old(rng.state), i)
  {
    var c := SeedCommunication(rng, b, concerning, benign, i);
    if c.None? { return None; }
    var symbol := SymbolFor(rng, c.value);
    var orderIds := OrdersFor(rng, symbol, b.orders);
    if orderIds.None? { return None; }
    subject := Some(Subject(c.value, symbol, orderIds.value));
  }

  method CompleteAlert(rng: Generator, b: Batch, subject: Subject, i: nat) returns (alert: Alert)
    requires b.communications != []
    modifies rng
    ensures Drawn(alert, rng.state) == Completed(b, subject, old(rng.state), i)
  {
    var extra := rng.NextBetween(0, 3);
    var more := MoreCommunications(rng, b.communications, extra);
    var minutes := rng.NextBetween(5, 120);
    var alertType := rng.PickFrom(ALERT_TYPES);
    var c := subject.communication;
    alert := Alert(i, c.timestamp + minutes, subject.symbol, c.fromParty, alertType, [c.id] + more, subject.orderIds,
        i < b.Target());
  }

  method BuildAlert(rng: Generator, b: Batch, concerning: seq<Communication>, benign: seq<Communication>, i: nat)
    returns (alert: Option<Alert>)
    requires concerning == b.Concerning() && benign == b.Benign()
    modifies rng
    ensures alert.None? <==> b.Starved(i)
    ensures alert.Some? && b.Ready() ==> Drawn(alert.value, rng.state) == OneAlert(b, old(rng.state), i)
  {
    var subject := ChooseSubject(rng, b, concerning, benign, i);
    if subject.None? { return None; }
    var built := CompleteAlert(rng, b, subject.value, i);
    alert := Some(built);
  }

  /** The alerts built so far are the first `i` of the batch. */
  ghost predicate Underway(b: Batch, start: bv64, built: seq<Alert>, state: bv64, i: nat) {
    |built| == i && (b.Ready() ==> Drawn(built, state) == Built(b, start, i))
  }

  lemma UnderwayNext(b: Batch, start: bv64, built: seq<Alert>, state: bv64, i: nat, alert: Alert, after: bv64)
    requires Underway(b, start, built, state, i)
    requires b.Ready() ==> Drawn(alert, after) == OneAlert(b, state, i)
    ensures Underway(b, start, built + [alert], after, i + 1)
  {
  }

  /** A batch that stays within what can be drawn is ready. */
  lemma NeverStarved(b: Batch)
    requires b.count > 0 && !b.Starved(b.count - 1)
    ensures b.Ready()
  {
  }

  method BuildAlerts(rng: Generator, b: Batch) returns (result: Option<seq<Alert>>)
    requires b.count >= 0
    modifies rng
    ensures result.None? <==> b.count > 0 && !b.Ready()
    ensures result.Some? ==> Underway(b, old(rng.state), result.value, rng.state, b.count)
  {
    var concerning, benign := b.Concerning(), b.Benign();
    var built := [];
    for i := 0 to b.count
      invariant i > 0 ==> !b.Starved(i - 1)
      invariant Underway(b, old(rng.state), built, rng.state, i)
    {
      ghost var state := rng.state;
      var alert := BuildAlert(rng, b, concerning, benign, i);
      if alert.None? { return None; }
      UnderwayNext(b, old(rng.state), built, state, i, alert.value, rng.state);
      built := built + [alert.value];
    }
    if b.count > 0 { NeverStarved(b); }
    result := Some(built);
  }

  method ShuffleList(rng: Generator, alerts: seq<Alert>) returns (shuffled: seq<Alert>)
    modifies rng
    ensures Drawn(shuffled, rng.state) == Shuffled(old(rng.state), alerts, |alerts|)
  {
    var a := new Alert[|alerts|](i requires 0 <= i < |alerts| => alerts[i]);
    assert a[..] == alerts;
    Shuffle(rng, a);
    shuffled := a[..];
  }

  /** The whole batch; None stands for the exception of drawing from an empty list or asking for a negative count. */
  method AlertsOn(rng: Generator, b: Batch) returns (result: Option<seq<Alert>>)
    modifies rng
    ensures result == AlertsFrom(b, old(rng.state))
  {
    if b.count < 0 { return None; }
    ghost var start := rng.state;
    var built := BuildAlerts(rng, b);
    if built.None? { return None; }
    if b.count > 0 { BuiltPlanned(b, start, b.count); }
    var shuffled := ShuffleList(rng, built.value);
    result := Some(shuffled);
  }

  lemma ReadyIff(b: Batch)
    ensures b.Ready() <==> b.count > 0 && b.orders != [] && exists c :: c in b.communications && !c.concerning
  {
    FilterMembers(IsBenign(), b.communications);
    if b.Benign() != [] { assert b.Benign()[0] in b.Benign(); }
  }

  method GenerateAlerts(seed: bv64, b: Batch) returns (result: Option<seq<Alert>>)
    ensures result == Alerts(b, seed)
    ensures result.Some? <==>
            b.count == 0 || (b.count > 0 && b.orders != [] && exists c :: c in b.communications && !c.concerning)
  {
    ReadyIff(b);
    var rng := ForStream(seed, CodeUnits("alerts"));
    result := AlertsOn(rng, b);
  }
}
