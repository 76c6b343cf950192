/**
 * Many clients at once. Each client runs its command statement by statement, with its own copies of
 * the rows it read; between any two statements of one client any statement of another may run. There
 * is no transaction around a command.
 */
module Clients {
  import opened Market
  import opened Answers

  /** Where a client is in its command, with the local variables it still needs. */
  datatype Client =
    // buy and sell: read own user, search, read the match, read the time, archive twice, pay, be paid, fill
    | Starting(ord: Order)
    | Searching(ord: Order, self: User)
    | Reading(ord: Order, self: User, id: int)
    | Stamping(ord: Order, self: User, id: int, row: Order)
    | ArchivingMatch(ord: Order, self: User, id: int, row: Order)
    | ArchivingOwn(ord: Order, self: User, id: int, row: Order)
    | PayingSelf(ord: Order, self: User, id: int, row: Order)
    | ReadingMaker(ord: Order, id: int, row: Order)
    | PayingMaker(ord: Order, id: int, row: Order, maker: User)
    | Filling(ord: Order, id: int, row: Order)
    // insert_order, called for a whole order (direct) or for what is left of one
    | Inserting(ord: Order, direct: bool)
    | Posting(ord: Order, self: User)
    | Reserving(ord: Order, self: User)
    // cancel_order
    | CancelReading(id: int, userId: int)
    | CancelReadingUser(id: int, row: Order)
    | CancelPaying(id: int, row: Order, self: User)
    | CancelDeleting(id: int, row: Order)
    | Done(code: int)

  function WriteUser(t: Tables, id: int, u: User): Tables {
    if id in t.users then t.(users := t.users[id := u]) else t
  }

  /** UPDATE orders: every column but the timestamp, and nothing if the row is gone. */
  function WriteOrder(t: Tables, id: int, row: Order): Tables {
    if id in t.orders then t.(orders := t.orders[id := row.(createdAt := t.orders[id].createdAt)]) else t
  }

  /**
   * The next statement of a client and the local work after it. `pick` is the matcher's answer when the
   * statement is the search; `now` is the time when the statement reads the clock.
   */
  function Statement(t: Tables, c: Client, pick: int, now: int): (Tables, Client) {
    match c
    case Starting(ord) =>
      if ord.owner in t.users && Funded(t.users[ord.owner], ord) then (t, Searching(ord, t.users[ord.owner]))
      else (t, Done(FAILED))
    case Searching(ord, self) =>
      (t, if pick == NO_MATCH then Inserting(ord, true) else Reading(ord, self, pick))
    case Reading(ord, self, id) =>
      (t, if id in t.orders then Stamping(ord, self, id, t.orders[id]) else Done(FAILED))
    case Stamping(ord, self, id, row) =>
      (t.(clock := now), ArchivingMatch(ord.(createdAt := now), self, id, row))
    case ArchivingMatch(ord, self, id, row) =>
      (t.(archives := t.archives + [row]), ArchivingOwn(ord, self, id, row))
    case ArchivingOwn(ord, self, id, row) =>
      (t.(archives := t.archives + [ord]), PayingSelf(ord, self, id, row))
    case PayingSelf(ord, self, id, row) =>
      (WriteUser(t, ord.owner, TakerLeg(self, ord, row, Volume(row, ord))), ReadingMaker(ord, id, row))
    case ReadingMaker(ord, id, row) =>
      (t, if row.owner in t.users then PayingMaker(ord, id, row, t.users[row.owner]) else Done(FAILED))
    case PayingMaker(ord, id, row, maker) =>
      (WriteUser(t, row.owner, MakerLeg(maker, ord, row, Volume(row, ord))), Filling(ord, id, row))
    case Filling(ord, id, row) =>
      var n := Volume(row, ord);
      var t' := if n == row.quantity then t.(orders := t.orders - {id})
                else WriteOrder(t, id, row.(quantity := row.quantity - n));
      (t', if ord.quantity - n > 0 then Inserting(ord.(quantity := ord.quantity - n), false) else Done(OK))
    case Inserting(ord, direct) =>
      if ord.owner !in t.users then (t, Done(if direct then SQLITE_NOTFOUND else FAILED))
      else if !ord.CanRest() || !Reservable(t.users[ord.owner], ord) then
        (t, Done(if direct then SQLITE_ERROR else FAILED))
      else (t, Posting(ord, t.users[ord.owner]))
    case Posting(ord, self) =>
      (t.(orders := t.orders[t.nextOrderId := ord.(createdAt := now)], nextOrderId := t.nextOrderId + 1, clock := now),
       Reserving(ord, self))
    case Reserving(ord, self) =>
      (WriteUser(t, ord.owner, self.Reserve(ord)), Done(OK))
    case CancelReading(id, userId) =>
      (t, if id in t.orders && t.orders[id].owner == userId then CancelReadingUser(id, t.orders[id]) else Done(FAILED))
    case CancelReadingUser(id, row) =>
      (t, if row.owner in t.users then CancelPaying(id, row, t.users[row.owner]) else Done(FAILED))
    case CancelPaying(id, row, self) =>
      (WriteUser(t, row.owner, self.Refund(row)), CancelDeleting(id, row))
    case CancelDeleting(id, _) =>
      (t.(orders := t.orders - {id}), Done(OK))
    case Done(_) => (t, c)
  }

  // ---------- A client alone ----------

  /** How many statements a client may still run. */
  function Ahead(c: Client): nat {
    match c
    case Starting(_) => 13
    case Searching(_, _) => 12
    case Reading(_, _, _) => 11
    case Stamping(_, _, _, _) => 10
    case ArchivingMatch(_, _, _, _) => 9
    case ArchivingOwn(_, _, _, _) => 8
    case PayingSelf(_, _, _, _) => 7
    case ReadingMaker(_, _, _) => 6
    case PayingMaker(_, _, _, _) => 5
    case Filling(_, _, _) => 4
    case Inserting(_, _) => 3
    case Posting(_, _) => 2
    case Reserving(_, _) => 1
    case CancelReading(_, _) => 4
    case CancelReadingUser(_, _) => 3
    case CancelPaying(_, _, _) => 2
    case CancelDeleting(_, _) => 1
    case Done(_) => 0
  }

  /** A client that runs to the end with nobody in between. */
  function Alone(t: Tables, c: Client, pick: int, stamp: int, posted: int): (Tables, Client)
    decreases Ahead(c)
  {
    if c.Done? then (t, c)
    else
      var (t', c') := Statement(t, c, pick, if c.Stamping? then stamp else posted);
      Alone(t', c', pick, stamp, posted)
  }

  /** `insert_order` alone: refused, or the row and the reservation together. */
  lemma {:induction false} AloneInserts(t: Tables, ord: Order, direct: bool, pick: int, stamp: int, posted: int)
    requires ord.owner in t.users
    ensures Alone(t, Inserting(ord, direct), pick, stamp, posted)
         == if ord.CanRest() && Reservable(t.users[ord.owner], ord) then (Rest(t, ord, posted), Done(OK))
            else (t, Done(if direct then SQLITE_ERROR else FAILED))
  {
    if ord.CanRest() && Reservable(t.users[ord.owner], ord) {
      var self := t.users[ord.owner];
      var t1 := Statement(t, Posting(ord, self), pick, posted).0;
      assert Alone(t1, Reserving(ord, self), pick, stamp, posted) == (Rest(t, ord, posted), Done(OK));
    }
  }

  /** From the first payment to the fill. */
  lemma {:induction false} AlonePays(t: Tables, ord: Order, id: int, pick: int, stamp: int, posted: int)
    requires ord.owner in t.users && Eligible(t.orders, ord, id) && t.orders[id].owner in t.users
    ensures var row, self := t.orders[id], t.users[ord.owner];
            var n := Volume(row, ord);
            var t' := t.(users := t.users[ord.owner := TakerLeg(self, ord, row, n)]
                                         [row.owner := MakerLeg(t.users[row.owner], ord, row, n)]);
            Alone(t, PayingSelf(ord, self, id, row), pick, stamp, posted)
            == Alone(t', Filling(ord, id, row), pick, stamp, posted)
  {
    var row, self := t.orders[id], t.users[ord.owner];
    var t1, c1 := Statement(t, PayingSelf(ord, self, id, row), pick, posted).0, ReadingMaker(ord, id, row);
    var c2 := PayingMaker(ord, id, row, t.users[row.owner]);
    assert Statement(t1, c1, pick, posted) == (t1, c2);
    assert Alone(t1, c1, pick, stamp, posted) == Alone(t1, c2, pick, stamp, posted);
  }

  /** From the clock reading to the payment. */
  lemma {:induction false} AloneArchives(t: Tables, ord: Order, id: int, pick: int, stamp: int, posted: int)
    requires ord.owner in t.users && id in t.orders
    ensures var row, self, taken := t.orders[id], t.users[ord.owner], ord.(createdAt := stamp);
            Alone(t, Stamping(ord, self, id, row), pick, stamp, posted)
            == Alone(t.(clock := stamp, archives := t.archives + [row, taken]),
                     PayingSelf(taken, self, id, row), pick, stamp, posted)
  {
    var row, self, taken := t.orders[id], t.users[ord.owner], ord.(createdAt := stamp);
    var t1 := t.(clock := stamp);
    var t2 := t1.(archives := t.archives + [row]);
    assert t2.archives + [taken] == t.archives + [row, taken];
    assert Alone(t1, ArchivingMatch(taken, self, id, row), pick, stamp, posted)
        == Alone(t2, ArchivingOwn(taken, self, id, row), pick, stamp, posted);
  }

  /** From the fill to the end. */
  lemma {:induction false} AloneFills(t: Tables, ord: Order, id: int, row: Order, pick: int, stamp: int, posted: int)
    requires ord.owner in t.users && id in t.orders && row == t.orders[id]
    ensures var n := Volume(row, ord);
            var t', left := t.(orders := Fill(t.orders, id, n)), ord.(quantity := ord.quantity - n);
            Alone(t, Filling(ord, id, row), pick, stamp, posted)
            == if left.quantity <= 0 then (t', Done(OK))
               else if left.CanRest() && Reservable(t.users[ord.owner], left) then (Rest(t', left, posted), Done(OK))
               else (t', Done(FAILED))
  {
    var n := Volume(row, ord);
    var t', left := t.(orders := Fill(t.orders, id, n)), ord.(quantity := ord.quantity - n);
    assert Statement(t, Filling(ord, id, row), pick, posted).0 == t';
    if left.quantity > 0 {
      AloneInserts(t', left, false, pick, stamp, posted);
    }
  }

  /** What is left of a funded order is always accepted, and its old timestamp does not matter. */
  lemma {:induction false} AloneLeaves(t: Tables, ord: Order, id: int, stamp: int, posted: int)
    requires Inv(t) && ord.WellFormed() && ord.owner in t.users && Funded(t.users[ord.owner], ord)
    requires Eligible(t.orders, ord, id) && t.orders[id].owner in t.users
    ensures var settled, left := Settle(t, ord, id, stamp), Leftover(t.orders, ord, id);
            && left.quantity >= 0
            && (ord.CanRest() ==> Reservable(settled.users[ord.owner], left.(createdAt := stamp)))
            && Rest(settled, left.(createdAt := stamp), posted) == Rest(settled, left, posted)
  {
    assert RowOk(t, id);
    if ord.CanRest() {
      LeftoverIsReservable(t, ord, id, stamp);
    }
  }

  /** From the clock reading to the fill. */
  lemma {:induction false} AloneSettles(t: Tables, ord: Order, id: int, pick: int, stamp: int, posted: int)
    requires ord.owner in t.users && Eligible(t.orders, ord, id) && t.orders[id].owner in t.users
    ensures var row, self, taken := t.orders[id], t.users[ord.owner], ord.(createdAt := stamp);
            Alone(t, Stamping(ord, self, id, row), pick, stamp, posted)
            == Alone(Settle(t, ord, id, stamp).(orders := t.orders), Filling(taken, id, row), pick, stamp, posted)
  {
    var row, taken := t.orders[id], ord.(createdAt := stamp);
    AloneArchives(t, ord, id, pick, stamp, posted);
    AlonePays(t.(clock := stamp, archives := t.archives + [row, taken]), taken, id, pick, stamp, posted);
  }

  /** A match found and nobody in between: one trade and, if it may, the rest in the book. */
  lemma {:induction false} AloneTrades(t: Tables, ord: Order, id: int, stamp: int, posted: int)
    requires Inv(t) && ord.WellFormed() && ord.owner in t.users && Funded(t.users[ord.owner], ord)
    requires Eligible(t.orders, ord, id) && t.orders[id].owner in t.users
    ensures var left := Leftover(t.orders, ord, id);
            Alone(t, Stamping(ord, t.users[ord.owner], id, t.orders[id]), id, stamp, posted)
            == (Traded(t, ord, id, stamp, posted), Done(if left.quantity == 0 || ord.CanRest() then OK else FAILED))
  {
    AloneSettles(t, ord, id, id, stamp, posted);
    var settled := Settle(t, ord, id, stamp);
    AloneFills(settled.(orders := t.orders), ord.(createdAt := stamp), id, t.orders[id], id, stamp, posted);
    AloneLeaves(t, ord, id, stamp, posted);
  }

  /**
   * Refinement: the statements of `buy` and `sell`, with their local copies, separate write-backs and
   * every failure branch, are one `Place` when no other client runs in between.
   */
  lemma {:induction false} AloneIsPlace(t: Tables, ord: Order, pick: int, stamp: int, posted: int)
    requires Inv(t) && ord.WellFormed() && ValidPick(t.orders, ord, pick)
    ensures var (t', code) := Place(t, ord, pick, stamp, posted);
            Alone(t, Starting(ord), pick, stamp, posted) == (t', Done(code))
  {
    if ord.owner in t.users && Funded(t.users[ord.owner], ord) {
      var self := t.users[ord.owner];
      assert Alone(t, Starting(ord), pick, stamp, posted) == Alone(t, Searching(ord, self), pick, stamp, posted);
      if pick == NO_MATCH {
        FundedIsReservable(self, ord);
        AloneInserts(t, ord, true, pick, stamp, posted);
      } else {
        assert RowOk(t, pick);
        assert Alone(t, Searching(ord, self), pick, stamp, posted)
            == Alone(t, Stamping(ord, self, pick, t.orders[pick]), pick, stamp, posted);
        AloneTrades(t, ord, pick, stamp, posted);
      }
    }
  }

  /** A client that holds the row it cancels refunds it and deletes it. */
  lemma {:induction false} AloneRefunds(t: Tables, id: int, row: Order, pick: int, stamp: int, posted: int)
    requires row.owner in t.users
    ensures Alone(t, CancelReadingUser(id, row), pick, stamp, posted)
         == (t.(users := t.users[row.owner := t.users[row.owner].Refund(row)], orders := t.orders - {id}), Done(OK))
  {
    var self := t.users[row.owner];
    var paid := t.(users := t.users[row.owner := self.Refund(row)]);
    var deleted := paid.(orders := t.orders - {id});
    assert Alone(paid, CancelDeleting(id, row), pick, stamp, posted) == (deleted, Done(OK)) by {
      assert Statement(paid, CancelDeleting(id, row), pick, posted) == (deleted, Done(OK));
    }
    assert Statement(t, CancelPaying(id, row, self), pick, posted) == (paid, CancelDeleting(id, row));
    assert Alone(t, CancelPaying(id, row, self), pick, stamp, posted) == (deleted, Done(OK));
    assert Statement(t, CancelReadingUser(id, row), pick, posted) == (t, CancelPaying(id, row, self));
  }

  /** The same refinement for `cancel_order`. */
  lemma {:induction false} AloneIsCancel(t: Tables, id: int, userId: int, pick: int, stamp: int, posted: int)
    requires Inv(t)
    ensures var (t', code) := Cancel(t, id, userId);
            Alone(t, CancelReading(id, userId), pick, stamp, posted) == (t', Done(code))
  {
    var c := CancelReading(id, userId);
    if id in t.orders && t.orders[id].owner == userId {
      assert RowOk(t, id);
      var row := t.orders[id];
      assert Statement(t, c, pick, posted) == (t, CancelReadingUser(id, row));
      AloneRefunds(t, id, row, pick, stamp, posted);
    } else {
      assert Statement(t, c, pick, posted) == (t, Done(FAILED));
    }
  }

  // ---------- All clients together ----------

  /** The tables, the clients, and the row each order ID was issued with. */
  datatype World = World(t: Tables, clients: map<int, Client>, issued: map<int, Order>)

  const START := World(EMPTY, map[], map[])

  datatype Action =
    | Join(balances: User)
    | Launch(client: int, command: Client)
    | Run(client: int, pick: int, now: int)

  ghost predicate Allowed(w: World, a: Action) {
    match a
    case Join(_) => true
    case Launch(k, command) =>
      && (k in w.clients ==> w.clients[k].Done?)
      && (command.CancelReading? || (command.Starting? && command.ord.WellFormed()))
    case Run(k, pick, now) =>
      && k in w.clients
      && w.t.clock <= now
      && (w.clients[k].Searching? ==> ValidPick(w.t.orders, w.clients[k].ord, pick))
  }

  /** One statement of one client, or a command or a user that arrives. */
  function Next(w: World, a: Action): World {
    match a
    case Join(balances) => w.(t := Register(w.t, balances))
    case Launch(k, command) => w.(clients := w.clients[k := command])
    case Run(k, pick, now) =>
      if k !in w.clients then w
      else
        var c := w.clients[k];
        var (t', c') := Statement(w.t, c, pick, now);
        w.(t := t', clients := w.clients[k := c'],
           issued := if c.Posting? then w.issued[w.t.nextOrderId := t'.orders[w.t.nextOrderId]] else w.issued)
  }

  /** `row` is order `id` as issued, with some of it still there. */
  predicate Remains(issued: map<int, Order>, id: int, row: Order) {
    && id in issued
    && row == issued[id].(quantity := row.quantity)
    && 0 < row.quantity <= issued[id].quantity
  }

  /** A client works for a well-formed order of a registered user. */
  ghost predicate Serves(t: Tables, ord: Order) {
    ord.WellFormed() && ord.owner in t.users
  }

  /** The match a client holds may be stale, but was once the row of that ID and crosses the client's order. */
  ghost predicate Holds(t: Tables, issued: map<int, Order>, ord: Order, id: int, row: Order) {
    Serves(t, ord) && Remains(issued, id, row) && Crosses(row, ord) && row.WellFormed() && row.CanRest()
  }

  /** From the clock reading on the client's order is not older than the match. */
  ghost predicate Trades(t: Tables, issued: map<int, Order>, ord: Order, id: int, row: Order) {
    Holds(t, issued, ord, id, row) && row.createdAt <= ord.createdAt
  }

  /** What a client can rely on, whatever the others do. */
  ghost predicate Knows(t: Tables, issued: map<int, Order>, c: Client) {
    match c
    case Starting(ord) => ord.WellFormed()
    case Searching(ord, _) => Serves(t, ord)
    case Reading(ord, _, id) => Serves(t, ord) && id in issued && Crosses(issued[id], ord)
    case Stamping(ord, _, id, row) => Holds(t, issued, ord, id, row) && row.createdAt <= t.clock
    case ArchivingMatch(ord, _, id, row) => Trades(t, issued, ord, id, row)
    case ArchivingOwn(ord, _, id, row) => Trades(t, issued, ord, id, row)
    case PayingSelf(ord, _, id, row) => Trades(t, issued, ord, id, row)
    case ReadingMaker(ord, id, row) => Trades(t, issued, ord, id, row)
    case PayingMaker(ord, id, row, _) => Trades(t, issued, ord, id, row)
    case Filling(ord, id, row) => Trades(t, issued, ord, id, row)
    case Inserting(ord, _) => Serves(t, ord)
    case Posting(ord, _) => Serves(t, ord) && ord.CanRest()
    case Reserving(ord, _) => Serves(t, ord) && ord.CanRest()
    case CancelReading(_, _) => true
    case CancelReadingUser(id, row) => Remains(issued, id, row) && row.WellFormed()
    case CancelPaying(id, row, _) => Remains(issued, id, row) && row.WellFormed()
    case CancelDeleting(id, row) => Remains(issued, id, row)
    case Done(_) => true
  }

  ghost predicate WorldInv(w: World) {
    && TableInv(w.t)
    && (forall id | id in w.issued :: 1 <= id < w.t.nextOrderId && w.issued[id].owner in w.t.users)
    && (forall id | id in w.t.orders :: Remains(w.issued, id, w.t.orders[id]))
    && (forall k | k in w.clients :: Knows(w.t, w.issued, w.clients[k]))
  }

  /** What a client knows stays true when users join and IDs are issued. */
  lemma KnowsMore(t: Tables, issued: map<int, Order>, t': Tables, issued': map<int, Order>, c: Client)
    requires Knows(t, issued, c) && t.users.Keys <= t'.users.Keys && t.clock <= t'.clock
    requires forall id | id in issued :: id in issued' && issued'[id] == issued[id]
    ensures Knows(t', issued', c)
  {
  }

  // ---------- One statement ----------

  /** Writing back a stale match keeps everything but the quantity, which stays a part of what was issued. */
  lemma FillingKeeps(t: Tables, issued: map<int, Order>, ord: Order, id: int, row: Order)
    requires TableInv(t) && ord.WellFormed() && Remains(issued, id, row)
    requires forall j | j in t.orders :: Remains(issued, j, t.orders[j])
    ensures var t' := Statement(t, Filling(ord, id, row), NO_MATCH, t.clock).0;
            && TableInv(t')
            && (forall j | j in t'.orders :: j in t.orders && Remains(issued, j, t'.orders[j]))
  {
    var t' := Statement(t, Filling(ord, id, row), NO_MATCH, t.clock).0;
    forall j | j in t'.orders
      ensures j in t.orders && Remains(issued, j, t'.orders[j]) && RowOk(t', j)
      ensures t'.orders[j].createdAt == t.orders[j].createdAt
    {
      assert RowOk(t, j) && Remains(issued, j, t.orders[j]);
    }
  }

  lemma PostingKeeps(t: Tables, issued: map<int, Order>, ord: Order, self: User, now: int)
    requires TableInv(t) && ord.WellFormed() && ord.CanRest() && ord.owner in t.users && t.clock <= now
    requires forall j | j in issued :: 1 <= j < t.nextOrderId && issued[j].owner in t.users
    requires forall j | j in t.orders :: Remains(issued, j, t.orders[j])
    ensures var t' := Statement(t, Posting(ord, self), NO_MATCH, now).0;
            var issued' := issued[t.nextOrderId := t'.orders[t.nextOrderId]];
            && TableInv(t')
            && (forall j | j in issued' :: 1 <= j < t'.nextOrderId && issued'[j].owner in t'.users)
            && (forall j | j in t'.orders :: Remains(issued', j, t'.orders[j]))
  {
    var t' := Statement(t, Posting(ord, self), NO_MATCH, now).0;
    forall j | j in t'.orders ensures RowOk(t', j) {
      if j != t.nextOrderId { assert RowOk(t, j) && Remains(issued, j, t.orders[j]); }
    }
  }

  /** The statements that neither fill nor post leave the rows of the orders table as they are. */
  lemma OthersKeep(t: Tables, c: Client, pick: int, now: int)
    requires TableInv(t) && t.clock <= now && !c.Posting? && !c.Filling?
    ensures var t' := Statement(t, c, pick, now).0;
            && TableInv(t') && t'.users.Keys == t.users.Keys && t'.nextOrderId == t.nextOrderId
            && (forall j | j in t'.orders :: j in t.orders && t'.orders[j] == t.orders[j])
  {
    var t' := Statement(t, c, pick, now).0;
    assert t'.users.Keys == t.users.Keys;
    forall j | j in t'.orders ensures RowOk(t', j) && j in t.orders {
      assert RowOk(t, j);
    }
  }

  /** An order is read as the table has it. */
  lemma ReadingKnows(t: Tables, issued: map<int, Order>, c: Client, pick: int, now: int)
    requires TableInv(t) && (c.Reading? || c.CancelReading?) && Knows(t, issued, c)
    requires forall j | j in t.orders :: Remains(issued, j, t.orders[j])
    ensures var (t', c') := Statement(t, c, pick, now);
            t' == t && Knows(t, issued, c')
  {
    if c.id in t.orders {
      assert RowOk(t, c.id);
    }
  }

  predicate HasMatch(c: Client) {
    || c.Stamping? || c.ArchivingMatch? || c.ArchivingOwn? || c.PayingSelf? || c.ReadingMaker? || c.PayingMaker?
    || c.Filling?
  }

  /** From the clock reading to the fill nothing a client knows changes. */
  lemma TradingKnows(t: Tables, issued: map<int, Order>, c: Client, pick: int, now: int)
    requires Knows(t, issued, c) && t.clock <= now
    requires HasMatch(c)
    ensures var (t', c') := Statement(t, c, pick, now);
            t'.users.Keys == t.users.Keys && t.clock <= t'.clock && Knows(t', issued, c')
  {
    assert Statement(t, c, pick, now).0.users.Keys == t.users.Keys;
  }

  /** After its statement a client still knows what it should. */
  lemma StatementKnows(t: Tables, issued: map<int, Order>, c: Client, pick: int, now: int)
    requires TableInv(t) && Knows(t, issued, c) && t.clock <= now
    requires c.Searching? ==> ValidPick(t.orders, c.ord, pick)
    requires forall j | j in t.orders :: Remains(issued, j, t.orders[j])
    ensures var (t', c') := Statement(t, c, pick, now);
            t'.users.Keys == t.users.Keys && t.clock <= t'.clock && Knows(t', issued, c')
  {
    if c.Reading? || c.CancelReading? {
      ReadingKnows(t, issued, c, pick, now);
    } else if HasMatch(c) {
      TradingKnows(t, issued, c, pick, now);
    } else {
      assert Statement(t, c, pick, now).0.users.Keys == t.users.Keys;
    }
  }

  lemma {:induction false} RunKeepsTables(w: World, k: int, pick: int, now: int)
    requires WorldInv(w) && Allowed(w, Run(k, pick, now))
    ensures var w' := Next(w, Run(k, pick, now));
            && TableInv(w'.t)
            && (forall id | id in w'.issued :: 1 <= id < w'.t.nextOrderId && w'.issued[id].owner in w'.t.users)
            && (forall id | id in w'.t.orders :: Remains(w'.issued, id, w'.t.orders[id]))
  {
    var c := w.clients[k];
    assert Knows(w.t, w.issued, c);
    match c {
      case Filling(ord, id, row) => FillingKeeps(w.t, w.issued, ord, id, row);
      case Posting(ord, self) => PostingKeeps(w.t, w.issued, ord, self, now);
      case _ => OthersKeep(w.t, c, pick, now);
    }
  }

  lemma RunKeepsClients(w: World, k: int, pick: int, now: int)
    requires WorldInv(w) && Allowed(w, Run(k, pick, now))
    ensures var w' := Next(w, Run(k, pick, now));
            forall j | j in w'.clients :: Knows(w'.t, w'.issued, w'.clients[j])
  {
    var c, w' := w.clients[k], Next(w, Run(k, pick, now));
    assert Knows(w.t, w.issued, c);
    StatementKnows(w.t, w.issued, c, pick, now);
    assert forall id | id in w.issued :: id in w'.issued && w'.issued[id] == w.issued[id];
    forall j | j in w'.clients ensures Knows(w'.t, w'.issued, w'.clients[j]) {
      if j == k {
        KnowsMore(w'.t, w.issued, w'.t, w'.issued, w'.clients[j]);
      } else {
        KnowsMore(w.t, w.issued, w'.t, w'.issued, w.clients[j]);
      }
    }
  }

  /** At every point every client can run its next statement, and one of at most thirteen is its last. */
  lemma NobodyWaits(w: World, k: int, now: int) returns (pick: int)
    requires WorldInv(w) && k in w.clients && w.t.clock <= now
    ensures Allowed(w, Run(k, pick, now))
    ensures Next(w, Run(k, pick, now)).clients[k].Done? || w.clients[k].Done?
            || Ahead(Next(w, Run(k, pick, now)).clients[k]) < Ahead(w.clients[k]) <= 13
  {
    assert NO_MATCH !in w.t.orders by {
      assert forall id | id in w.t.orders :: RowOk(w.t, id);
    }
    pick := NO_MATCH;
    if w.clients[k].Searching? {
      pick := PickExists(w.t.orders, w.clients[k].ord);
    }
  }

  /** In every interleaving a search answers from the rows of that moment: none, or an oldest of those that fit. */
  lemma SearchFindsOldest(w: World, k: int, pick: int, now: int)
    requires WorldInv(w) && Allowed(w, Run(k, pick, now)) && w.clients[k].Searching?
    ensures var ord, orders := w.clients[k].ord, w.t.orders;
            var fits := (j: int) requires j in orders =>
              && orders[j].item == ord.item && orders[j].side != ord.side && orders[j].owner != ord.owner
              && if ord.side == Buy then orders[j].price <= ord.price else orders[j].price >= ord.price;
            if pick == -1 then forall j | j in orders :: !fits(j)
            else
              && pick in orders && fits(pick)
              && forall j | j in orders && fits(j) :: orders[pick].createdAt <= orders[j].createdAt
  {
    if w.clients[k].ord.side == Buy {
      BuyerMatches(w.t, w.clients[k].ord, pick);
    } else {
      SellerMatches(w.t, w.clients[k].ord, pick);
    }
  }

  /** A client that has nothing under way can launch any cancellation, and any order that can be sent. */
  lemma AnyCommandLaunches(w: World, k: int, ord: Order, id: int, userId: int)
    requires (k in w.clients ==> w.clients[k].Done?) && ord.quantity > 0 && ord.price >= 0.0
    ensures Allowed(w, Launch(k, Starting(ord))) && Allowed(w, Launch(k, CancelReading(id, userId)))
  {
  }

  /** Every statement of every client keeps the tables and what the other clients know. */
  lemma {:induction false} NextKeepsWorld(w: World, a: Action)
    requires WorldInv(w) && Allowed(w, a)
    ensures WorldInv(Next(w, a))
  {
    var w' := Next(w, a);
    match a
    case Join(balances) =>
      forall id | id in w'.t.orders ensures RowOk(w'.t, id) {
        assert RowOk(w.t, id);
      }
      forall j | j in w'.clients ensures Knows(w'.t, w'.issued, w'.clients[j]) {
        KnowsMore(w.t, w.issued, w'.t, w'.issued, w.clients[j]);
      }
    case Launch(k, command) =>
    case Run(k, pick, now) =>
      RunKeepsTables(w, k, pick, now);
      RunKeepsClients(w, k, pick, now);
  }

  // ---------- Schedules ----------

  ghost predicate ValidSchedule(w: World, actions: seq<Action>)
    decreases |actions|
  {
    actions == [] || (Allowed(w, actions[0]) && ValidSchedule(Next(w, actions[0]), actions[1..]))
  }

  function Final(w: World, actions: seq<Action>): World
    decreases |actions|
  {
    if actions == [] then w else Final(Next(w, actions[0]), actions[1..])
  }

  /** Takes the first action off a schedule. */
  lemma ScheduleCons(w: World, a: Action, w': World, actions: seq<Action>)
    requires Allowed(w, a) && Next(w, a) == w' && ValidSchedule(w', actions)
    ensures ValidSchedule(w, [a] + actions) && Final(w, [a] + actions) == Final(w', actions)
  {
    assert ([a] + actions)[1..] == actions;
  }

  /** What no schedule undoes: issued IDs and their rows, users, archived rows, and closed orders. */
  ghost predicate Evolves(w: World, w': World) {
    && (forall id | id in w.issued :: id in w'.issued && w'.issued[id] == w.issued[id])
    && w.t.nextOrderId <= w'.t.nextOrderId
    && w.t.users.Keys <= w'.t.users.Keys
    && w.t.archives <= w'.t.archives
    && (forall id | id in w'.t.orders && id < w.t.nextOrderId :: id in w.t.orders)
  }

  lemma NextEvolves(w: World, a: Action)
    requires WorldInv(w) && Allowed(w, a)
    ensures Evolves(w, Next(w, a))
  {
    if a.Run? {
      var c := w.clients[a.client];
      assert Knows(w.t, w.issued, c);
      StatementKnows(w.t, w.issued, c, a.pick, a.now);
    }
  }

  lemma {:induction false} ScheduleKeepsWorld(w: World, actions: seq<Action>)
    requires WorldInv(w) && ValidSchedule(w, actions)
    ensures WorldInv(Final(w, actions)) && Evolves(w, Final(w, actions))
    decreases |actions|
  {
    if actions != [] {
      NextKeepsWorld(w, actions[0]);
      NextEvolves(w, actions[0]);
      ScheduleKeepsWorld(Next(w, actions[0]), actions[1..]);
    }
  }

  /** From the start of the server every schedule keeps the world in order. */
  lemma WorldFromStart(actions: seq<Action>)
    requires ValidSchedule(START, actions)
    ensures WorldInv(Final(START, actions))
  {
    ScheduleKeepsWorld(START, actions);
  }

  /** An ID is issued when its row is inserted, and `issued` has that row. */
  lemma IssuedWhenPosted(w: World, a: Action, id: int)
    requires WorldInv(w) && Allowed(w, a) && id !in w.issued && id in Next(w, a).issued
    ensures a.Run? && w.clients[a.client].Posting? && id == w.t.nextOrderId
    ensures Next(w, a).t.orders[id] == Next(w, a).issued[id] == w.clients[a.client].ord.(createdAt := a.now)
  {
  }

  /**
   * In every interleaving of any number of clients: an order keeps its item, side, price, owner and
   * timestamp, its quantity stays between one and what was posted, and once gone it does not come back.
   */
  lemma OrdersKeepIdentity(w: World, actions: seq<Action>, id: int)
    requires WorldInv(w) && ValidSchedule(w, actions) && id in w.issued
    ensures var t', posted := Final(w, actions).t, w.issued[id];
            && (id in t'.orders ==> id in w.t.orders
                                    && t'.orders[id] == posted.(quantity := t'.orders[id].quantity)
                                    && 1 <= t'.orders[id].quantity <= posted.quantity)
            && (id !in w.t.orders ==> id !in t'.orders)
  {
    ScheduleKeepsWorld(w, actions);
    var w' := Final(w, actions);
    if id in w'.t.orders {
      assert Remains(w'.issued, id, w'.t.orders[id]);
    }
  }

  /**
   * In every interleaving, what a client settles is a trade it may make: its own order against one row
   * that was issued under the ID it found, on the other side of the same item, by someone else, and
   * within the limit, although the row may have been filled or deleted since.
   */
  lemma TradesCross(w: World, actions: seq<Action>, k: int)
    requires WorldInv(w) && ValidSchedule(w, actions) && k in Final(w, actions).clients
    ensures var w', c := Final(w, actions), Final(w, actions).clients[k];
            c.PayingSelf? || c.ReadingMaker? || c.PayingMaker? || c.Filling? ==>
              && c.row.item == c.ord.item && c.row.side != c.ord.side && c.row.owner != c.ord.owner
              && (if c.ord.side == Buy then c.row.price <= c.ord.price else c.row.price >= c.ord.price)
              && c.id in w'.issued && c.row == w'.issued[c.id].(quantity := c.row.quantity)
              && 1 <= c.row.quantity <= w'.issued[c.id].quantity
              && c.ord.owner in w'.t.users && c.row.owner in w'.t.users
  {
    ScheduleKeepsWorld(w, actions);
    assert Knows(Final(w, actions).t, Final(w, actions).issued, Final(w, actions).clients[k]);
  }

  /** Why the next statement of a client fails. */
  predicate Excuse(t: Tables, issued: map<int, Order>, c: Client, code: int) {
    match c
    case Starting(ord) => code == FAILED && !(ord.owner in t.users && Funded(t.users[ord.owner], ord))
    case Reading(_, _, id) => code == FAILED && id in issued && id !in t.orders
    case Inserting(ord, direct) =>
      && code == (if direct then SQLITE_ERROR else FAILED)
      && ord.owner in t.users && !(ord.CanRest() && Reservable(t.users[ord.owner], ord))
    case CancelReading(id, userId) => code == FAILED && !(id in t.orders && t.orders[id].owner == userId)
    case _ => false
  }

  /**
   * Which failures are possible at all: the first check, a match that is gone before it is read, an
   * order that may not rest or has become unaffordable, a cancellation of what is not the user's open
   * order. No other branch that fails is ever taken, and each of these is taken exactly then.
   */
  lemma LateFailures(w: World, a: Action)
    requires WorldInv(w) && Allowed(w, a) && a.Run? && !w.clients[a.client].Done?
    ensures var c' := Next(w, a).clients[a.client];
            c'.Done? && c'.code != OK
            <==> exists code :: code != OK && Excuse(w.t, w.issued, w.clients[a.client], code)
    ensures var c' := Next(w, a).clients[a.client];
            c'.Done? && c'.code != OK ==>
              Excuse(w.t, w.issued, w.clients[a.client], c'.code) && c'.code != SQLITE_NOTFOUND
  {
    var c, c' := w.clients[a.client], Next(w, a).clients[a.client];
    assert Knows(w.t, w.issued, c);
    if c'.Done? && c'.code != OK {
      assert Excuse(w.t, w.issued, c, c'.code);
    }
  }

  /** The same at every point of every schedule from the start of the server. */
  lemma LateFailuresFromStart(actions: seq<Action>, a: Action)
    requires ValidSchedule(START, actions) && Allowed(Final(START, actions), a)
    requires a.Run? && !Final(START, actions).clients[a.client].Done?
    ensures var w := Final(START, actions);
            var c, c' := w.clients[a.client], Next(w, a).clients[a.client];
            && (c'.Done? && c'.code != OK <==> exists code :: code != OK && Excuse(w.t, w.issued, c, code))
            && (c'.Done? && c'.code != OK ==> Excuse(w.t, w.issued, c, c'.code) && c'.code != SQLITE_NOTFOUND)
  {
    WorldFromStart(actions);
    LateFailures(Final(START, actions), a);
  }

  // ---------- Serial schedules ----------

  /** The turns of client `k` when nobody else gets one. */
  function Turns(k: int, t: Tables, c: Client, pick: int, stamp: int, posted: int): seq<Action>
    decreases Ahead(c)
  {
    if c.Done? then []
    else
      var now := if c.Stamping? then stamp else posted;
      var (t', c') := Statement(t, c, pick, now);
      [Run(k, pick, now)] + Turns(k, t', c', pick, stamp, posted)
  }

  /** The clock has not passed the next time the client is going to read. */
  predicate InTime(t: Tables, c: Client, stamp: int, posted: int) {
    stamp <= posted && t.clock <= if Ahead(c) >= 10 then stamp else posted
  }

  /** One turn leaves the client in time for the next. */
  lemma {:induction false} TurnStaysInTime(t: Tables, c: Client, pick: int, stamp: int, posted: int)
    requires InTime(t, c, stamp, posted) && !c.Done?
    requires c.Starting? || c.Searching? ==> ValidPick(t.orders, c.ord, pick)
    ensures var now := if c.Stamping? then stamp else posted;
            var (t', c') := Statement(t, c, pick, now);
            && t.clock <= now && InTime(t', c', stamp, posted) && Ahead(c') < Ahead(c)
            && (c'.Starting? || c'.Searching? ==> ValidPick(t'.orders, c'.ord, pick))
  {
  }

  lemma {:induction false} OneTurn(k: int, t: Tables, c: Client, pick: int, stamp: int, posted: int)
    requires !c.Done?
    ensures var now := if c.Stamping? then stamp else posted;
            var (t', c') := Statement(t, c, pick, now);
            && Turns(k, t, c, pick, stamp, posted) == [Run(k, pick, now)] + Turns(k, t', c', pick, stamp, posted)
            && Alone(t, c, pick, stamp, posted) == Alone(t', c', pick, stamp, posted)
  {
  }

  /** The turns of client `k` from here on are a schedule that ends as `Alone` says. */
  ghost predicate EndsAlone(w: World, k: int, c: Client, pick: int, stamp: int, posted: int) {
    var turns := Turns(k, w.t, c, pick, stamp, posted);
    && ValidSchedule(w, turns)
    && var (t', c') := Alone(w.t, c, pick, stamp, posted);
    Final(w, turns).t == t' && Final(w, turns).clients == w.clients[k := c']
  }

  lemma {:induction false} OneTurnMore(w: World, k: int, c: Client, w': World, c': Client,
                                       pick: int, stamp: int, posted: int)
    requires k in w.clients && w.clients[k] == c && !c.Done?
    requires var run := Run(k, pick, if c.Stamping? then stamp else posted);
             Allowed(w, run) && Next(w, run) == w' && (w'.t, c') == Statement(w.t, c, pick, run.now)
    requires EndsAlone(w', k, c', pick, stamp, posted)
    ensures EndsAlone(w, k, c, pick, stamp, posted)
  {
    var run := Run(k, pick, if c.Stamping? then stamp else posted);
    OneTurn(k, w.t, c, pick, stamp, posted);
    ScheduleCons(w, run, w', Turns(k, w'.t, c', pick, stamp, posted));
    var end := Alone(w'.t, c', pick, stamp, posted).1;
    assert w'.clients[k := end] == w.clients[k := end];
  }

  /** A client that gets all the turns ends as `Alone` says. */
  lemma {:induction false} TurnsAreAlone(w: World, k: int, pick: int, stamp: int, posted: int)
    requires k in w.clients && InTime(w.t, w.clients[k], stamp, posted)
    requires w.clients[k].Starting? || w.clients[k].Searching? ==> ValidPick(w.t.orders, w.clients[k].ord, pick)
    ensures EndsAlone(w, k, w.clients[k], pick, stamp, posted)
    decreases Ahead(w.clients[k])
  {
    var c := w.clients[k];
    if c.Done? {
      assert w.clients == w.clients[k := c];
    } else {
      var run := Run(k, pick, if c.Stamping? then stamp else posted);
      var w' := Next(w, run);
      TurnStaysInTime(w.t, c, pick, stamp, posted);
      TurnsAreAlone(w', k, pick, stamp, posted);
      OneTurnMore(w, k, c, w', w'.clients[k], pick, stamp, posted);
    }
  }

  /** A whole `buy` or `sell` without interruption is one serial step of the exchange. */
  lemma SerialScheduleIsPlace(w: World, k: int, ord: Order, pick: int, stamp: int, posted: int)
    requires Inv(w.t) && ord.WellFormed() && ValidPick(w.t.orders, ord, pick) && w.t.clock <= stamp <= posted
    requires k in w.clients ==> w.clients[k].Done?
    ensures var w1 := Next(w, Launch(k, Starting(ord)));
            var turns := Turns(k, w.t, Starting(ord), pick, stamp, posted);
            var (t', code) := Place(w.t, ord, pick, stamp, posted);
            && Allowed(w, Launch(k, Starting(ord))) && ValidSchedule(w1, turns)
            && Final(w1, turns).t == t' && Final(w1, turns).clients == w.clients[k := Done(code)]
  {
    var w1 := Next(w, Launch(k, Starting(ord)));
    TurnsAreAlone(w1, k, pick, stamp, posted);
    AloneIsPlace(w.t, ord, pick, stamp, posted);
  }
}
