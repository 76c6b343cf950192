/** Serial runs among the interleavings, and interleavings that break what holds of serial runs. */
module Interleaving {
  import opened Market
  import opened Runs
  import opened Sums
  import opened ItemLedger
  import opened Clients

  lemma {:induction false} ScheduleConcat(w: World, first: seq<Action>, then': seq<Action>)
    requires ValidSchedule(w, first) && ValidSchedule(Final(w, first), then')
    ensures ValidSchedule(w, first + then') && Final(w, first + then') == Final(Final(w, first), then')
    decreases |first|
  {
    if first == [] {
      assert first + then' == then';
    } else {
      ScheduleConcat(Next(w, first[0]), first[1..], then');
      assert (first + then')[1..] == first[1..] + then';
    }
  }

  /** Client `k` is free for a new command. */
  predicate Free(w: World, k: int) {
    k in w.clients ==> w.clients[k].Done?
  }

  /** Nobody but `k` did anything, and `k` is through. */
  ghost predicate OnlyRan(w: World, w': World, k: int) {
    && Free(w', k)
    && forall i | i != k && i in w'.clients :: i in w.clients && w'.clients[i] == w.clients[i]
  }

  // ---------- Serial runs are schedules ----------

  /** All the statements of one event, with client `k` for the commands. */
  ghost function Uninterrupted(k: int, t: Tables, e: Event): seq<Action> {
    match e
    case Registration(balances) => [Join(balances)]
    case Submission(ord, pick, stamp, posted) =>
      [Launch(k, Starting(ord))] + Turns(k, t, Starting(ord), pick, stamp, posted)
    case Cancellation(id, userId) =>
      [Launch(k, CancelReading(id, userId))] + Turns(k, t, CancelReading(id, userId), NO_MATCH, t.clock, t.clock)
  }

  ghost function OneByOne(k: int, t: Tables, es: seq<Event>): seq<Action>
    requires ValidRun(t, es)
    decreases |es|
  {
    if es == [] then [] else Uninterrupted(k, t, es[0]) + OneByOne(k, Step(t, es[0]), es[1..])
  }

  lemma CancelIsSchedule(w: World, k: int, id: int, userId: int)
    requires Inv(w.t) && Free(w, k)
    ensures var actions := Uninterrupted(k, w.t, Cancellation(id, userId));
            && ValidSchedule(w, actions)
            && Final(w, actions).t == Cancel(w.t, id, userId).0 && OnlyRan(w, Final(w, actions), k)
  {
    var launch := Launch(k, CancelReading(id, userId));
    var w1 := Next(w, launch);
    TurnsAreAlone(w1, k, NO_MATCH, w.t.clock, w.t.clock);
    AloneIsCancel(w.t, id, userId, NO_MATCH, w.t.clock, w.t.clock);
    ScheduleCons(w, launch, w1, Turns(k, w.t, CancelReading(id, userId), NO_MATCH, w.t.clock, w.t.clock));
  }

  lemma EventIsSchedule(w: World, k: int, e: Event)
    requires Inv(w.t) && Enabled(w.t, e) && Free(w, k)
    ensures var actions := Uninterrupted(k, w.t, e);
            && ValidSchedule(w, actions)
            && Final(w, actions).t == Step(w.t, e) && OnlyRan(w, Final(w, actions), k)
  {
    match e
    case Registration(balances) =>
      ScheduleCons(w, Join(balances), Next(w, Join(balances)), []);
      assert [Join(balances)] + [] == [Join(balances)];
    case Submission(ord, pick, stamp, posted) =>
      SerialScheduleIsPlace(w, k, ord, pick, stamp, posted);
      ScheduleCons(w, Launch(k, Starting(ord)), Next(w, Launch(k, Starting(ord))),
                   Turns(k, w.t, Starting(ord), pick, stamp, posted));
    case Cancellation(id, userId) =>
      CancelIsSchedule(w, k, id, userId);
  }

  /** Every serial run is one of the interleavings, with the same tables at the end. */
  lemma {:induction false} SerialRunIsSchedule(w: World, k: int, es: seq<Event>)
    requires Inv(w.t) && ValidRun(w.t, es) && Free(w, k)
    ensures ValidSchedule(w, OneByOne(k, w.t, es))
    ensures Final(w, OneByOne(k, w.t, es)).t == After(w.t, es) && OnlyRan(w, Final(w, OneByOne(k, w.t, es)), k)
    decreases |es|
  {
    if es != [] {
      var actions := Uninterrupted(k, w.t, es[0]);
      EventIsSchedule(w, k, es[0]);
      StepKeepsInv(w.t, es[0]);
      var w' := Final(w, actions);
      SerialRunIsSchedule(w', k, es[1..]);
      ScheduleConcat(w, actions, OneByOne(k, w'.t, es[1..]));
    }
  }

  // ---------- An interleaving that is not serial ----------

  /** Two clients of one user launch a cancellation of order `id` and read it. */
  function Reads(now: int, id: int, userId: int, j: int, k: int): seq<Action> {
    [Launch(j, CancelReading(id, userId)), Launch(k, CancelReading(id, userId)),
     Run(j, NO_MATCH, now), Run(k, NO_MATCH, now)]
  }

  /** A client that holds a row to cancel runs to its end. */
  function Finishes(now: int, k: int): seq<Action> {
    [Run(k, NO_MATCH, now), Run(k, NO_MATCH, now), Run(k, NO_MATCH, now)]
  }

  /** Both read before either deletes. */
  function TwoCancels(w: World, id: int, userId: int, j: int, k: int): seq<Action> {
    Reads(w.t.clock, id, userId, j, k) + Finishes(w.t.clock, j) + Finishes(w.t.clock, k)
  }

  /** Once a client holds the row it refunds it, whether or not the row is still there. */
  lemma HeldRowIsRefunded(w: World, k: int, id: int, row: Order)
    requires k in w.clients && w.clients[k] == CancelReadingUser(id, row) && row.owner in w.t.users
    ensures var w' := Final(w, Finishes(w.t.clock, k));
            && ValidSchedule(w, Finishes(w.t.clock, k))
            && w'.t == w.t.(users := w.t.users[row.owner := w.t.users[row.owner].Refund(row)],
                            orders := w.t.orders - {id})
            && w'.clients == w.clients[k := Done(OK)]
  {
    var run := Run(k, NO_MATCH, w.t.clock);
    var w1 := Next(w, run);
    var w2 := Next(w1, run);
    var w3 := Next(w2, run);
    ScheduleCons(w2, run, w3, []);
    ScheduleCons(w1, run, w2, [run] + []);
    ScheduleCons(w, run, w1, [run] + ([run] + []));
    assert [run] + ([run] + ([run] + [])) == Finishes(w.t.clock, k);
    assert w3.clients == w.clients[k := Done(OK)];
  }

  /** Both clients have launched and hold the row. */
  lemma BothHold(w: World, id: int, j: int, k: int)
    requires id in w.t.orders && j != k && Free(w, j) && Free(w, k)
    ensures var row := w.t.orders[id];
            var actions := Reads(w.t.clock, id, row.owner, j, k);
            && ValidSchedule(w, actions)
            && Final(w, actions)
               == w.(clients := w.clients[j := CancelReadingUser(id, row)][k := CancelReadingUser(id, row)])
  {
    var row := w.t.orders[id];
    var actions := Reads(w.t.clock, id, row.owner, j, k);
    var w1 := Next(w, actions[0]);
    var w2 := Next(w1, actions[1]);
    var w3 := Next(w2, actions[2]);
    var w4 := Next(w3, actions[3]);
    ScheduleCons(w3, actions[3], w4, []);
    ScheduleCons(w2, actions[2], w3, [actions[3]] + []);
    ScheduleCons(w1, actions[1], w2, [actions[2]] + ([actions[3]] + []));
    ScheduleCons(w, actions[0], w1, [actions[1]] + ([actions[2]] + ([actions[3]] + [])));
    assert actions == [actions[0]] + ([actions[1]] + ([actions[2]] + ([actions[3]] + [])));
    assert w4.clients == w.clients[j := CancelReadingUser(id, row)][k := CancelReadingUser(id, row)];
  }

  /** After the schedule the order is gone once and refunded twice. */
  lemma RefundedTwice(w: World, id: int, j: int, k: int)
    requires WorldInv(w) && id in w.t.orders
    requires j != k && Free(w, j) && Free(w, k)
    ensures var row := w.t.orders[id];
            var actions := TwoCancels(w, id, row.owner, j, k);
            && row.owner in w.t.users
            && ValidSchedule(w, actions)
            && Final(w, actions).t
               == w.t.(users := w.t.users[row.owner := w.t.users[row.owner].Refund(row).Refund(row)],
                       orders := w.t.orders - {id})
  {
    assert RowOk(w.t, id);
    var row := w.t.orders[id];
    var now := w.t.clock;
    BothHold(w, id, j, k);
    var w1 := Final(w, Reads(now, id, row.owner, j, k));
    HeldRowIsRefunded(w1, j, id, row);
    var w2 := Final(w1, Finishes(now, j));
    HeldRowIsRefunded(w2, k, id, row);
    ScheduleConcat(w, Reads(now, id, row.owner, j, k), Finishes(now, j));
    ScheduleConcat(w, Reads(now, id, row.owner, j, k) + Finishes(now, j), Finishes(now, k));
    assert w.t.orders - {id} - {id} == w.t.orders - {id};
  }

  /**
   * From any world with an offer of DOGE, BTC or ETH in the book there is a schedule of two commands
   * after which the ledger, which every serial run keeps, is off by the whole offer.
   */
  lemma InterleavingBreaksLedger(w: World, id: int, j: int, k: int)
    requires WorldInv(w) && id in w.t.orders && w.t.orders[id].side == Sell
    requires j != k && Free(w, j) && Free(w, k)
    ensures var row := w.t.orders[id];
            var actions := TwoCancels(w, id, row.owner, j, k);
            && row.item != OMG
            && ValidSchedule(w, actions)
            && Ledger(Final(w, actions).t, row.item) == Ledger(w.t, row.item) + row.quantity as real
  {
    assert RowOk(w.t, id);
    var row, c := w.t.orders[id], w.t.orders[id].item;
    RefundedTwice(w, id, j, k);
    var twice := w.t.users[row.owner].Refund(row).Refund(row);
    SumWrite(w.t.users, row.owner, twice, Holding(c));
    SumTakeOut(w.t.orders, id, Offered(c));
    assert twice.Balance(c) == w.t.users[row.owner].Balance(c) + 2 * row.quantity;
  }

  // ---------- Two equal commands in step ----------

  /** Two clients at the same point run each statement one right after the other, to the end. */
  function Paired(t: Tables, c: Client, pick: int, now: int): (Tables, Client)
    decreases Ahead(c)
  {
    if c.Done? then (t, c)
    else
      var (t1, c') := Statement(t, c, pick, now);
      Paired(Statement(t1, c, pick, now).0, c', pick, now)
  }

  function PairedTurns(j: int, k: int, t: Tables, c: Client, pick: int, now: int): seq<Action>
    decreases Ahead(c)
  {
    if c.Done? then []
    else
      var (t1, c') := Statement(t, c, pick, now);
      [Run(j, pick, now)] + ([Run(k, pick, now)] + PairedTurns(j, k, Statement(t1, c, pick, now).0, c', pick, now))
  }

  lemma {:induction false} PairedCons(t: Tables, c: Client, pick: int, now: int, t1: Tables, t2: Tables)
    requires !c.Done? && Statement(t, c, pick, now).0 == t1 && Statement(t1, c, pick, now).0 == t2
    ensures Paired(t, c, pick, now) == Paired(t2, Statement(t, c, pick, now).1, pick, now)
  {
  }

  /** What a client does next depends on the tables only in statements that leave them alone. */
  lemma StepsAgree(t: Tables, c: Client, pick: int, now: int)
    requires t.clock <= now && !c.Done?
    ensures var (t1, c') := Statement(t, c, pick, now);
            var (t2, c'') := Statement(t1, c, pick, now);
            && c'' == c' && t1.clock <= now && t2.clock <= now && Ahead(c') < Ahead(c)
            && (c.Starting? || c.Searching? ==> t1 == t && t2 == t)
            && (c'.Searching? ==> c.Starting? && c'.ord == c.ord) && !c'.Starting?
  {
  }

  lemma {:induction false} PairedTurnsRun(w: World, j: int, k: int, c: Client, pick: int, now: int)
    requires j != k && j in w.clients && k in w.clients && w.clients[j] == w.clients[k] == c && w.t.clock <= now
    requires c.Starting? || c.Searching? ==> ValidPick(w.t.orders, c.ord, pick)
    ensures var turns := PairedTurns(j, k, w.t, c, pick, now);
            && ValidSchedule(w, turns)
            && var (t', c') := Paired(w.t, c, pick, now);
            Final(w, turns).t == t' && Final(w, turns).clients == w.clients[j := c'][k := c']
    decreases Ahead(c)
  {
    if c.Done? {
      assert w.clients == w.clients[j := c][k := c];
    } else {
      StepsAgree(w.t, c, pick, now);
      var w1 := Next(w, Run(j, pick, now));
      var w2 := Next(w1, Run(k, pick, now));
      PairedTurnsRun(w2, j, k, w2.clients[j], pick, now);
      var rest := PairedTurns(j, k, w2.t, w2.clients[j], pick, now);
      ScheduleCons(w1, Run(k, pick, now), w2, rest);
      ScheduleCons(w, Run(j, pick, now), w1, [Run(k, pick, now)] + rest);
    }
  }

  /** The payments and the fill: written twice, with the same values, so they count once. */
  lemma {:induction false} PairedPays(t: Tables, ord: Order, id: int, pick: int, now: int)
    requires ord.owner in t.users && Eligible(t.orders, ord, id) && t.orders[id].owner in t.users
    requires ord.quantity <= t.orders[id].quantity
    ensures var row, self, n := t.orders[id], t.users[ord.owner], ord.quantity;
            var t' := t.(users := t.users[ord.owner := TakerLeg(self, ord, row, n)]
                                         [row.owner := MakerLeg(t.users[row.owner], ord, row, n)],
                         orders := Fill(t.orders, id, n));
            Paired(t, PayingSelf(ord, self, id, row), pick, now) == (t', Done(OK))
  {
    var row, self, n := t.orders[id], t.users[ord.owner], ord.quantity;
    var maker := t.users[row.owner];
    var t1 := t.(users := t.users[ord.owner := TakerLeg(self, ord, row, n)]);
    var t2 := t1.(users := t1.users[row.owner := MakerLeg(maker, ord, row, n)]);
    var t3 := t2.(orders := Fill(t.orders, id, n));
    assert Paired(t2, Filling(ord, id, row), pick, now) == (t3, Done(OK)) by {
      assert Statement(t2, Filling(ord, id, row), pick, now) == (t3, Done(OK));
      assert Statement(t3, Filling(ord, id, row), pick, now).0 == t3;
    }
    assert Paired(t1, PayingMaker(ord, id, row, maker), pick, now) == (t3, Done(OK)) by {
      assert Statement(t1, PayingMaker(ord, id, row, maker), pick, now) == (t2, Filling(ord, id, row));
      assert Statement(t2, PayingMaker(ord, id, row, maker), pick, now).0 == t2;
    }
    assert Statement(t1, ReadingMaker(ord, id, row), pick, now) == (t1, PayingMaker(ord, id, row, maker));
    assert Statement(t, PayingSelf(ord, self, id, row), pick, now) == (t1, ReadingMaker(ord, id, row));
    assert Statement(t1, PayingSelf(ord, self, id, row), pick, now).0 == t1;
  }

  /** From the search to the payments: two trades in the archive, with the pairs mixed up. */
  lemma {:induction false} PairedArchives(t: Tables, ord: Order, id: int, now: int)
    requires ord.owner in t.users && id in t.orders
    ensures var row, self, taken := t.orders[id], t.users[ord.owner], ord.(createdAt := now);
            Paired(t, Stamping(ord, self, id, row), id, now)
            == Paired(t.(clock := now, archives := t.archives + [row, row, taken, taken]),
                      PayingSelf(taken, self, id, row), id, now)
  {
    var row, self, taken := t.orders[id], t.users[ord.owner], ord.(createdAt := now);
    var t1 := t.(clock := now);
    var t2 := t1.(archives := t.archives + [row]);
    var t3 := t1.(archives := t.archives + [row, row]);
    var t4 := t1.(archives := t.archives + [row, row, taken]);
    var t5 := t1.(archives := t.archives + [row, row, taken, taken]);
    PairedCons(t, Stamping(ord, self, id, row), id, now, t1, t1);
    assert t2.archives + [row] == t3.archives && t3.archives + [taken] == t4.archives;
    assert t4.archives + [taken] == t5.archives;
    PairedCons(t1, ArchivingMatch(taken, self, id, row), id, now, t2, t3);
    PairedCons(t3, ArchivingOwn(taken, self, id, row), id, now, t4, t5);
  }

  lemma {:induction false} PairedTrade(t: Tables, ord: Order, id: int, now: int)
    requires Inv(t) && ord.WellFormed() && ord.owner in t.users && Funded(t.users[ord.owner], ord)
    requires Oldest(t.orders, ord, id) && id != NO_MATCH && ord.quantity <= t.orders[id].quantity
    ensures t.orders[id].owner in t.users
    ensures var row, taken := t.orders[id], ord.(createdAt := now);
            Paired(t, Starting(ord), id, now)
            == (Settle(t, ord, id, now).(archives := t.archives + [row, row, taken, taken]), Done(OK))
  {
    assert RowOk(t, id);
    var row, self, taken := t.orders[id], t.users[ord.owner], ord.(createdAt := now);
    assert Paired(t, Reading(ord, self, id), id, now) == Paired(t, Stamping(ord, self, id, row), id, now);
    assert Paired(t, Searching(ord, self), id, now) == Paired(t, Reading(ord, self, id), id, now);
    assert Paired(t, Starting(ord), id, now) == Paired(t, Searching(ord, self), id, now);
    PairedArchives(t, ord, id, now);
    var archived := t.(clock := now, archives := t.archives + [row, row, taken, taken]);
    PairedPays(archived, taken, id, id, now);
  }

  /** Clients `j` and `k` launch the same order and take turns. */
  function InStep(w: World, ord: Order, id: int, j: int, k: int): seq<Action> {
    [Launch(j, Starting(ord))] + ([Launch(k, Starting(ord))] + PairedTurns(j, k, w.t, Starting(ord), id, w.t.clock))
  }

  /**
   * For every order that one resting order can fill: sent twice at once, both commands report success,
   * balances and book change as for one of them, and the archive has both, with the pairs mixed up.
   */
  lemma InStepFillsTwice(w: World, ord: Order, id: int, j: int, k: int)
    requires Inv(w.t) && ord.WellFormed() && ord.owner in w.t.users && Funded(w.t.users[ord.owner], ord)
    requires Oldest(w.t.orders, ord, id) && id != NO_MATCH && ord.quantity <= w.t.orders[id].quantity
    requires j != k && Free(w, j) && Free(w, k)
    ensures w.t.orders[id].owner in w.t.users && ValidSchedule(w, InStep(w, ord, id, j, k))
    ensures var w', row, taken := Final(w, InStep(w, ord, id, j, k)), w.t.orders[id], ord.(createdAt := w.t.clock);
            && j in w'.clients && w'.clients[j] == Done(OK) && k in w'.clients && w'.clients[k] == Done(OK)
            && w'.t == Settle(w.t, ord, id, w.t.clock).(archives := w.t.archives + [row, row, taken, taken])
            && !ArchiveInv(w'.t.archives, w'.t.users.Keys)
            && 2 * ord.quantity + (if id in w'.t.orders then w'.t.orders[id].quantity else 0) > row.quantity
  {
    var c, now := Starting(ord), w.t.clock;
    var w1 := Next(w, Launch(j, c));
    var w2 := Next(w1, Launch(k, c));
    PairedTrade(w.t, ord, id, now);
    PairedTurnsRun(w2, j, k, c, id, now);
    var turns := PairedTurns(j, k, w.t, c, id, now);
    ScheduleCons(w1, Launch(k, c), w2, turns);
    ScheduleCons(w, Launch(j, c), w1, [Launch(k, c)] + turns);
    var archives := Final(w2, turns).t.archives;
    assert archives[|archives| - 2] == archives[|archives| - 1] == ord.(createdAt := now);
  }
}
