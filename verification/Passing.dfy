/**
 * Overlapping commands that share no user and no order keep the ledgers, and still need not end like
 * any serial run: two orders that cross can be posted past each other.
 */
module Passing {
  import opened Market
  import opened Runs
  import opened Book
  import opened Clients
  import opened Interleaving
  import opened Overlap

  /** The statements of a command that finds no match and posts its whole order. */
  predicate PostsWhole(x: Client, ord: Order) {
    match x
    case Starting(o) => o == ord
    case Searching(o, _) => o == ord
    case Inserting(o, _) => o == ord
    case Posting(o, _) => o == ord
    case Reserving(o, _) => o == ord
    case Done(_) => true
    case _ => false
  }

  /** Two commands in turns, until the first has ended. */
  function Abreast(t: Tables, x: Client, y: Client, now: int): (Tables, Client, Client)
    decreases Ahead(x)
  {
    if x.Done? then (t, x, y)
    else
      var (t1, x') := Statement(t, x, NO_MATCH, now);
      var (t2, y') := Statement(t1, y, NO_MATCH, now);
      Abreast(t2, x', y', now)
  }

  function AbreastTurns(j: int, k: int, t: Tables, x: Client, y: Client, now: int): seq<Action>
    decreases Ahead(x)
  {
    if x.Done? then []
    else
      var (t1, x') := Statement(t, x, NO_MATCH, now);
      var (t2, y') := Statement(t1, y, NO_MATCH, now);
      [Run(j, NO_MATCH, now)] + ([Run(k, NO_MATCH, now)] + AbreastTurns(j, k, t2, x', y', now))
  }

  /** Only clients `j` and `k` are under way, each posting its own order. */
  ghost predicate OnlyTwo(w: World, j: int, k: int, a: Order, b: Order) {
    && j != k && j in w.clients && k in w.clients && a.owner != b.owner
    && PostsWhole(w.clients[j], a) && PostsWhole(w.clients[k], b)
    && forall i | i in w.clients && i != j && i != k :: w.clients[i].Done?
  }

  lemma TwoAreApart(w: World, j: int, k: int, a: Order, b: Order)
    requires OnlyTwo(w, j, k, a, b)
    ensures Apart(w)
  {
  }

  lemma ApartCons(w: World, a: Action, w': World, actions: seq<Action>)
    requires Allowed(w, a) && Apart(w) && Next(w, a) == w' && ValidSchedule(w', actions) && AlwaysApart(w', actions)
    ensures ValidSchedule(w, [a] + actions) && AlwaysApart(w, [a] + actions)
    ensures Final(w, [a] + actions) == Final(w', actions)
  {
    assert ([a] + actions)[1..] == actions;
  }

  /** One statement of a command that finds no match. */
  lemma PostsOn(t: Tables, x: Client, ord: Order, now: int)
    requires PostsWhole(x, ord) && !x.Done? && t.clock <= now
    ensures var (t', x') := Statement(t, x, NO_MATCH, now);
            && PostsWhole(x', ord) && t'.clock <= now && Ahead(x') < Ahead(x)
            && (x'.Searching? ==> x.Starting? && t' == t) && !x'.Starting?
            && (x.Starting? || x.Searching? ==> t' == t)
  {
  }

  /** A command that starts can pay for its order, and one that starts or searches will find nothing. */
  ghost predicate Ready(w: World, j: int, k: int, a: Order, b: Order, now: int) {
    && OnlyTwo(w, j, k, a, b) && w.t.clock <= now
    && (w.clients[j].Starting? <==> w.clients[k].Starting?)
    && (w.clients[j].Searching? <==> w.clients[k].Searching?)
    && (w.clients[j].Starting? || w.clients[j].Searching? ==>
          ValidPick(w.t.orders, a, NO_MATCH) && ValidPick(w.t.orders, b, NO_MATCH))
    && (w.clients[j].Starting? ==>
          && a.owner in w.t.users && Funded(w.t.users[a.owner], a)
          && b.owner in w.t.users && Funded(w.t.users[b.owner], b))
  }

  lemma Round(w: World, j: int, k: int, a: Order, b: Order, now: int)
    requires Ready(w, j, k, a, b, now) && !w.clients[j].Done?
    ensures var w1 := Next(w, Run(j, NO_MATCH, now));
            var w2 := Next(w1, Run(k, NO_MATCH, now));
            && Allowed(w, Run(j, NO_MATCH, now)) && Allowed(w1, Run(k, NO_MATCH, now))
            && OnlyTwo(w1, j, k, a, b) && Ready(w2, j, k, a, b, now) && Ahead(w2.clients[j]) < Ahead(w.clients[j])
  {
    PostsOn(w.t, w.clients[j], a, now);
    var w1 := Next(w, Run(j, NO_MATCH, now));
    if !w.clients[k].Done? {
      PostsOn(w1.t, w.clients[k], b, now);
    }
  }

  lemma {:induction false} AbreastIsApart(w: World, j: int, k: int, a: Order, b: Order, now: int)
    requires Ready(w, j, k, a, b, now)
    ensures var turns := AbreastTurns(j, k, w.t, w.clients[j], w.clients[k], now);
            && ValidSchedule(w, turns) && AlwaysApart(w, turns)
            && var (t', x', y') := Abreast(w.t, w.clients[j], w.clients[k], now);
            Final(w, turns).t == t' && Final(w, turns).clients == w.clients[j := x'][k := y']
    decreases Ahead(w.clients[j])
  {
    var x, y := w.clients[j], w.clients[k];
    TwoAreApart(w, j, k, a, b);
    if x.Done? {
      assert w.clients == w.clients[j := x][k := y];
    } else {
      Round(w, j, k, a, b, now);
      var w1 := Next(w, Run(j, NO_MATCH, now));
      var w2 := Next(w1, Run(k, NO_MATCH, now));
      AbreastIsApart(w2, j, k, a, b, now);
      var rest := AbreastTurns(j, k, w2.t, w2.clients[j], w2.clients[k], now);
      TwoAreApart(w1, j, k, a, b);
      ApartCons(w1, Run(k, NO_MATCH, now), w2, rest);
      ApartCons(w, Run(j, NO_MATCH, now), w1, [Run(k, NO_MATCH, now)] + rest);
    }
  }

  lemma {:induction false} AbreastCons(t: Tables, x: Client, y: Client, now: int)
    requires !x.Done?
    ensures var (t1, x') := Statement(t, x, NO_MATCH, now);
            var (t2, y') := Statement(t1, y, NO_MATCH, now);
            Abreast(t, x, y, now) == Abreast(t2, x', y', now)
  {
  }

  predicate CanPost(t: Tables, ord: Order) {
    && ord.WellFormed() && ord.CanRest()
    && ord.owner in t.users && Funded(t.users[ord.owner], ord) && Reservable(t.users[ord.owner], ord)
  }

  /** Both orders are posted, with their reservations, as if one after the other without looking at the book. */
  lemma {:induction false} AbreastPosts(t: Tables, a: Order, b: Order, now: int)
    requires CanPost(t, a) && CanPost(t, b) && a.owner != b.owner
    ensures Abreast(t, Starting(a), Starting(b), now) == (Rest(Rest(t, a, now), b, now), Done(OK), Done(OK))
  {
    var u, v := t.users[a.owner], t.users[b.owner];
    AbreastCons(t, Starting(a), Starting(b), now);
    AbreastCons(t, Searching(a, u), Searching(b, v), now);
    AbreastCons(t, Inserting(a, true), Inserting(b, true), now);
    AbreastCons(t, Posting(a, u), Posting(b, v), now);
    var t1 := Statement(Statement(t, Posting(a, u), NO_MATCH, now).0, Posting(b, v), NO_MATCH, now).0;
    AbreastCons(t1, Reserving(a, u), Reserving(b, v), now);
    var t2 := Statement(Statement(t1, Reserving(a, u), NO_MATCH, now).0, Reserving(b, v), NO_MATCH, now).0;
    assert t2 == Rest(Rest(t, a, now), b, now);
  }

  /** Clients `j` and `k` launch the two orders and take turns. */
  function PassEachOther(w: World, a: Order, b: Order, j: int, k: int): seq<Action> {
    [Launch(j, Starting(a))] + ([Launch(k, Starting(b))] + AbreastTurns(j, k, w.t, Starting(a), Starting(b), w.t.clock))
  }

  lemma BothPostedCross(t: Tables, a: Order, b: Order, now: int)
    requires a.owner in t.users && b.owner in t.users && Crosses(a, b)
    ensures !Uncrossed(Rest(Rest(t, a, now), b, now).orders)
  {
    var t', id := Rest(Rest(t, a, now), b, now), t.nextOrderId;
    assert Crosses(t'.orders[id], t'.orders[id + 1]);
  }

  lemma BothLaunch(w: World, a: Order, b: Order, j: int, k: int)
    requires a.WellFormed() && b.WellFormed() && a.owner != b.owner
    requires j != k && forall i | i in w.clients :: w.clients[i].Done?
    ensures var w1 := Next(w, Launch(j, Starting(a)));
            && Allowed(w, Launch(j, Starting(a))) && Allowed(w1, Launch(k, Starting(b))) && Apart(w) && Apart(w1)
            && OnlyTwo(Next(w1, Launch(k, Starting(b))), j, k, a, b)
  {
  }

  /**
   * Whenever two users can post orders that cross each other and nothing else, there is a schedule that
   * keeps the commands apart and ends with both in the book and no trade.
   */
  lemma ApartOrdersPass(w: World, a: Order, b: Order, j: int, k: int)
    requires WorldInv(w) && Inv(w.t) && CanPost(w.t, a) && CanPost(w.t, b) && Crosses(a, b)
    requires forall id | id in w.t.orders :: !Eligible(w.t.orders, a, id) && !Eligible(w.t.orders, b, id)
    requires j != k && forall i | i in w.clients :: w.clients[i].Done?
    ensures var actions := PassEachOther(w, a, b, j, k);
            && ValidSchedule(w, actions) && AlwaysApart(w, actions)
            && var t' := Final(w, actions).t;
            t' == Rest(Rest(w.t, a, w.t.clock), b, w.t.clock) && t'.archives == w.t.archives && !Uncrossed(t'.orders)
  {
    var x, y, now := Starting(a), Starting(b), w.t.clock;
    BothLaunch(w, a, b, j, k);
    var w1 := Next(w, Launch(j, x));
    var w2 := Next(w1, Launch(k, y));
    AbreastIsApart(w2, j, k, a, b, now);
    AbreastPosts(w.t, a, b, now);
    BothPostedCross(w.t, a, b, now);
    var turns := AbreastTurns(j, k, w.t, x, y, now);
    ApartCons(w1, Launch(k, y), w2, turns);
    ApartCons(w, Launch(j, x), w1, [Launch(k, y)] + turns);
  }

  /** In a serial run the second of the two orders trades, whichever comes first and whatever the matcher picks. */
  lemma SerialOrdersMeet(t: Tables, a: Order, b: Order, posted: int, e: Event)
    requires Inv(t) && CanPost(t, a) && CanPost(t, b) && (Crosses(a, b) || Crosses(b, a)) && t.clock <= posted
    requires e.Submission? && e.ord == b && Enabled(Rest(t, a, posted), e)
    ensures Inv(Rest(t, a, posted))
    ensures |Step(Rest(t, a, posted), e).archives| == |t.archives| + 2
  {
    RestKeepsInv(t, a, posted);
    var t1 := Rest(t, a, posted);
    assert Eligible(t1.orders, b, t.nextOrderId);
    StepArchives(t1, e);
    if e.pick in t1.orders {
      assert RowOk(t1, e.pick);
    }
  }
}
