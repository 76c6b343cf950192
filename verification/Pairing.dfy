/**
 * The archive over every schedule. A trade is archived as two rows by two statements; the rows of two
 * trades mix exactly when one client archives its match while another still has its own row to archive.
 */
module Pairing {
  import opened Market
  import opened Sums
  import opened Clients
  import opened Flow
  import opened Overlap

  // ---------- Who archives ----------

  predicate Archives(x: Client) {
    x.ArchivingMatch? || x.ArchivingOwn?
  }

  /** The clients that append the rows, in order. */
  ghost function Authors(w: World, actions: seq<Action>): seq<int>
    decreases |actions|
  {
    if actions == [] then []
    else
      var a := actions[0];
      (if a.Run? && a.client in w.clients && Archives(w.clients[a.client]) then [a.client] else [])
      + Authors(Next(w, a), actions[1..])
  }

  /** Row by row, two rows that follow each other come from one client. */
  predicate InPairs(authors: seq<int>)
    decreases |authors|
  {
    |authors| < 2 || (authors[0] == authors[1] && InPairs(authors[2..]))
  }

  ghost predicate HalfDone(w: World, k: int) {
    k in w.clients && w.clients[k].ArchivingOwn?
  }

  /** Another client is between its two rows. */
  ghost predicate Mixes(w: World, a: Action) {
    && a.Run? && a.client in w.clients && w.clients[a.client].ArchivingMatch?
    && exists k :: k != a.client && HalfDone(w, k)
  }

  ghost predicate Unmixed(w: World, actions: seq<Action>)
    decreases |actions|
  {
    actions == [] || (!Mixes(w, actions[0]) && Unmixed(Next(w, actions[0]), actions[1..]))
  }

  /** Nobody is between two rows, or client `half[0]` alone. */
  ghost predicate AtMost(w: World, half: seq<int>) {
    && (half == [] || (|half| == 1 && HalfDone(w, half[0])))
    && forall k | HalfDone(w, k) :: k in half
  }

  /** Who is between two rows after this action. */
  ghost function HalfAfter(w: World, a: Action, half: seq<int>): seq<int> {
    if a.Run? && a.client in w.clients && w.clients[a.client].ArchivingMatch? then [a.client]
    else if a.Run? && a.client in w.clients && w.clients[a.client].ArchivingOwn? then []
    else half
  }

  /** Whoever is between two rows is the one. */
  lemma TheOne(w: World, half: seq<int>, k: int)
    requires AtMost(w, half) && HalfDone(w, k)
    ensures half == [k]
  {
    assert k in half;
  }

  lemma NobodyElse(w: World, a: Action, half: seq<int>)
    requires AtMost(w, half) && !Mixes(w, a)
    requires a.Run? && a.client in w.clients && w.clients[a.client].ArchivingMatch?
    ensures half == []
  {
  }

  lemma OneHalf(w: World, a: Action, half: seq<int>)
    requires AtMost(w, half) && Allowed(w, a) && !Mixes(w, a)
    ensures AtMost(Next(w, a), HalfAfter(w, a, half))
  {
    var w', half' := Next(w, a), HalfAfter(w, a, half);
    forall k | HalfDone(w', k) ensures k in half' {
      if !a.Join? && a.client == k {
        if HalfDone(w, k) {
          TheOne(w, half, k);
        }
      } else {
        assert HalfDone(w', k) == HalfDone(w, k);
        if a.Run? && w.clients[a.client].ArchivingOwn? {
          TheOne(w, half, a.client);
        }
      }
    }
  }

  /** The first action closes a pair, opens one, or does neither. */
  lemma AuthorsShift(w: World, a: Action, half: seq<int>, rest: seq<int>)
    requires AtMost(w, half) && Allowed(w, a) && !Mixes(w, a)
    ensures var here := if a.Run? && Archives(w.clients[a.client]) then [a.client] else [];
            InPairs(half + (here + rest)) <==> InPairs(HalfAfter(w, a, half) + rest)
  {
    if a.Run? && w.clients[a.client].ArchivingOwn? {
      TheOne(w, half, a.client);
      var s := [a.client] + ([a.client] + rest);
      assert s[2..] == [] + rest;
    } else if a.Run? && w.clients[a.client].ArchivingMatch? {
      NobodyElse(w, a, half);
      assert half + ([a.client] + rest) == [a.client] + rest;
    } else {
      assert half + ([] + rest) == half + rest;
    }
  }

  /**
   * Every archived match is followed by the row of the client that archived it if and only if no
   * client archives a match while another is between its two rows. `half` is who is at the start.
   */
  lemma {:induction false} PairedExactlyWhen(w: World, actions: seq<Action>, half: seq<int>)
    requires ValidSchedule(w, actions) && AtMost(w, half)
    ensures InPairs(half + Authors(w, actions)) <==> Unmixed(w, actions)
    decreases |actions|
  {
    if actions != [] {
      var a := actions[0];
      var rest := Authors(Next(w, a), actions[1..]);
      if Mixes(w, a) {
        var k :| k != a.client && HalfDone(w, k);
        TheOne(w, half, k);
        assert (half + Authors(w, actions))[1] == a.client;
      } else {
        OneHalf(w, a, half);
        PairedExactlyWhen(Next(w, a), actions[1..], HalfAfter(w, a, half));
        AuthorsShift(w, a, half, rest);
      }
    }
  }

  /** From the start of the server. */
  lemma PairedFromStart(actions: seq<Action>)
    requires ValidSchedule(START, actions)
    ensures InPairs(Authors(START, actions)) <==> Unmixed(START, actions)
  {
    PairedExactlyWhen(START, actions, []);
    assert [] + Authors(START, actions) == Authors(START, actions);
  }

  // ---------- What is archived ----------

  /** The archive is a sequence of trades, up to a last row that is the match of the client between its rows. */
  ghost predicate Paired(w: World, half: seq<int>) {
    && AtMost(w, half)
    && if half == [] then ArchiveInv(w.t.archives, w.t.users.Keys)
       else
         var last := |w.t.archives| - 1;
         && last >= 0 && HalfDone(w, half[0]) && w.t.archives[last] == w.clients[half[0]].row
         && ArchiveInv(w.t.archives[..last], w.t.users.Keys)
  }

  /** A statement that archives nothing leaves the archive as it is. */
  lemma OthersStayPaired(w: World, a: Action, half: seq<int>)
    requires WorldInv(w) && Allowed(w, a) && Paired(w, half)
    requires a.Run? ==> !Archives(w.clients[a.client])
    ensures Paired(Next(w, a), half)
  {
    var w' := Next(w, a);
    assert !Mixes(w, a);
    OneHalf(w, a, half);
    NextEvolves(w, a);
    var done := if half == [] then w.t.archives else w.t.archives[..|w.t.archives| - 1];
    ArchiveInvMoreUsers(done, w.t.users.Keys, w'.t.users.Keys);
    assert w'.t.archives == w.t.archives;
    assert half != [] ==> HalfDone(w, half[0]);
  }

  lemma NextStaysPaired(w: World, a: Action, half: seq<int>)
    requires WorldInv(w) && Allowed(w, a) && Paired(w, half) && !Mixes(w, a)
    ensures Paired(Next(w, a), HalfAfter(w, a, half))
  {
    if a.Run? && Archives(w.clients[a.client]) {
      var x, w' := w.clients[a.client], Next(w, a);
      OneHalf(w, a, half);
      assert Knows(w.t, w.issued, x);
      var last := |w.t.archives|;
      if x.ArchivingMatch? {
        NobodyElse(w, a, half);
        assert w'.t.archives[..last] == w.t.archives;
      } else {
        TheOne(w, half, a.client);
        assert w'.t.archives[..last - 1] == w.t.archives[..last - 1];
      }
    } else {
      OthersStayPaired(w, a, half);
    }
  }

  /** Who is between two rows at the end. */
  ghost function HalfAtEnd(w: World, actions: seq<Action>, half: seq<int>): seq<int>
    decreases |actions|
  {
    if actions == [] then half else HalfAtEnd(Next(w, actions[0]), actions[1..], HalfAfter(w, actions[0], half))
  }

  /** As long as no rows mix, the archive is a sequence of trades up to one last row. */
  lemma {:induction false} ScheduleStaysPaired(w: World, actions: seq<Action>, half: seq<int>)
    requires WorldInv(w) && ValidSchedule(w, actions) && Paired(w, half) && Unmixed(w, actions)
    ensures Paired(Final(w, actions), HalfAtEnd(w, actions, half))
    decreases |actions|
  {
    if actions != [] {
      NextStaysPaired(w, actions[0], half);
      NextKeepsWorld(w, actions[0]);
      ScheduleStaysPaired(Next(w, actions[0]), actions[1..], HalfAfter(w, actions[0], half));
    }
  }

  /** From the start of the server, once every command has ended: the archive is a sequence of proper trades. */
  lemma ArchiveFromStart(actions: seq<Action>)
    requires ValidSchedule(START, actions) && Unmixed(START, actions)
    ensures Paired(Final(START, actions), HalfAtEnd(START, actions, []))
    ensures var w := Final(START, actions);
            Quiet(w) ==> ArchiveInv(w.t.archives, w.t.users.Keys)
  {
    ScheduleStaysPaired(START, actions, []);
    var w, half := Final(START, actions), HalfAtEnd(START, actions, []);
    if half != [] {
      assert HalfDone(w, half[0]);
    }
  }

  // ---------- What the archive adds up to ----------

  /** The rows of whole trades. */
  function WholeTrades(w: World, half: seq<int>): seq<Order> {
    if half == [] || w.t.archives == [] then w.t.archives else w.t.archives[..|w.t.archives| - 1]
  }

  /** A trade that is archived and not yet filled. */
  ghost function Owed(h: (Order, Order) -> real): Client -> real {
    (x: Client) =>
      if x.PayingSelf? || x.ReadingMaker? || x.PayingMaker? || x.Filling? then h(x.row, x.ord) else 0.0
  }

  /** The archived trades that are filled already. */
  ghost function Settled(w: World, half: seq<int>, h: (Order, Order) -> real): real {
    TradeSum(WholeTrades(w, half), h) - Sum(w.clients, Owed(h))
  }

  lemma OwnRowCompletes(w: World, a: Action, half: seq<int>, h: (Order, Order) -> real)
    requires Allowed(w, a) && Paired(w, half) && a.Run? && w.clients[a.client].ArchivingOwn?
    ensures var x := w.clients[a.client];
            TradeSum(WholeTrades(Next(w, a), []), h) == TradeSum(WholeTrades(w, half), h) + h(x.row, x.ord)
  {
    var x := w.clients[a.client];
    TheOne(w, half, a.client);
    var done := w.t.archives[..|w.t.archives| - 1];
    assert WholeTrades(w, half) == done;
    assert Next(w, a).t.archives == done + [x.row, x.ord];
    TradeSumAppend(done, x.row, x.ord, h);
  }

  lemma OwnRowOwed(w: World, a: Action, h: (Order, Order) -> real)
    requires Allowed(w, a) && a.Run? && w.clients[a.client].ArchivingOwn?
    ensures var x := w.clients[a.client];
            Sum(Next(w, a).clients, Owed(h)) == Sum(w.clients, Owed(h)) + h(x.row, x.ord)
  {
    SumWrite(w.clients, a.client, Next(w, a).clients[a.client], Owed(h));
  }

  /** The row of the client between its two rows completes a trade. */
  lemma OwnRowSettles(w: World, a: Action, half: seq<int>, h: (Order, Order) -> real)
    requires WorldInv(w) && Allowed(w, a) && Paired(w, half) && a.Run? && w.clients[a.client].ArchivingOwn?
    ensures Settled(Next(w, a), [], h) == Settled(w, half, h)
  {
    OwnRowCompletes(w, a, half, h);
    OwnRowOwed(w, a, h);
  }

  lemma MatchSettlesNothing(w: World, a: Action, half: seq<int>, h: (Order, Order) -> real)
    requires Allowed(w, a) && AtMost(w, half) && !Mixes(w, a) && a.Run? && w.clients[a.client].ArchivingMatch?
    ensures Settled(Next(w, a), [a.client], h) == Settled(w, half, h)
  {
    var w' := Next(w, a);
    NobodyElse(w, a, half);
    assert w'.t.archives[..|w'.t.archives| - 1] == w.t.archives;
    SumWrite(w.clients, a.client, w'.clients[a.client], Owed(h));
  }

  lemma OwedAfter(w: World, a: Action, h: (Order, Order) -> real)
    requires WorldInv(w) && Allowed(w, a) && (a.Run? ==> !Archives(w.clients[a.client]))
    ensures Sum(Next(w, a).clients, Owed(h)) == Sum(w.clients, Owed(h)) - Fills(h)(w, a)
  {
    if !a.Join? {
      SumWrite(w.clients, a.client, Next(w, a).clients[a.client], Owed(h));
    }
    if a.Run? {
      assert Knows(w.t, w.issued, w.clients[a.client]);
    }
  }

  lemma ArchiveUntouched(w: World, a: Action)
    requires Allowed(w, a) && (a.Run? ==> !Archives(w.clients[a.client]))
    ensures Next(w, a).t.archives == w.t.archives
  {
  }

  lemma NextSettles(w: World, a: Action, half: seq<int>, h: (Order, Order) -> real)
    requires WorldInv(w) && Allowed(w, a) && Paired(w, half) && !Mixes(w, a)
    ensures Settled(Next(w, a), HalfAfter(w, a, half), h) == Settled(w, half, h) + Fills(h)(w, a)
  {
    if a.Run? && w.clients[a.client].ArchivingOwn? {
      OwnRowSettles(w, a, half, h);
    } else if a.Run? && w.clients[a.client].ArchivingMatch? {
      MatchSettlesNothing(w, a, half, h);
    } else {
      OwedAfter(w, a, h);
      ArchiveUntouched(w, a);
      assert WholeTrades(Next(w, a), half) == WholeTrades(w, half);
    }
  }

  lemma {:induction false} ScheduleSettles(w: World, actions: seq<Action>, half: seq<int>, h: (Order, Order) -> real)
    requires WorldInv(w) && ValidSchedule(w, actions) && Paired(w, half) && Unmixed(w, actions)
    ensures Settled(Final(w, actions), HalfAtEnd(w, actions, half), h)
         == Settled(w, half, h) + Total(w, actions, Fills(h))
    decreases |actions|
  {
    if actions != [] {
      var a := actions[0];
      NextSettles(w, a, half, h);
      NextStaysPaired(w, a, half);
      NextKeepsWorld(w, a);
      ScheduleSettles(Next(w, a), actions[1..], HalfAfter(w, a, half), h);
    }
  }

  /** From the start of the server, once every command has ended: the archive adds up to the fills. */
  lemma ArchiveIsFills(actions: seq<Action>, h: (Order, Order) -> real)
    requires ValidSchedule(START, actions) && Unmixed(START, actions) && Quiet(Final(START, actions))
    ensures TradeSum(Final(START, actions).t.archives, h) == Total(START, actions, Fills(h))
  {
    ArchiveFromStart(actions);
    ScheduleSettles(START, actions, [], h);
    SumOfNothing(Final(START, actions).clients, Owed(h));
  }

  /** Every archived row has an author. */
  lemma {:induction false} AuthorsOfRows(w: World, actions: seq<Action>)
    requires ValidSchedule(w, actions)
    ensures |Final(w, actions).t.archives| == |w.t.archives| + |Authors(w, actions)|
    decreases |actions|
  {
    if actions != [] {
      AuthorsOfRows(Next(w, actions[0]), actions[1..]);
    }
  }
}
