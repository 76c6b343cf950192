/**
 * What every command answers and leaves behind, said from balances, quantities, prices and codes alone.
 * Nothing here goes through the words the exchange is described with, so it is what they have to mean.
 */
module Answers {
  import opened Rounding
  import opened Market

  // ---------- The matchers ----------

  /**
   * The matcher answers -1 exactly when no row has the same item, the other side, another owner and a
   * price within the limit, the limit included. Otherwise it answers a row that has all four and none
   * with all four is older.
   */
  lemma BuyerMatches(t: Tables, ord: Order, pick: int)
    requires TableInv(t) && ord.side == Buy && ValidPick(t.orders, ord, pick)
    ensures pick == -1 <==> forall j | j in t.orders ::
              !(t.orders[j].item == ord.item && t.orders[j].side == Sell
                && t.orders[j].price <= ord.price && t.orders[j].owner != ord.owner)
    ensures pick != -1 ==>
              && pick in t.orders && t.orders[pick].item == ord.item && t.orders[pick].side == Sell
              && t.orders[pick].price <= ord.price && t.orders[pick].owner != ord.owner
              && forall j | j in t.orders && t.orders[j].item == ord.item && t.orders[j].side == Sell
                            && t.orders[j].price <= ord.price && t.orders[j].owner != ord.owner ::
                   t.orders[pick].createdAt <= t.orders[j].createdAt
  {
    assert forall j | j in t.orders :: RowOk(t, j);
    assert forall j | j in t.orders ::
        Eligible(t.orders, ord, j)
        <==> t.orders[j].item == ord.item && t.orders[j].side == Sell
             && t.orders[j].price <= ord.price && t.orders[j].owner != ord.owner;
  }

  lemma SellerMatches(t: Tables, ord: Order, pick: int)
    requires TableInv(t) && ord.side == Sell && ValidPick(t.orders, ord, pick)
    ensures pick == -1 <==> forall j | j in t.orders ::
              !(t.orders[j].item == ord.item && t.orders[j].side == Buy
                && t.orders[j].price >= ord.price && t.orders[j].owner != ord.owner)
    ensures pick != -1 ==>
              && pick in t.orders && t.orders[pick].item == ord.item && t.orders[pick].side == Buy
              && t.orders[pick].price >= ord.price && t.orders[pick].owner != ord.owner
              && forall j | j in t.orders && t.orders[j].item == ord.item && t.orders[j].side == Buy
                            && t.orders[j].price >= ord.price && t.orders[j].owner != ord.owner ::
                   t.orders[pick].createdAt <= t.orders[j].createdAt
  {
    assert forall j | j in t.orders :: RowOk(t, j);
    assert forall j | j in t.orders ::
        Eligible(t.orders, ord, j)
        <==> t.orders[j].item == ord.item && t.orders[j].side == Buy
             && t.orders[j].price >= ord.price && t.orders[j].owner != ord.owner;
  }

  // ---------- What a command answers ----------

  /** A buy is accepted exactly when its cost is within the balance, the whole balance included. */
  lemma BuyAnswers(t: Tables, ord: Order, pick: int, stamp: int, posted: int)
    requires Inv(t) && ord.quantity > 0 && ord.price >= 0.0 && ord.side == Buy && ValidPick(t.orders, ord, pick)
    ensures var (t', code) := Place(t, ord, pick, stamp, posted);
            && (code == 0 <==>
                  ord.owner in t.users && ord.quantity as real * ord.price <= t.users[ord.owner].omg as real)
            && (code == 0 || code == -1)
            && (code == -1 ==> t' == t)
  {
    TimesIsProduct(ord.quantity, ord.price);
  }

  /**
   * A sell is refused unchanged, with -1, exactly when the balance of its coin is below the quantity.
   * Otherwise it succeeds, but for OMG that does not find a bid for all of it: with no bid the code is 1
   * and nothing changes, with a smaller bid the code is -1 and the trade stays.
   */
  lemma SellAnswers(t: Tables, ord: Order, pick: int, stamp: int, posted: int)
    requires Inv(t) && ord.quantity > 0 && ord.price >= 0.0 && ord.side == Sell && ValidPick(t.orders, ord, pick)
    ensures var (t', code) := Place(t, ord, pick, stamp, posted);
            var enough := ord.owner in t.users
                          && ord.quantity <= match ord.item case OMG => t.users[ord.owner].omg
                                                            case DOGE => t.users[ord.owner].doge
                                                            case BTC => t.users[ord.owner].btc
                                                            case ETH => t.users[ord.owner].eth;
            && (code == -1 && t' == t <==> !enough)
            && (code == 1 <==> enough && ord.item == OMG && pick == -1)
            && (code == 1 ==> t' == t)
            && (code == -1 && t' != t <==>
                  enough && ord.item == OMG && pick in t.orders && t.orders[pick].quantity < ord.quantity)
            && (code == 0 || code == 1 || code == -1)
  {
    var t' := Place(t, ord, pick, stamp, posted).0;
    if pick in t.orders {
      assert RowOk(t, pick);
      assert t'.archives == t.archives || |t'.archives| == |t.archives| + 2;
    }
  }

  // ---------- What it does to the book ----------

  /** The smaller quantity is filled: the match is gone when the order is as large, else it keeps the difference. */
  lemma MatchShrinks(t: Tables, ord: Order, pick: int, stamp: int, posted: int)
    requires Inv(t) && ord.quantity > 0 && ord.price >= 0.0 && ValidPick(t.orders, ord, pick) && pick in t.orders
    requires Place(t, ord, pick, stamp, posted).0 != t
    ensures var row, t' := t.orders[pick], Place(t, ord, pick, stamp, posted).0;
            && (pick !in t'.orders <==> row.quantity <= ord.quantity)
            && (ord.quantity < row.quantity ==> t'.orders[pick] == row.(quantity := row.quantity - ord.quantity))
            && t'.archives == t.archives + [row, ord.(createdAt := stamp)]
  {
    assert RowOk(t, pick);
  }

  /** What the match does not fill is posted under the next ID, unless it is OMG for sale. */
  lemma RestIsPosted(t: Tables, ord: Order, pick: int, stamp: int, posted: int)
    requires Inv(t) && ord.quantity > 0 && ord.price >= 0.0 && ValidPick(t.orders, ord, pick)
    requires Place(t, ord, pick, stamp, posted).0 != t
    ensures var t' := Place(t, ord, pick, stamp, posted).0;
            var left := ord.quantity - if pick !in t.orders then 0 else if t.orders[pick].quantity < ord.quantity
                                       then t.orders[pick].quantity else ord.quantity;
            && (forall j | j != pick && j != t.nextOrderId :: (j in t'.orders <==> j in t.orders)
                                                             && (j in t.orders ==> t'.orders[j] == t.orders[j]))
            && if left > 0 && (ord.side == Buy || ord.item != OMG) then
                 && t'.nextOrderId == t.nextOrderId + 1 && t.nextOrderId in t'.orders
                 && t'.orders[t.nextOrderId]
                    == Order(ord.item, ord.side, left, ord.price, ord.owner, posted)
               else t'.nextOrderId == t.nextOrderId && t.nextOrderId !in t'.orders
  {
    assert t.nextOrderId !in t.orders;
    if pick in t.orders {
      assert RowOk(t, pick);
    }
  }

  // ---------- What it does to the balances ----------

  /** Posting takes the price times the quantity, rounded down, or the coins for sale. */
  lemma PostingTakes(u: User, ord: Order)
    ensures u.Reserve(ord)
         == if ord.side == Buy then User(u.omg - Trunc(ord.quantity as real * ord.price), u.doge, u.btc, u.eth)
            else match ord.item
              case OMG => User(u.omg - ord.quantity, u.doge, u.btc, u.eth)
              case DOGE => User(u.omg, u.doge - ord.quantity, u.btc, u.eth)
              case BTC => User(u.omg, u.doge, u.btc - ord.quantity, u.eth)
              case ETH => User(u.omg, u.doge, u.btc, u.eth - ord.quantity)
  {
    TimesIsProduct(ord.quantity, ord.price);
  }

  /** Cancelling gives the price times the quantity, in one sum with the balance, or the coins for sale. */
  lemma CancellingGives(u: User, ord: Order)
    ensures u.Refund(ord)
         == if ord.side == Buy then User(Trunc(u.omg as real + ord.quantity as real * ord.price), u.doge, u.btc, u.eth)
            else match ord.item
              case OMG => User(u.omg + ord.quantity, u.doge, u.btc, u.eth)
              case DOGE => User(u.omg, u.doge + ord.quantity, u.btc, u.eth)
              case BTC => User(u.omg, u.doge, u.btc + ord.quantity, u.eth)
              case ETH => User(u.omg, u.doge, u.btc, u.eth + ord.quantity)
  {
    TimesIsProduct(ord.quantity, ord.price);
  }

  /** The buyer of a trade pays first and gets the coins then. */
  lemma BuyerOfTrade(u: User, ord: Order, row: Order, n: int)
    requires ord.item == row.item && ord.side != row.side
    ensures var omg := Trunc(u.omg as real - n as real * row.price);
            (if ord.side == Buy then TakerLeg(u, ord, row, n) else MakerLeg(u, ord, row, n))
            == match ord.item
               case OMG => User(omg + n, u.doge, u.btc, u.eth)
               case DOGE => User(omg, u.doge + n, u.btc, u.eth)
               case BTC => User(omg, u.doge, u.btc + n, u.eth)
               case ETH => User(omg, u.doge, u.btc, u.eth + n)
  {
    TimesIsProduct(n, row.price);
  }

  /** The seller is paid first when the offer was resting, and gives the coins first when taking a bid. */
  lemma SellerOfTrade(u: User, ord: Order, row: Order, n: int)
    requires ord.item == row.item && ord.side != row.side
    ensures var omg := Trunc(u.omg as real + n as real * row.price);
            (if ord.side == Buy then MakerLeg(u, ord, row, n) else TakerLeg(u, ord, row, n))
            == match ord.item
               case OMG =>
                 User(if ord.side == Buy then omg - n else Trunc((u.omg - n) as real + n as real * row.price),
                      u.doge, u.btc, u.eth)
               case DOGE => User(omg, u.doge - n, u.btc, u.eth)
               case BTC => User(omg, u.doge, u.btc - n, u.eth)
               case ETH => User(omg, u.doge, u.btc, u.eth - n)
  {
    TimesIsProduct(n, row.price);
  }

  /** A trade moves its two sides, posting then takes the rest from the taker, and nobody else moves. */
  lemma TradersMove(t: Tables, ord: Order, pick: int, stamp: int, posted: int)
    requires Inv(t) && ord.quantity > 0 && ord.price >= 0.0 && ValidPick(t.orders, ord, pick) && pick in t.orders
    requires Place(t, ord, pick, stamp, posted).0 != t
    ensures ord.owner in t.users && t.orders[pick].owner in t.users
    ensures var row, users' := t.orders[pick], Place(t, ord, pick, stamp, posted).0.users;
            var n := if row.quantity < ord.quantity then row.quantity else ord.quantity;
            var taker, left := TakerLeg(t.users[ord.owner], ord, row, n), ord.quantity - n;
            && users'.Keys == t.users.Keys
            && (forall u | u in t.users && u != ord.owner && u != row.owner :: users'[u] == t.users[u])
            && users'[row.owner] == MakerLeg(t.users[row.owner], ord, row, n)
            && users'[ord.owner] == if left > 0 && (ord.side == Buy || ord.item != OMG)
                                    then taker.Reserve(ord.(quantity := left)) else taker
  {
    assert RowOk(t, pick);
  }

  /** With no match an order that may rest is posted whole, and paid for. */
  lemma PosterMoves(t: Tables, ord: Order, stamp: int, posted: int)
    requires Inv(t) && ord.quantity > 0 && ord.price >= 0.0 && ValidPick(t.orders, ord, -1)
    requires Place(t, ord, -1, stamp, posted).0 != t
    ensures ord.owner in t.users
    ensures var t' := Place(t, ord, -1, stamp, posted).0;
            && t'.users == t.users[ord.owner := t.users[ord.owner].Reserve(ord)]
            && t'.archives == t.archives
  {
  }

  // ---------- Cancelling and registering ----------

  /** Only the owner of an open order may cancel it; then it is gone, its owner refunded, and nothing else changed. */
  lemma CancelAnswers(t: Tables, id: int, userId: int)
    requires Inv(t)
    ensures var (t', code) := Cancel(t, id, userId);
            && (code == 0 <==> id in t.orders && t.orders[id].owner == userId)
            && (code == 0 || code == -1)
            && (code == -1 ==> t' == t)
            && (code == 0 ==>
                  && userId in t.users && t'.orders == t.orders - {id}
                  && t'.users == t.users[userId := t.users[userId].Refund(t.orders[id])]
                  && t'.archives == t.archives && t'.nextOrderId == t.nextOrderId && t'.nextUserId == t.nextUserId)
  {
    if id in t.orders {
      assert RowOk(t, id);
    }
  }
}
