/**
 * The three tables as a mutable object, one method per table operation, and the commands as the
 * sequences of table operations they are. Every operation is one SQL statement (or reads before one).
 * The commands are proved equal to the one-step `Place` and `Cancel` of `Market`.
 */
module Marketplace {
  import opened Rounding
  import opened Market
  import opened Answers

  class Database {
    var users: map<int, User>
    var orders: map<int, Order>
    var archives: seq<Order>
    var nextUserId: int
    var nextOrderId: int
    var clock: int

    function Snapshot(): Tables
      reads this
    {
      Tables(users, orders, archives, nextUserId, nextOrderId, clock)
    }

    ghost predicate Valid()
      reads this
    {
      Inv(Snapshot())
    }

    constructor CreateTables()
      ensures Valid() && Snapshot() == EMPTY
      ensures users == map[] && orders == map[] && archives == [] && nextUserId == nextOrderId == 1
    {
      users, orders, archives := map[], map[], [];
      nextUserId, nextOrderId, clock := 1, 1, 0;
    }

    // ---------- Table operations ----------

    method InsertUser(newUser: User) returns (userId: int)
      requires Valid()
      modifies this
      ensures Valid()
      ensures userId == old(nextUserId) && userId !in old(users) && users == old(users)[userId := newUser]
      ensures nextUserId == old(nextUserId) + 1 && unchanged(`orders, `archives, `nextOrderId, `clock)
      ensures Snapshot() == Register(old(Snapshot()), newUser)
    {
      RegisterKeepsInv(Snapshot(), newUser);
      userId := nextUserId;
      users := users[userId := newUser];
      nextUserId := nextUserId + 1;
    }

    method GetUser(userId: int) returns (code: int, user: User)
      ensures code == if userId in users then 0 else 12
      ensures code == 0 ==> user == users[userId]
    {
      if userId in users {
        return OK, users[userId];
      }
      code, user := SQLITE_NOTFOUND, *;
    }

    method GetOrder(orderId: int) returns (code: int, ord: Order)
      ensures code == if orderId in orders then 0 else 12
      ensures code == 0 ==> ord == orders[orderId]
    {
      if orderId in orders {
        return OK, orders[orderId];
      }
      code, ord := SQLITE_NOTFOUND, *;
    }

    /** The oldest resting buy of the item at or above the seller's price, from someone else. */
    method FindMatchingBuy(ord: Order) returns (orderId: int)
      requires Valid() && ord.side == Sell
      ensures ValidPick(orders, ord, orderId)
      ensures orderId == -1 <==> forall j | j in orders ::
                !(orders[j].item == ord.item && orders[j].side == Buy
                  && orders[j].price >= ord.price && orders[j].owner != ord.owner)
      ensures orderId != -1 ==>
                && orderId in orders && orders[orderId].item == ord.item && orders[orderId].side == Buy
                && orders[orderId].price >= ord.price && orders[orderId].owner != ord.owner
                && forall j | j in orders && orders[j].item == ord.item && orders[j].side == Buy
                              && orders[j].price >= ord.price && orders[j].owner != ord.owner ::
                     orders[orderId].createdAt <= orders[j].createdAt
    {
      ghost var pick := PickExists(orders, ord);
      var rows := map j | j in orders && orders[j].item == ord.item && orders[j].side == Buy
                          && orders[j].price >= ord.price && orders[j].owner != ord.owner :: orders[j];
      assert forall j :: j in rows <==> Eligible(orders, ord, j);
      orderId := FirstByTime(rows, pick);
      SellerMatches(Snapshot(), ord, orderId);
    }

    /** The oldest resting sell of the item at or below the buyer's price, from someone else. */
    method FindMatchingSell(ord: Order) returns (orderId: int)
      requires Valid() && ord.side == Buy
      ensures ValidPick(orders, ord, orderId)
      ensures orderId == -1 <==> forall j | j in orders ::
                !(orders[j].item == ord.item && orders[j].side == Sell
                  && orders[j].price <= ord.price && orders[j].owner != ord.owner)
      ensures orderId != -1 ==>
                && orderId in orders && orders[orderId].item == ord.item && orders[orderId].side == Sell
                && orders[orderId].price <= ord.price && orders[orderId].owner != ord.owner
                && forall j | j in orders && orders[j].item == ord.item && orders[j].side == Sell
                              && orders[j].price <= ord.price && orders[j].owner != ord.owner ::
                     orders[orderId].createdAt <= orders[j].createdAt
    {
      ghost var pick := PickExists(orders, ord);
      var rows := map j | j in orders && orders[j].item == ord.item && orders[j].side == Sell
                          && orders[j].price <= ord.price && orders[j].owner != ord.owner :: orders[j];
      assert forall j :: j in rows <==> Eligible(orders, ord, j);
      orderId := FirstByTime(rows, pick);
      BuyerMatches(Snapshot(), ord, orderId);
    }

    /** ORDER BY created_at ASC LIMIT 1: with equal timestamps any of the first rows may come back. */
    static method FirstByTime(rows: map<int, Order>, ghost first: int) returns (orderId: int)
      requires NO_MATCH !in rows
      requires if first == NO_MATCH then forall j :: j !in rows
               else first in rows && forall j | j in rows :: rows[first].createdAt <= rows[j].createdAt
      ensures orderId == NO_MATCH <==> forall j :: j !in rows
      ensures orderId != NO_MATCH ==>
                orderId in rows && forall j | j in rows :: rows[orderId].createdAt <= rows[j].createdAt
    {
      if !exists j :: j in rows {
        return NO_MATCH;
      }
      orderId :| orderId in rows && forall j | j in rows :: rows[orderId].createdAt <= rows[j].createdAt;
    }

    method UpdateUserBalance(userId: int, user: User)
      modifies `users
      ensures users == if userId in old(users) then old(users)[userId := user] else old(users)
    {
      if userId in users {
        users := users[userId := user];
      }
    }

    /** Writes every column but the timestamp, if the row is still there. */
    method UpdateOrder(orderId: int, row: Order)
      modifies `orders
      ensures orders.Keys == old(orders.Keys)
      ensures forall j | j in orders && j != orderId :: orders[j] == old(orders)[j]
      ensures orderId in orders ==> orders[orderId] == row.(createdAt := old(orders)[orderId].createdAt)
    {
      if orderId in orders {
        orders := orders[orderId := row.(createdAt := orders[orderId].createdAt)];
      }
    }

    method DeleteOrder(orderId: int)
      modifies `orders
      ensures orders == old(orders) - {orderId}
    {
      orders := orders - {orderId};
    }

    method InsertArchive(row: Order)
      modifies `archives
      ensures archives == old(archives) + [row]
    {
      archives := archives + [row];
    }

    method AssignOrderTimestamp(ord: Order, now: int) returns (stamped: Order)
      modifies `clock
      ensures stamped == ord.(createdAt := now) && clock == now
    {
      clock := now;
      stamped := ord.(createdAt := now);
    }

    /** Checks the balance, inserts the row under the next ID and debits the owner. */
    method InsertOrder(ord: Order, now: int) returns (code: int)
      modifies `users, `orders, `nextOrderId, `clock
      ensures code == 12 <==> ord.owner !in old(users)
      ensures code == 0 <==>
                && ord.owner in old(users)
                && if ord.side == Buy then Trunc(ord.quantity as real * ord.price) <= old(users)[ord.owner].omg
                   else match ord.item
                     case OMG => false
                     case DOGE => ord.quantity <= old(users)[ord.owner].doge
                     case BTC => ord.quantity <= old(users)[ord.owner].btc
                     case ETH => ord.quantity <= old(users)[ord.owner].eth
      ensures code == 0 || code == 1 || code == 12
      ensures code != 0 ==> Snapshot() == old(Snapshot())
      ensures code == 0 ==> ord.owner in old(users) && Snapshot() == Rest(old(Snapshot()), ord, now)
      ensures ord.owner in old(users) ==>
                (code == 0 <==> ord.CanRest() && Reservable(old(users)[ord.owner], ord))
    {
      TimesIsProduct(ord.quantity, ord.price);
      var updatedUser: User;
      code, updatedUser := GetUser(ord.owner);
      if code != OK {
        return;
      }
      if ord.side == Buy {
        var cost := Trunc(ord.Cost(ord.quantity));
        if updatedUser.omg < cost {
          return SQLITE_ERROR;
        }
      } else {
        match ord.item {
          case DOGE => if updatedUser.doge < ord.quantity { return SQLITE_ERROR; }
          case BTC => if updatedUser.btc < ord.quantity { return SQLITE_ERROR; }
          case ETH => if updatedUser.eth < ord.quantity { return SQLITE_ERROR; }
          case OMG => return SQLITE_ERROR;
        }
      }
      clock := now;
      orders := orders[nextOrderId := ord.(createdAt := now)];
      nextOrderId := nextOrderId + 1;
      if ord.side == Buy {
        var cost := Trunc(ord.Cost(ord.quantity));
        updatedUser := updatedUser.(omg := updatedUser.omg - cost);
      } else {
        match ord.item {
          case DOGE => updatedUser := updatedUser.(doge := updatedUser.doge - ord.quantity);
          case BTC => updatedUser := updatedUser.(btc := updatedUser.btc - ord.quantity);
          case ETH => updatedUser := updatedUser.(eth := updatedUser.eth - ord.quantity);
          case OMG =>
        }
      }
      UpdateUserBalance(ord.owner, updatedUser);
      return OK;
    }

    // ---------- Commands ----------

    /**
     * `buy`: none of the failure branches after the first archive write is ever taken, and the
     * statements together are one `Place`.
     */
    method BuyCommand(ord: Order, stamp: int, posted: int) returns (code: int, ghost pick: int)
      requires Valid() && ord.quantity > 0 && ord.price >= 0.0 && ord.side == Buy
      requires clock <= stamp <= posted
      modifies this
      ensures Valid()
      ensures ValidPick(old(orders), ord, pick)
      ensures (Snapshot(), code) == Place(old(Snapshot()), ord, pick, stamp, posted)
      ensures code == if ord.owner in old(users)
                         && ord.quantity as real * ord.price <= old(users)[ord.owner].omg as real then 0 else -1
      ensures code == -1 ==> Snapshot() == old(Snapshot())
    {
      ghost var before := Snapshot();
      pick := PickExists(orders, ord);
      BuyAnswers(before, ord, pick, stamp, posted);
      var res, currentUser := GetUser(ord.owner);
      if res != OK {
        return FAILED, pick;
      }
      var totalCost := ord.Cost(ord.quantity);
      if currentUser.omg as real < totalCost {
        return FAILED, pick;
      }
      var result := FindMatchingSell(ord);
      pick := result;
      BuyAnswers(before, ord, pick, stamp, posted);
      PlaceKeepsInv(before, ord, pick, stamp, posted);
      if result == NO_MATCH {
        FundedIsReservable(currentUser, ord);
        code := InsertOrder(ord, posted);
        return;
      }
      assert RowOk(before, result);
      code := BuyFrom(ord, currentUser, result, stamp, posted);
    }

    /** `buy` once a match is found. */
    method BuyFrom(ord: Order, buyer: User, result: int, stamp: int, posted: int) returns (code: int)
      requires ord.WellFormed() && ord.side == Buy
      requires ord.owner in users && buyer == users[ord.owner] && Funded(buyer, ord)
      requires Eligible(orders, ord, result) && orders[result].WellFormed() && orders[result].owner in users
      modifies this
      ensures code == 0
      ensures Snapshot() == Traded(old(Snapshot()), ord, result, stamp, posted)
    {
      ghost var before := Snapshot();
      var matched: Order;
      code, matched := GetOrder(result);
      if code != OK {
        return FAILED;
      }
      var left: Order;
      code, left := SettleBuy(ord, buyer, result, matched, stamp);
      if code != OK {
        return FAILED;
      }
      if left.quantity > 0 {
        LeftoverIsReservable(before, ord, result, stamp);
        code := InsertOrder(left, posted);
        if code != OK {
          return FAILED;
        }
      }
      return OK;
    }

    /** The middle of `buy`: archive both rows, move money and coins, and shrink or remove the match. */
    method SettleBuy(ord: Order, buyer: User, result: int, matched: Order, stamp: int) returns (code: int, left: Order)
      requires ord.side == Buy && ord.owner in users && buyer == users[ord.owner]
      requires Eligible(orders, ord, result) && matched == orders[result] && matched.owner in users
      modifies this
      ensures code == 0
      ensures left == ord.(createdAt := stamp, quantity := left.quantity)
      ensures left.quantity == if matched.quantity < ord.quantity then ord.quantity - matched.quantity else 0
      ensures Snapshot() == Settle(old(Snapshot()), ord, result, stamp)
    {
      left := AssignOrderTimestamp(ord, stamp);
      InsertArchive(matched);
      InsertArchive(left);

      var n := if left.quantity > matched.quantity then matched.quantity else left.quantity;
      var cost := matched.Cost(n);
      left := left.(quantity := left.quantity - n);
      var filled := matched.(quantity := matched.quantity - n);

      var currentUser := buyer.(omg := Trunc(buyer.omg as real - cost));
      currentUser := AddCoins(currentUser, ord.item, n);
      assert currentUser == TakerLeg(buyer, ord, matched, n);
      UpdateUserBalance(ord.owner, currentUser);

      var sellerUser: User;
      code, sellerUser := GetUser(matched.owner);
      if code != OK {
        code := FAILED;
        return;
      }
      sellerUser := sellerUser.(omg := Trunc(sellerUser.omg as real + cost));
      sellerUser := AddCoins(sellerUser, matched.item, -n);
      assert sellerUser == MakerLeg(old(users)[matched.owner], ord, matched, n);
      UpdateUserBalance(matched.owner, sellerUser);

      FillMatched(result, filled);
      assert archives == old(archives) + [matched, ord.(createdAt := stamp)];
    }

    /**
     * `sell`: coins are checked instead of money. The only failure after the archive writes is that of
     * an OMG order with something left over, which the book refuses.
     */
    method SellCommand(ord: Order, stamp: int, posted: int) returns (code: int, ghost pick: int)
      requires Valid() && ord.quantity > 0 && ord.price >= 0.0 && ord.side == Sell
      requires clock <= stamp <= posted
      modifies this
      ensures Valid()
      ensures ValidPick(old(orders), ord, pick)
      ensures (Snapshot(), code) == Place(old(Snapshot()), ord, pick, stamp, posted)
      ensures code == 0 || code == 1 || code == -1
      ensures code == -1 && Snapshot() == old(Snapshot()) <==>
                !(&& ord.owner in old(users)
                  && ord.quantity <= match ord.item
                                     case OMG => old(users)[ord.owner].omg
                                     case DOGE => old(users)[ord.owner].doge
                                     case BTC => old(users)[ord.owner].btc
                                     case ETH => old(users)[ord.owner].eth)
      ensures code == 1 ==> ord.item == OMG && Snapshot() == old(Snapshot())
    {
      ghost var before := Snapshot();
      pick := PickExists(orders, ord);
      SellAnswers(before, ord, pick, stamp, posted);
      var res, currentUser := GetUser(ord.owner);
      if res != OK {
        return FAILED, pick;
      }
      if ord.item == OMG && currentUser.omg < ord.quantity {
        return FAILED, pick;
      } else if ord.item == DOGE && currentUser.doge < ord.quantity {
        return FAILED, pick;
      } else if ord.item == BTC && currentUser.btc < ord.quantity {
        return FAILED, pick;
      } else if ord.item == ETH && currentUser.eth < ord.quantity {
        return FAILED, pick;
      }
      var result := FindMatchingBuy(ord);
      pick := result;
      SellAnswers(before, ord, pick, stamp, posted);
      PlaceKeepsInv(before, ord, pick, stamp, posted);
      if result == NO_MATCH {
        FundedIsReservable(currentUser, ord);
        code := InsertOrder(ord, posted);
        return;
      }
      assert RowOk(before, result);
      code := SellTo(ord, currentUser, result, stamp, posted);
    }

    /** `sell` once a match is found. */
    method SellTo(ord: Order, seller: User, result: int, stamp: int, posted: int) returns (code: int)
      requires ord.WellFormed() && ord.side == Sell
      requires ord.owner in users && seller == users[ord.owner] && Funded(seller, ord)
      requires Eligible(orders, ord, result) && orders[result].WellFormed() && orders[result].owner in users
      modifies this
      ensures code == if ord.quantity <= old(orders)[result].quantity || ord.item != OMG then 0 else -1
      ensures Snapshot() == Traded(old(Snapshot()), ord, result, stamp, posted)
    {
      ghost var before := Snapshot();
      var matched: Order;
      code, matched := GetOrder(result);
      if code != OK {
        return FAILED;
      }
      var left: Order;
      code, left := SettleSell(ord, seller, result, matched, stamp);
      if code != OK {
        return FAILED;
      }
      if left.quantity > 0 {
        if left.CanRest() {
          LeftoverIsReservable(before, ord, result, stamp);
        }
        code := InsertOrder(left, posted);
        if code != OK {
          return FAILED;
        }
      }
      return OK;
    }

    /** The middle of `sell`. The taker's coins leave before the money arrives. */
    method SettleSell(ord: Order, seller: User, result: int, matched: Order, stamp: int)
      returns (code: int, left: Order)
      requires ord.side == Sell && ord.owner in users && seller == users[ord.owner]
      requires Eligible(orders, ord, result) && matched == orders[result] && matched.owner in users
      modifies this
      ensures code == 0
      ensures left == ord.(createdAt := stamp, quantity := left.quantity)
      ensures left.quantity == if matched.quantity < ord.quantity then ord.quantity - matched.quantity else 0
      ensures Snapshot() == Settle(old(Snapshot()), ord, result, stamp)
    {
      left := AssignOrderTimestamp(ord, stamp);
      InsertArchive(matched);
      InsertArchive(left);

      var n := if left.quantity > matched.quantity then matched.quantity else left.quantity;
      var cost := matched.Cost(n);
      left := left.(quantity := left.quantity - n);
      var filled := matched.(quantity := matched.quantity - n);

      var currentUser := AddCoins(seller, ord.item, -n);
      currentUser := currentUser.(omg := Trunc(currentUser.omg as real + cost));
      assert currentUser == TakerLeg(seller, ord, matched, n);
      UpdateUserBalance(ord.owner, currentUser);

      var buyerUser: User;
      code, buyerUser := GetUser(matched.owner);
      if code != OK {
        code := FAILED;
        return;
      }
      buyerUser := buyerUser.(omg := Trunc(buyerUser.omg as real - cost));
      buyerUser := AddCoins(buyerUser, matched.item, n);
      assert buyerUser == MakerLeg(old(users)[matched.owner], ord, matched, n);
      UpdateUserBalance(matched.owner, buyerUser);

      FillMatched(result, filled);
      assert archives == old(archives) + [matched, ord.(createdAt := stamp)];
    }

    /** Removes a filled order, or writes back what is left of it. */
    method FillMatched(result: int, filled: Order)
      requires result in orders && filled == orders[result].(quantity := filled.quantity)
      modifies `orders
      ensures orders == Fill(old(orders), result, old(orders)[result].quantity - filled.quantity)
    {
      if filled.quantity == 0 {
        DeleteOrder(result);
      } else {
        UpdateOrder(result, filled);
      }
    }

    /** `cancel_order`: only the owner may, and the reservation comes back. */
    method CancelOrder(orderId: int, currentUserId: int) returns (code: int)
      requires Valid()
      modifies this
      ensures Valid()
      ensures (Snapshot(), code) == Cancel(old(Snapshot()), orderId, currentUserId)
      ensures code == if orderId in old(orders) && old(orders)[orderId].owner == currentUserId then 0 else -1
      ensures code == -1 ==> Snapshot() == old(Snapshot())
      ensures code == 0 ==>
                && orders == old(orders) - {orderId} && currentUserId in old(users)
                && users == old(users)[currentUserId := old(users)[currentUserId].Refund(old(orders)[orderId])]
                && unchanged(`archives, `nextUserId, `nextOrderId, `clock)
    {
      CancelAnswers(Snapshot(), orderId, currentUserId);
      CancelKeepsInv(Snapshot(), orderId, currentUserId);
      var res, ord := GetOrder(orderId);
      if res != OK {
        return FAILED;
      }
      if ord.owner != currentUserId {
        return FAILED;
      }
      assert RowOk(Snapshot(), orderId);
      var user: User;
      res, user := GetUser(ord.owner);
      if res != OK {
        return FAILED;
      }
      if ord.side == Buy {
        var refundAmount := ord.Cost(ord.quantity);
        user := user.(omg := Trunc(user.omg as real + refundAmount));
      } else {
        user := AddCoins(user, ord.item, ord.quantity);
      }
      UpdateUserBalance(ord.owner, user);
      DeleteOrder(orderId);
      return OK;
    }

    /** The chain of item tests that adjusts one balance. */
    static method AddCoins(u: User, item: Coin, n: int) returns (u': User)
      ensures u' == u.Credit(item, n)
    {
      match item
      case OMG => u' := u.(omg := u.omg + n);
      case DOGE => u' := u.(doge := u.doge + n);
      case BTC => u' := u.(btc := u.btc + n);
      case ETH => u' := u.(eth := u.eth + n);
    }
  }
}
