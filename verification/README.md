# Olin Marketplace for Goods: a Dafny model of the exchange

Olin Marketplace for Goods is a small exchange. Users hold OMG, the money, and three coins, DOGE, BTC
and ETH. A `buy` or `sell` is matched with the oldest resting order of the other side that is within
its limit, and at most one; what is left over rests in the book. Posting an order takes what it offers
from its owner at once; cancelling gives it back. Everything lives in three SQL tables, and every
command is a sequence of separate statements on them, run by one process per client.

The project models the commands and the table operations below them, and the tokenizer that reads the
commands, and states what holds over one command, over whole serial runs, and over every interleaving
of clients.

## How the project is laid out

| file | what is in it |
|---|---|
| `Rounding.dfy` | quantity times price, and the conversion of a `double` to an `int` |
| `Market.dfy` | the tables as a value; what one `buy`, `sell` or `cancelOrder` does as one step (`Place`, `Cancel`, `Register`); the invariant of the tables |
| `Answers.dfy` | what every command answers and leaves behind, in balances, quantities, prices and codes alone |
| `Marketplace.dfy` | the tables as an object, one method per table operation, and the commands as the statements they are |
| `Runs.dfy`, `Sums.dfy` | serial runs; sums over tables and over archived trades |
| `Book.dfy` | the life of a resting order, time priority, when a command fails, when the book is crossed |
| `ItemLedger.dfy`, `OmgLedger.dfy`, `UserMoney.dfy`, `Floors.dfy` | where the coins and the money are, market-wide and user by user, and how far below zero a balance can go |
| `Refunds.dfy` | what a cancellation returns |
| `Clients.dfy`, `Interleaving.dfy` | many clients, interleaved statement by statement; serial runs among the interleavings; double cancels and double fills |
| `Flow.dfy` | what every statement of every client does to balances and orders: what it should, a rounding, and what is wrong with its copy |
| `Overlap.dfy` | the item ledger over every schedule; schedules without a stale write |
| `Totals.dfy`, `Pairing.dfy` | the totals of one order, and the pairs of the archive, over every schedule |
| `ScheduleLedgers.dfy`, `ScheduleFloors.dfy` | the ledgers, audits and floors of serial runs, over schedules |
| `Passing.dfy` | overlapping commands that end like no serial run |
| `Witnesses.dfy` | runs and schedules from empty tables in which something one might expect fails |
| `StringArray.dfy`, `Tokenizer.dfy` | the growing string array and the word splitter |

Quantities and balances are unbounded integers and prices are exact reals; the truncation toward zero
that C does when a `double` is stored in an `int` is explicit (`Rounding.Trunc`). `Rounding.Times` is
the product written as repeated addition, and `TimesIsProduct` says so. The clock and the choice among
equal timestamps are parameters: `stamp` is the time read for the archive, `posted` the time an
inserted row gets, and `pick` the matcher's answer, which is any of the oldest eligible orders.

## What the code does that one might not expect

- A resting order is charged twice: its owner pays when it is posted and again when it is filled. So
  balances plus open reservations are not constant; the ledgers and the audits below are the laws that
  hold instead. `CoinsConservedExactlyWhen` and `MoneyConservedExactlyWhen` say when the expected laws
  do, `MoneyFallsBySecondPayment` says how much money is missing at fractional prices too, and
  `CoinsCanVanish` and `MoneyCanVanish` are runs from empty tables in which they fail.
- A `sell` of OMG cannot rest. If such an order is filled in part, the trade stays and the command
  fails (`FailureCanLeaveTrade` is a run); if it meets nothing, `sell` returns 1, which
  `src/command.h:136` does not mention and the client loop (`src/server.c:390`) reports as a success.
  `AllOrNothing` gives both cases exactly.
- A command meets at most one resting order, so the book can end up crossed. `UncrossedExactlyWhen`
  and `RunUncrossedExactlyWhen` say when, and `BookCanBeCrossed` is a run.
- When a balance is negative even with the refund, the refund of a cancelled buy is rounded up and can
  exceed what posting took; `RefundWithinReservation` says exactly when, and
  `RefundCanExceedReservation` is a run.
- The tokenizer drops a last word that no whitespace follows, although `src/util.h:64-74` promises all
  words (`AllWordsFound`; `LastWordCanBeDropped` is a line).
- There is no transaction around a command, so the ledgers, the order totals and the pairing of the
  archive are not laws of every interleaving. Each has its exact condition, over every schedule:
  - A statement keeps the coins exactly when the copy it writes back is right in that coin
    (`StatementKeepsCoinsExactlyWhen`), and a schedule exactly when its stale copies add up to nothing
    (`CoinsKeptExactlyWhen`). `ScheduleCoins` says by how much the law is off otherwise.
  - A fill takes what it reports exactly when the row is there with the quantity it read
    (`FillTakesExactlyWhen`), and the totals of an order hold exactly when its stale fills add up to
    nothing (`TotalsKeptExactlyWhen`).
  - Archived rows are paired exactly when no client archives a match while another is between its two
    rows (`PairedFromStart`); then the archive is a sequence of trades (`ArchiveFromStart`) and adds up
    to the fills (`ArchiveIsFills`).

  `InterleavingBreaksLedger` and `InStepFillsTwice` are general schedules that break them, and
  `CoinsCanAppear` and `OfferCanBeSoldTwice` are such schedules from the start of the server.
- Schedules without a stale write keep the ledgers, the audits and the floors of serial runs
  (`FreshKeepsLedgers`, `FreshStaysAbove`), and commands that never share a user or an order while under
  way make no stale write (`ApartIsFresh`). They still need not end like a serial run: two orders that
  cross can be posted past each other (`ApartOrdersPass`, `SerialOrdersMeet`; `OrdersCanPass` is a
  schedule). What every schedule keeps is stated in `OrdersKeepIdentity` and `TradesCross`, and
  `LateFailures` says exactly which failures a command can meet and why.

## Model

| member | source | states |
|---|---|---|
| Rounding.TimesIsProduct | src/command.c:167 | The cost used throughout is quantity times price, for every integer quantity. |
| Rounding.Trunc | src/db.c:117 | Storing a `double` in an `int` moves it toward zero by less than one. |
| Rounding.RoundedPayment | src/command.c:210 | A payment costs exactly the price rounded up, or rounded down if the balance is negative after it. |
| Rounding.RoundedReceipt | src/command.c:478-480 | A receipt is the amount rounded down, or rounded up if the balance is still negative after it. |
| Rounding.RemainderAffordable | src/command.c:167-171 | Who can pay q units at the limit can pay n of them at a resting price within it and still reserve the rest; both debits stay within the rounded-up cost at the limit. |
| Market.PickExists | src/db.c:446-476 | For every book and every order the matcher has a well-defined answer: an eligible order with the earliest timestamp, or none if none is eligible. |
| Market.LegsMoveCoins | src/command.c:209-241 | Apart from OMG, a trade moves exactly the traded quantity of the traded item from one user to the other and nothing else. |
| Market.FundedIsReservable | src/db.c:115-146 | The first check of a command implies the second check inside `insert_order`. |
| Market.LeftoverIsReservable | src/command.c:261-267 | After a trade the owner can always reserve what is left of the order, for both sides and any prices. |
| Market.SettleKeepsInv | src/command.c:183-259 | A trade keeps the table and archive invariants. |
| Market.RestKeepsInv | src/db.c:148-200 | Posting keeps them: the new ID is fresh, the row positive, its owner known, its time not before any older ID's. |
| Market.PlaceKeepsInv | src/command.c:160-391 | Every `buy` and `sell` keeps the invariants, whatever its outcome. |
| Market.CancelKeepsInv | src/command.c:458-504 | So does every cancellation. |
| Market.RegisterKeepsInv | src/db.c:204-250 | So does every registration. |
| Answers.BuyerMatches | src/db.c:446-476 | For a buy the matcher answers -1 exactly when no row has the same item, the sell side, a price up to and including the limit and another owner; otherwise a row with all four, and none with all four is older. |
| Answers.SellerMatches | src/db.c:413-444 | The same for a sell, with the buy side and a price from the limit up. |
| Answers.BuyAnswers | src/command.c:160-270 | A buy answers 0 exactly when its owner is known and quantity times price is within the OMG balance, the whole balance included; otherwise -1, and nothing changes. |
| Answers.SellAnswers | src/command.c:272-391 | A sell is refused unchanged with -1 exactly when the owner is unknown or the balance of its coin is below the quantity; OMG with no bid answers 1 unchanged, OMG with a smaller bid answers -1 and trades; everything else answers 0. |
| Answers.MatchShrinks | src/command.c:201-259 | The match is gone exactly when the order is at least as large, for every item and both sides; otherwise it keeps the difference. The archived pair is the match as it was and the order as it was sent, with the time of the trade. |
| Answers.RestIsPosted | src/command.c:261-267 | What is not filled is posted under the next ID with the order's own terms and the insertion time, unless it is OMG for sale; no other row changes. |
| Answers.PostingTakes | src/db.c:174-192 | Posting takes quantity times price rounded down, or the coins of the item, and touches no other balance. |
| Answers.CancellingGives | src/command.c:478-491 | Cancelling adds quantity times price to the OMG balance in one sum, or the coins of the item, and touches no other balance. |
| Answers.BuyerOfTrade | src/command.c:209-218 | The buyer of a trade, taking or resting, pays at the resting price first and gets the coins then. |
| Answers.SellerOfTrade | src/command.c:232-241 | The seller is paid first when resting, and gives the coins first when taking. |
| Answers.TradersMove | src/command.c:209-246 | A command that trades moves the two sides by their legs of the smaller quantity, then takes the rest of the order from the taker, and moves nobody else. |
| Answers.PosterMoves | src/command.c:174-175 | A command without a match pays for the whole order and moves nobody else. |
| Answers.CancelAnswers | src/command.c:458-504 | A cancellation answers 0 exactly when the order is open and the caller owns it, then removes it and refunds the owner and changes nothing else; otherwise -1 and nothing changes. |
| Marketplace.Database.CreateTables | src/db.c:37-78 | Fresh tables are empty and satisfy the invariant. |
| Marketplace.Database.InsertUser | src/db.c:204-250 | The new user gets an unused ID and exactly the given balances; nothing else changes. |
| Marketplace.Database.GetUser | src/db.c:330-376 | Finds the row exactly when it exists, and otherwise says not found. |
| Marketplace.Database.GetOrder | src/db.c:378-411 | The same for orders. |
| Marketplace.Database.FindMatchingBuy | src/db.c:413-444 | Answers -1 exactly when no bid of someone else for the item is at or above the price; otherwise such a bid, and none of them is older. |
| Marketplace.Database.FindMatchingSell | src/db.c:446-476 | Answers -1 exactly when no offer of the item by someone else is at or below the price; otherwise such an offer, and none of them is older. |
| Marketplace.Database.InsertOrder | src/db.c:105-202 | Answers 12 for an unknown owner and 1 when the balance is below quantity times price rounded down, below the coins for sale, or the item is OMG for sale, all without any change; otherwise 0, inserting the row and debiting the owner. |
| Marketplace.Database.UpdateUserBalance | src/db.c:618-658 | Writes one user's balances, and nothing if the user is missing. |
| Marketplace.Database.UpdateOrder | src/db.c:573-616 | Writes one order except its timestamp, and nothing if the row is gone. |
| Marketplace.Database.DeleteOrder | src/db.c:305-328 | Removes that row and no other. |
| Marketplace.Database.InsertArchive | src/db.c:785-816 | Appends one row to the archive. |
| Marketplace.Database.AssignOrderTimestamp | src/db.c:878-903 | Reads the clock into the order at hand; no table changes. |
| Marketplace.Database.BuyCommand | src/command.c:160-270 | The statements of `buy`, with local copies, two write-backs and the re-read in `insert_order`, are one atomic `Place`; the code is 0 exactly when quantity times price is within the balance, else -1 without any change. |
| Marketplace.Database.BuyFrom | src/command.c:177-270 | Once a match is found, `buy` always succeeds, with exactly one trade and the rest in the book. |
| Marketplace.Database.SettleBuy | src/command.c:183-259 | The middle of `buy` is one trade: neither write-back overwrites the other, and what is left is what the match was short of. |
| Marketplace.Database.SellCommand | src/command.c:272-391 | The statements of `sell` are one atomic `Place`; it is refused unchanged with -1 exactly when the balance of the item is below the quantity, and the codes of OMG are as in `SellAnswers`. |
| Marketplace.Database.SellTo | src/command.c:297-391 | Once a match is found, `sell` fails only for OMG with something left over. |
| Marketplace.Database.SettleSell | src/command.c:303-380 | The middle of `sell` is one trade; what is left of the order is what the match was short of, for every item. |
| Marketplace.Database.CancelOrder | src/command.c:458-504 | Fails without change unless the order is open and the caller owns it; otherwise refunds and removes it in one step. |
| Runs.StepKeepsInv | src/command.c:160-504 | Every enabled event keeps the invariants. |
| Runs.RunKeepsInv | src/command.c:160-504 | Every state of every serial run satisfies the invariants: unique unused IDs, known owners, positive quantities, no resting OMG sell, timestamps in ID order, archive made of proper trades. |
| Runs.StateFromEmpty | src/db.c:37-78 | The same from empty tables, said of the columns. |
| Runs.AnyOrderIsEnabled | src/server.c:365-390 | At every point any order of a positive quantity at a price from zero up can be sent and is answered. |
| Book.StepOnOpenOrder | src/command.c:248-259 | One command fills an open order by n, cancels it, or leaves it; it leaves the book exactly when n is all of it or its owner cancels. |
| Book.ClosedStaysClosed | src/db.c:50 | A used ID never comes back, is never filled and never cancelled again. |
| Book.OrderLifetime | src/command.c:201-259 | Over any run: filled plus remaining is what was posted, never more; an order leaves by being filled or by its owner's cancel and for no other reason; nothing but the quantity changes. |
| Book.PostedOrder | src/command.c:261-267 | A new row is the unfilled part of a submission, under the next ID, with its terms and the insertion time. |
| Book.StepRespectsTime | src/db.c:413-476 | An order is not filled while a strictly older one at least as favourable is open, except by that one's owner. |
| Book.TimePriority | src/db.c:413-476 | The same at every point of every run; partial fills cost no place. |
| Book.AllOrNothing | src/command.c:272-391 | Exactly when a command succeeds, exactly when it returns the engine's error code, and exactly when a failure leaves the tables changed. |
| Book.BuyWithinLimit | src/command.c:167-223 | For DOGE, BTC and ETH a funded buy debits between nothing and the rounded-up cost at the limit, payment and reservation together. |
| Book.StepArchives | src/command.c:188-198 | The archive grows by one pair exactly when an order is filled: the resting row before the fill, then the taker's; the amount filled is the smaller of their quantities. |
| Book.RunArchives | src/db.c:785-816 | Over any run archived rows never change, and the archive is a sequence of trades between different registered users, on opposite sides of one item, at crossing prices. |
| Book.ArchivedPair | src/command.c:188-198 | Row by row: the archive is pairs of one item, opposite sides, different registered owners, crossing prices, positive quantities, the first row not younger. |
| Book.BothSidesAtRestingPrice | src/command.c:204-246 | What a trade does to the OMG balances of both sides, to the coin and for every item, OMG included: the buyer pays the resting cost rounded up, the seller receives it rounded down, the other way round for a balance that is negative afterwards. |
| Book.TakerGetsRestingPrice | src/command.c:204-223 | What the taker pays or receives is never worse than the taker's own limit, for every item and both sides. |
| Book.UncrossedExactlyWhen | src/command.c:173-181 | After any command, whatever its outcome, an uncrossed book is uncrossed exactly unless a funded order that may rest was filled in part and posted past another one it could have met. |
| Book.RunUncrossedExactlyWhen | src/command.c:160-504 | Over any run the book is uncrossed in every state exactly if no command of the run crosses the book it finds. |
| Book.UncrossedFromEmpty | src/command.c:160-504 | The same from empty tables. |
| ItemLedger.StepKeepsLedger | src/command.c:160-504 | One command moves DOGE, BTC and ETH between holdings, offers and the volume buyers took from the book. |
| ItemLedger.RunKeepsLedger | src/command.c:160-504 | Over any run from any good tables that ledger grows by exactly what was registered. |
| ItemLedger.LedgerFromEmpty | src/command.c:160-504 | From empty tables: held + offered + taken by buyers = registered. |
| ItemLedger.CoinsConservedExactlyWhen | src/command.c:232-241 | Held + offered stays the same exactly when the command is not a buy that takes from the book, where the seller is charged a second time. |
| ItemLedger.RunKeepsAudit | src/command.c:160-504 | Over any run a user's balance moves exactly with the user's offers and archived trades. |
| ItemLedger.AuditFromRegistration | src/db.c:174-192 | Balance = registered - offered + bought - sold as taker - 2 x sold from the book, with the traded amounts read from the archive alone. |
| OmgLedger.EarnDrift | src/command.c:210 | Adding a fractional amount to a balance is off by less than one, downward when the result is not negative, and exact when the amount is whole. |
| OmgLedger.LegsDrift | src/command.c:209-241 | Both legs of a trade together create or lose less than two OMG, and none at a whole price. |
| OmgLedger.StepMoney | src/command.c:160-504 | One command moves held + bid + paid-to-takers by less than two OMG, and not at all at whole prices. |
| OmgLedger.RunMoney | src/command.c:160-504 | After n commands the OMG ledger differs from what was registered by at most 2n. |
| OmgLedger.RunMoneyExact | src/command.c:160-504 | At whole prices it is exact over every run. |
| OmgLedger.MoneyFromEmpty | src/command.c:160-504 | Both, from empty tables. |
| OmgLedger.MoneyFallsBySecondPayment | src/command.c:353-367 | Held + bid falls by what the owner of a filled bid pays a second time, within two OMG, and exactly at whole prices. |
| OmgLedger.MoneyConservedExactlyWhen | src/command.c:353-367 | At whole prices held + bid stays the same exactly when no seller fills a bid at a price above zero. |
| OmgLedger.MoneyMovesExactly | src/command.c:160-504 | At any price held + bid moves by exactly an amount read from the state before: the roundings of the two sides, the fraction dropped from a bid, and the cost of a bid that is filled. |
| UserMoney.StepWorth | src/command.c:160-504 | One command moves a user's OMG as the user's bids and archived trades say, to within one OMG if it touches the user, and exactly if it does not or if prices are whole. |
| UserMoney.RunWorth | src/command.c:160-504 | Over any run the difference is at most the number of commands that touch the user. |
| UserMoney.RunWorthExact | src/command.c:160-504 | At whole prices there is none. |
| UserMoney.UserMoneyFromRegistration | src/db.c:174-192 | OMG = registered - bid - paid as taker - 2 x paid for filled bids + received + OMG traded as an item, to within one per command that touches the user, and exactly at whole prices. |
| Floors.TakerStaysAbove | src/command.c:168-171 | The taker's leg of a trade never lowers a bound at or below zero. |
| Floors.MakerStaysAbove | src/command.c:232-241 | The maker falls by no more than the second charge of this trade, rounding included. |
| Floors.RunStaysAbove | src/command.c:160-504 | Over any run no coin balance is below minus what the user sold from the book, and no OMG balance below minus what the user's filled bids cost. |
| Floors.FloorFromEmpty | src/command.c:160-504 | From empty tables, with no debts registered: OMG is never below minus the cost of the user's filled bids, any other coin never below minus what the user sold from the book. |
| Floors.UnfilledUserIsNeverNegative | src/command.c:160-504 | A user none of whose resting orders was filled never has a negative balance. |
| Refunds.PostThenCancel | src/command.c:478-501 | Posting and cancelling restores users and orders exactly, for every accepted order and any fraction. |
| Refunds.RefundAmount | src/command.c:478-480 | The refund of a buy is its value rounded down, or up if the balance stays negative. |
| Refunds.RefundWithinReservation | src/command.c:478-501 | After any run, cancelling what is left of a buy returns at most what posting took if and only if the balance with the refund is not negative or the rounded-up value is within what was taken. |
| Witnesses.CoinsCanVanish | src/command.c:232-241 | Two users with default balances, one offer, one buy: one DOGE of those registered is neither held nor offered. |
| Witnesses.MoneyCanVanish | src/command.c:353-367 | One bid of ten, one sell: ten OMG of those registered are neither held nor bid. |
| Witnesses.FailureCanLeaveTrade | src/command.c:382-391 | One bid for one OMG, one sell of two: the sell fails and its trade stays. |
| Witnesses.BookCanBeCrossed | src/command.c:173-181 | Two offers of one, one buy of three: the book is crossed. |
| Witnesses.RefundCanExceedReservation | src/command.c:478-480 | Two bids, one sell: cancelling the second bid pays out one OMG, posting it took none. |
| Clients.AloneIsPlace | src/command.c:160-391 | The statement-by-statement model of `buy` and `sell`, with every failure branch, run without interruption is one `Place`. |
| Clients.AloneIsCancel | src/command.c:458-504 | The same for `cancel_order`. |
| Clients.SerialScheduleIsPlace | src/server.c:59 | A schedule that gives one client all the turns is a serial step of the exchange. |
| Clients.FillingKeeps | src/db.c:573-616 | Writing back a stale match keeps every term of the row and a quantity between one and what was posted, and never revives a deleted row. |
| Clients.NextKeepsWorld | src/server.c:59 | Every statement of every client keeps the table invariant and what every other client's local copies rely on. |
| Clients.NobodyWaits | src/server.c:59 | At every point every client can run its next statement, and a command ends within thirteen. |
| Clients.SearchFindsOldest | src/db.c:413-476 | In every interleaving a search answers from the rows of that moment: none that fits, or an oldest of those that fit. |
| Clients.ScheduleKeepsWorld | src/server.c:59 | The same over every schedule; issued IDs, users and archived rows are never lost. |
| Clients.IssuedWhenPosted | src/db.c:148-172 | The record kept of an ID is the row as it was inserted. |
| Clients.OrdersKeepIdentity | src/command.c:177-181 | In every interleaving of any number of clients an order keeps item, side, price, owner and timestamp, its quantity stays between one and what was posted, and once gone it does not come back. |
| Clients.TradesCross | src/command.c:177-207 | In every interleaving, whatever a client settles crosses its own order: same item, opposite sides, different owners, within the limit, although the row may be stale. |
| Clients.LateFailures | src/command.c:160-504 | In every interleaving a statement ends a command with a failure exactly for one of four reasons: the first check fails, the match found is gone when it is read, the order may not rest or is no longer affordable in `insert_order`, or what is cancelled is not the user's open order. An unknown owner in `insert_order` never happens. |
| Clients.LateFailuresFromStart | src/command.c:160-504 | The same at every point of every schedule from the start of the server. |
| Interleaving.SerialRunIsSchedule | src/server.c:59 | Every serial run is one of the interleavings and ends with the same tables. |
| Interleaving.InterleavingBreaksLedger | src/command.c:458-504 | For every world with an offer in the book, a schedule of two commands after which the item ledger is off by the whole offer. |
| Interleaving.InStepFillsTwice | src/command.c:160-391 | For every order that one resting order can fill, two clients that send it at once both report success, while balances and book change as for one; the archive pairs are mixed up and the two fills exceed what was posted. |
| Flow.StatementMoves | src/command.c:160-504 | Any statement of any client, whatever ran in between, moves the balances and open orders of everyone or of one user, in any of the four coins, by what a trade, an order or a cancellation should do, plus the rounding, plus what is wrong with the copy it writes back. |
| Flow.ScheduleMoves | src/server.c:59 | The same added up over every schedule. |
| Flow.ScheduleRounds | src/command.c:210 | The roundings are none in DOGE, BTC and ETH, and in OMG at most one for each balance written. |
| Flow.ScheduleIsWhole | src/command.c:210 | At whole prices there are none. |
| Overlap.StatementKeepsCoinsExactlyWhen | src/command.c:160-504 | A statement keeps held + offered + in flight + taken exactly when nothing is wrong with its copy in that coin. |
| Overlap.ScheduleCoins | src/server.c:59 | Over every schedule, with no condition, held + offered + in flight + taken moves by what joins and by what stale copies add; taken is what the fills of the schedule take for buyers. |
| Overlap.CoinsKeptExactlyWhen | src/server.c:59 | From the start, once every command has ended: held + offered + taken by the fills = registered if and only if the stale copies add up to nothing. |
| Overlap.FreshKeepsCoins | src/server.c:59 | So it holds of every schedule without a stale write. |
| Overlap.ApartIsFresh | src/server.c:59 | Overlapping commands that never share a user or an order while under way make no stale write. |
| Overlap.ApartKeepsCoins | src/server.c:59 | So it holds of them; taken is again what the fills take, which `Pairing.ArchiveIsFills` reads from the archive. |
| Totals.FillTakesExactlyWhen | src/db.c:573-616 | A fill takes from the book exactly what it reports if and only if the row is there with the quantity the client read. |
| Totals.ScheduleTotals | src/command.c:248-259 | Over every schedule: left + filled + cancelled = posted + reported but not taken, order by order. |
| Totals.TotalsKeptExactlyWhen | src/command.c:248-259 | From the start, of every ID ever issued: left + filled + cancelled is the posted quantity if and only if the stale fills of it add up to nothing. |
| Pairing.PairedExactlyWhen | src/command.c:188-198 | Over every schedule, every archived match is followed by the row of the client that archived it if and only if no client archives a match while another is between its two rows. |
| Pairing.PairedFromStart | src/command.c:188-198 | The same from the start of the server. |
| Pairing.AuthorsOfRows | src/db.c:785-816 | Every row a schedule adds to the archive has one of the clients as its author. |
| Pairing.ArchiveFromStart | src/command.c:188-198 | If no rows mix, the archive is a sequence of proper trades up to one last row, and exactly that once every command has ended. |
| Pairing.ArchiveIsFills | src/command.c:188-259 | If no rows mix and every command has ended, any measure of trades adds up to the same over the archive as over the fills. |
| ScheduleLedgers.LedgerKeptExactlyWhen | src/server.c:59 | If no rows mix and every command has ended, the item ledger, read from the tables alone, is what was registered plus what stale copies added, and so holds if and only if they add up to nothing. |
| ScheduleLedgers.AuditKeptExactlyWhen | src/server.c:59 | The same for the audit of each user. |
| ScheduleLedgers.MoneyOfSchedule | src/server.c:59 | The same for the OMG ledger, to within one OMG per balance written, exactly at whole prices. |
| ScheduleLedgers.UserMoneyOfSchedule | src/server.c:59 | The same for the OMG of one user, to within one per write of that balance. |
| ScheduleLedgers.FreshKeepsLedgers | src/server.c:59 | Without a stale write all four hold, those in OMG at whole prices. |
| ScheduleLedgers.SerialRunIsOrderly | src/server.c:59 | Every serial run is a schedule of this kind: commands apart, no stale write, no mixed rows, everyone done. |
| ScheduleFloors.ScheduleStaysAbove | src/server.c:59 | At every point of a schedule without a stale write no balance is below minus what the user's resting orders were charged when they were paid for. |
| ScheduleFloors.FreshStaysAbove | src/server.c:59 | Once every command has ended, with the charges read from the archive: the floor of serial runs. |
| Passing.ApartOrdersPass | src/command.c:173-181 | Whenever two users can post orders that cross each other and nothing else, some schedule that keeps the commands apart ends with both in the book, which is crossed, and no trade. |
| Passing.SerialOrdersMeet | src/command.c:173-181 | In a serial run the second of the two always trades. |
| Witnesses.OrdersCanPass | src/server.c:59 | After a serial start, an offer and a bid of one DOGE at one price are posted past each other. |
| Witnesses.CoinsCanAppear | src/command.c:458-504 | From the start of the server: one offer cancelled by two clients at once, and there is one DOGE more than was registered. |
| Witnesses.OfferCanBeSoldTwice | src/command.c:160-270 | From the start of the server: an offer of one DOGE is sold twice, and the archive is not a sequence of trades. |
| StringArrays.CString | src/string_array.c:55-61 | A copy is the longest NUL-free beginning of at most the given size. |
| StringArrays.CopiesFillCapacity | src/string_array.c:47-48 | Doubling: what growth has moved so far is exactly the capacity it has added. |
| StringArrays.AppendsMoveFewStrings | src/string_array.c:46-66 | n appends to a fresh array of any capacity move fewer than 2n strings. |
| StringArrays.StringArray.constructor | src/string_array.c:13-21 | A fresh array is empty, with the sentinel in place. |
| StringArrays.StringArray.Resize | src/string_array.c:33-44 | Keeps the strings that fit, in order, and the sentinel; the capacity is the one asked for. |
| StringArrays.StringArray.AddString | src/string_array.c:46-66 | Appends the copy after the strings already there, growing a full array by doubling; the sentinel follows it. |
| Tokenizer.SpansAreWords | src/util.c:47-62 | What is found are whole words, each ended by whitespace, in order and apart. |
| Tokenizer.WordsAreSpanned | src/util.c:47-62 | Every whole word that whitespace ends is found. |
| Tokenizer.WordsAtSpans | src/util.c:51 | The tokens are the texts at those places, one for one. |
| Tokenizer.AllWordsFound | src/util.h:64-74 | All words are found, as documented, if and only if the line is empty or ends in whitespace. |
| Tokenizer.LastWordCanBeDropped | src/server.c:275-280 | The line `quit` without a newline, as `getline` gives it at the end of the input, has no words. |
| Tokenizer.TokenizeLine | src/util.c:42-64 | The pointer-and-length loop returns an array of exactly those words, in order, with its sentinel and the capacity doubling from 4 leaves; growing moved fewer than two strings per word. |
| Tokenizer.RoundTrip | src/util.c:42-64 | Any nonempty words of characters whose codes are not 9 to 13 or 32, written with any nonempty gaps of these six characters after them and any such gap in front, are given back. |
| Tokenizer.SeparatesExactlyWhen | src/util.c:47 | A character between two words separates them exactly when its code is 9 to 13 or 32. |
| Tokenizer.WordsFromLeft | src/util.c:42-64 | Reading the line from the left, gathering one word at a time, gives the same words. |

## Left out

- BuyCommand: assumes a positive quantity, a price that is not negative, and an order that says buy; the server parses quantity and price with `strtol` and `strtod` and does not check them.
- SellCommand: assumes the same, with an order that says sell.
- BuyFrom: the remaining quantity and the timestamp that `buy` leaves in the caller's order are not returned, because the server discards them.
- Trunc: prices are exact reals and balances unbounded integers, so IEEE 754 rounding, NaN, infinities and 32-bit overflow are not modelled.
- AddString: a stored string is a value, so the two-step allocation of its characters, `free` and failing `malloc` are not modelled.
- Resize: slots between the last string and the new end are arbitrary, as after `realloc`; freeing the dropped strings is not modelled.
- TokenizeLine: the argument is the text before the terminating NUL, and `isspace` is that of the C locale.
- InsertUser: the username, password and name columns and the uniqueness of usernames are not modelled; a registration is one that succeeds.
- The database engine itself: statement preparation, busy timeouts, engine errors and foreign keys; each table operation is atomic and fails only for the reasons its SQL gives.
- Sockets, forking, prompts, login, printing and the `view`, `myOrders` and archive listings.
- Time priority, uncrossed books and refunds under interleaving; they are stated for serial runs.
