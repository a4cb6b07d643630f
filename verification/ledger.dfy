/** The paper-trading ledger (`PaperTrader`): one balance row per asset and a
    table of trades. The tables are the fields of a class; what each operation
    does to them is stated by a function on a `Book` value, and the ledger's
    properties are lemmas about those functions. */
module Ledger {
  import opened Wrappers
  import opened Seqs
  import opened Text

  datatype Status = Open | Closed

  /** One row of the `trades` table (timestamps are not modelled). */
  datatype Trade = Trade(
    id: string,
    ticker: string,
    entryPrice: real,
    amount: real,          // token units bought
    status: Status,
    exitPrice: real,
    pnl: real,
    pnlPct: real,
    confidence: real,
    notes: string,
    botId: Option<string>)

  /** Both tables as one value: the `portfolio` rows keyed by asset, and the
      `trades` rows in table order. */
  datatype Book = Book(balances: map<string, real>, trades: seq<Trade>)

  /** The USD row the store starts with. */
  const StartingUsd: real := 10000.0

  const TakeProfitReason: string := "Take Profit (+15%)"
  const StopLossReason: string := "Stop Loss (-10%)"

  /** `get_balance(asset)`: the stored balance, 0.0 when the asset has no row. */
  function BalanceOf(balances: map<string, real>, asset: string): (r: real)
    ensures asset in balances ==> r == balances[asset]
    ensures asset !in balances ==> r == 0.0
  {
    if asset in balances then balances[asset] else 0.0
  }

  /** `UPDATE portfolio SET balance=? WHERE asset='USD'`: touches nothing when
      the USD row is missing. */
  function SetUsd(balances: map<string, real>, v: real): (r: map<string, real>)
    ensures r.Keys == balances.Keys
    ensures "USD" in balances ==> r["USD"] == v
    ensures forall a :: a in balances && a != "USD" ==> r[a] == balances[a]
  {
    if "USD" in balances then balances["USD" := v] else balances
  }

  predicate IsOpen(t: Trade) {
    t.status == Open
  }

  /** `SELECT * FROM trades WHERE status='OPEN'`, in table order. */
  function OpenTrades(trades: seq<Trade>): (r: seq<Trade>)
    ensures forall t :: t in r <==> t in trades && t.status == Open
  {
    Filter(trades, IsOpen)
  }

  /** The cash locked in one trade at its entry price, when it is open. */
  function LockedIn(t: Trade): real {
    if t.status == Open then Proceeds(t, t.entryPrice) else 0.0
  }

  /** Sum of `amount * entry_price` over the open trades. */
  function OpenValue(trades: seq<Trade>): real {
    if trades == [] then 0.0
    else OpenValue(trades[..|trades| - 1]) + LockedIn(trades[|trades| - 1])
  }

  /** USD balance plus the open positions valued at their entry prices. */
  function Worth(b: Book): real {
    BalanceOf(b.balances, "USD") + OpenValue(b.trades)
  }

  /** The `id` column is the table's primary key. */
  predicate UniqueIds(trades: seq<Trade>) {
    forall i, j :: 0 <= i < j < |trades| ==> trades[i].id != trades[j].id
  }

  predicate IdTaken(trades: seq<Trade>, id: string) {
    exists i :: 0 <= i < |trades| && trades[i].id == id
  }

  /** The row `SELECT ... WHERE id=?` finds. */
  function IndexOf(trades: seq<Trade>, id: string): (r: Option<nat>)
    ensures r.Some? ==> r.value < |trades| && trades[r.value].id == id
    ensures r.None? <==> !IdTaken(trades, id)
  {
    if trades == [] then None
    else if trades[|trades| - 1].id == id then Some(|trades| - 1)
    else
      var r := IndexOf(trades[..|trades| - 1], id);
      assert forall i :: 0 <= i < |trades| - 1 ==> trades[..|trades| - 1][i] == trades[i];
      r
  }

  /** What `open_trade` does to the book, and what it returns. `storeAccepts` is
      whether the store takes a 12-value row into the `trades` table (the
      schema has 13 columns); an `id` already in the table is refused by the
      primary key. Both failures, like the division by a zero `price`, happen
      after the debit has been written, and the debit is kept. */
  function OpenTradeSpec(b: Book, ticker: string, price: real, amountUsd: real,
                         confidence: real, notes: string, id: string,
                         storeAccepts: bool): (Book, bool)
  {
    var usd := BalanceOf(b.balances, "USD");
    if usd < amountUsd then (b, false)
    else
      var debited := Book(SetUsd(b.balances, usd - amountUsd), b.trades);
      if price == 0.0 then (debited, false)
      else if !storeAccepts || IdTaken(b.trades, id) then (debited, false)
      else
        var t := Trade(id, ticker, price, amountUsd / price, Open, 0.0, 0.0, 0.0,
                       confidence, notes, None);
        (Book(debited.balances, b.trades + [t]), true)
  }

  /** `usd_returned`: what selling the trade's tokens at `price` yields. */
  function Proceeds(t: Trade, price: real): real {
    t.amount * price
  }

  /** The trade `close_trade(id, exit_price, notes)` leaves behind. */
  function ClosedTrade(t: Trade, exitPrice: real, notes: string): Trade
    requires t.entryPrice != 0.0
  {
    t.(status := Closed, exitPrice := exitPrice,
       pnl := Proceeds(t, exitPrice) - Proceeds(t, t.entryPrice),
       pnlPct := (exitPrice - t.entryPrice) / t.entryPrice * 100.0,
       notes := t.notes + " - " + notes)
  }

  /** What `close_trade` does to the book. An unknown id changes nothing; a zero
      entry price raises (and is caught) before anything is written; otherwise
      the row is closed and USD is credited with `amount * exit_price`,
      whatever the row's status was. */
  function CloseTradeSpec(b: Book, id: string, exitPrice: real, notes: string): Book {
    var found := IndexOf(b.trades, id);
    if found.None? then b
    else
      var i := found.value;
      var t := b.trades[i];
      if t.entryPrice == 0.0 then b
      else
        Book(SetUsd(b.balances, BalanceOf(b.balances, "USD") + Proceeds(t, exitPrice)),
             b.trades[i := ClosedTrade(t, exitPrice, notes)])
  }

  /** The price `check_trades` uses for a ticker: the `$`-less upper-cased key
      first, then the raw ticker; a missing or zero price is no price. */
  function PriceFor(prices: map<string, real>, ticker: string): (r: Option<real>)
    ensures r.Some? ==> r.value != 0.0
    ensures var clean := Upper(RemoveChar(ticker, '$'));
            clean in prices && prices[clean] != 0.0 ==> r == Some(prices[clean])
    ensures var clean := Upper(RemoveChar(ticker, '$'));
            r.Some? && !(clean in prices && prices[clean] != 0.0) ==>
              ticker in prices && r == Some(prices[ticker])
    ensures r.None? <==>
      (Upper(RemoveChar(ticker, '$')) !in prices || prices[Upper(RemoveChar(ticker, '$'))] == 0.0) &&
      (ticker !in prices || prices[ticker] == 0.0)
  {
    var clean := Upper(RemoveChar(ticker, '$'));
    if clean in prices && prices[clean] != 0.0 then Some(prices[clean])
    else if ticker in prices && prices[ticker] != 0.0 then Some(prices[ticker])
    else None
  }

  /** The take-profit / stop-loss rule: the reason to close, if any. */
  function ExitReason(entry: real, current: real): (r: Option<string>)
    requires entry != 0.0
  {
    var move := (current - entry) / entry;
    if move >= 0.15 then Some(TakeProfitReason)
    else if move <= -0.10 then Some(StopLossReason)
    else None
  }

  /** What `check_trades` does with one trade of its snapshot. The second
      component is true when a zero entry price raised `ZeroDivisionError`. */
  function CheckOne(b: Book, t: Trade, prices: map<string, real>): (Book, bool) {
    match PriceFor(prices, t.ticker)
    case None => (b, false)
    case Some(p) =>
      if t.entryPrice == 0.0 then (b, true)
      else match ExitReason(t.entryPrice, p)
        case None => (b, false)
        case Some(reason) => (CloseTradeSpec(b, t.id, p, reason), false)
  }

  /** What `check_trades` does, trade by trade over the snapshot `todo` of open
      trades. The second component is true when the exception raised for a zero
      entry price, which nothing catches, stopped the scan. */
  function CheckSpec(b: Book, todo: seq<Trade>, prices: map<string, real>): (Book, bool)
    decreases |todo|
  {
    if todo == [] then (b, false)
    else
      var (b1, raised) := CheckOne(b, todo[0], prices);
      if raised then (b1, true) else CheckSpec(b1, todo[1..], prices)
  }

  /** One step of the scan in `check_trades`, for the loop's invariant. */
  lemma CheckSpecStep(b0: Book, b: Book, b1: Book, todo: seq<Trade>, k: nat, prices: map<string, real>)
    requires k < |todo|
    requires CheckSpec(b, todo[k..], prices) == CheckSpec(b0, todo, prices)
    requires CheckOne(b, todo[k], prices) == (b1, false)
    ensures CheckSpec(b1, todo[k + 1..], prices) == CheckSpec(b0, todo, prices)
  {
    assert todo[k..][0] == todo[k] && todo[k..][1..] == todo[k + 1..];
  }

  class PaperTrader {
    var balances: map<string, real>
    var trades: seq<Trade>

    ghost predicate Valid()
      reads this
    {
      UniqueIds(trades)
    }

    function State(): Book
      reads this
    {
      Book(balances, trades)
    }

    /** A fresh store: the USD row holds the starting amount and no trade exists. */
    constructor ()
      ensures Valid()
      ensures balances == map["USD" := StartingUsd] && trades == []
    {
      balances := map["USD" := StartingUsd];
      trades := [];
    }

    /** `get_balance(asset)`. */
    function GetBalance(asset: string): (r: real)
      reads this
      ensures asset in balances ==> r == balances[asset]
      ensures asset !in balances ==> r == 0.0
    {
      BalanceOf(balances, asset)
    }

    /** `get_active_trades()`: the open rows, in table order. */
    function GetActiveTrades(): (r: seq<Trade>)
      reads this
      ensures forall t :: t in r <==> t in trades && t.status == Open
    {
      OpenTrades(trades)
    }

    /** `open_trade`: check funds, debit USD, then insert the trade. */
    method OpenTrade(ticker: string, price: real, amountUsd: real, confidence: real,
                     notes: string, id: string, storeAccepts: bool) returns (ok: bool)
      requires Valid()
      modifies this
      ensures Valid()
      ensures (State(), ok) ==
              OpenTradeSpec(old(State()), ticker, price, amountUsd, confidence, notes, id, storeAccepts)
    {
      var usd := GetBalance("USD");
      if usd < amountUsd {
        return false;
      }
      balances := SetUsd(balances, usd - amountUsd);
      if price == 0.0 {
        return false;  // the division below raises; the debit stays
      }
      var amountTokens := amountUsd / price;
      if !storeAccepts || IdTaken(trades, id) {
        return false;  // the insert raises; the debit stays
      }
      trades := trades + [Trade(id, ticker, price, amountTokens, Open, 0.0, 0.0, 0.0,
                                confidence, notes, None)];
      ok := true;
    }

    /** `close_trade`. */
    method CloseTrade(id: string, exitPrice: real, notes: string)
      requires Valid()
      modifies this
      ensures Valid()
      ensures State() == CloseTradeSpec(old(State()), id, exitPrice, notes)
    {
      var found := IndexOf(trades, id);
      if found.None? {
        return;
      }
      var i := found.value;
      var t := trades[i];
      if t.entryPrice == 0.0 {
        return;  // computing pnl_pct raises before anything is written
      }
      var usdReturned := Proceeds(t, exitPrice);
      trades := trades[i := ClosedTrade(t, exitPrice, notes)];
      var current := GetBalance("USD");
      balances := SetUsd(balances, current + usdReturned);
      assert forall j :: 0 <= j < |trades| ==> trades[j].id == old(trades)[j].id;
    }

    /** One pass of the loop in `check_trades`: look up the trade's price and
        close it when it crossed a threshold. Returns whether the pnl
        computation raised for a zero entry price. */
    method CheckTrade(t: Trade, prices: map<string, real>) returns (raised: bool)
      requires Valid()
      modifies this
      ensures Valid()
      ensures (State(), raised) == CheckOne(old(State()), t, prices)
    {
      var price := PriceFor(prices, t.ticker);
      if price.None? {
        return false;
      }
      if t.entryPrice == 0.0 {
        return true;  // ZeroDivisionError
      }
      var reason := ExitReason(t.entryPrice, price.value);
      if reason.Some? {
        CloseTrade(t.id, price.value, reason.value);
      }
      raised := false;
    }

    /** `check_trades(current_prices)`. Returns whether a zero entry price
        aborted the scan with an exception. */
    method CheckTrades(prices: map<string, real>) returns (aborted: bool)
      requires Valid()
      modifies this
      ensures Valid()
      ensures (State(), aborted) == CheckSpec(old(State()), OpenTrades(old(trades)), prices)
    {
      var todo := OpenTrades(trades);
      var k := 0;
      while k < |todo|
        invariant 0 <= k <= |todo|
        invariant Valid()
        invariant CheckSpec(State(), todo[k..], prices) == CheckSpec(old(State()), todo, prices)
      {
        ghost var before := State();
        var raised := CheckTrade(todo[k], prices);
        if raised {
          assert todo[k..][0] == todo[k];
          return true;  // the exception escapes check_trades
        }
        CheckSpecStep(old(State()), before, State(), todo, k, prices);
        k := k + 1;
      }
      aborted := false;
    }
  }
}

/** What the ledger's operations guarantee, and where the source leaves gaps. */
module LedgerFacts {
  import opened Wrappers
  import opened Seqs
  import opened Ledger

  lemma OpenValueAppend(trades: seq<Trade>, t: Trade)
    ensures OpenValue(trades + [t]) == OpenValue(trades) + LockedIn(t)
  {
    assert (trades + [t])[..|trades|] == trades;
  }

  /** Replacing one row changes the open value by the difference of the two
      rows' locked-in cash. */
  lemma {:induction false} OpenValueUpdate(trades: seq<Trade>, i: nat, t: Trade)
    requires i < |trades|
    ensures OpenValue(trades[i := t]) == OpenValue(trades) - LockedIn(trades[i]) + LockedIn(t)
    decreases |trades|
  {
    var n := |trades| - 1;
    var updated := trades[i := t];
    if i < n {
      assert updated[..n] == trades[..n][i := t];
      OpenValueUpdate(trades[..n], i, t);
    } else {
      assert updated[..n] == trades[..n];
    }
  }

  /** `open_trade` refuses, and changes nothing, exactly when USD is short;
      a balance equal to the amount is enough. It succeeds exactly when the
      price is non-zero and the store takes the new row. */
  lemma OpenTradeOutcome(b: Book, ticker: string, price: real, amountUsd: real,
                         confidence: real, notes: string, id: string, storeAccepts: bool)
    ensures var (after, ok) := OpenTradeSpec(b, ticker, price, amountUsd, confidence, notes, id, storeAccepts);
            var usd := BalanceOf(b.balances, "USD");
            (usd < amountUsd ==> after == b && !ok) &&
            (ok <==> usd >= amountUsd && price != 0.0 && storeAccepts && !IdTaken(b.trades, id)) &&
            (usd >= amountUsd && "USD" in b.balances ==> BalanceOf(after.balances, "USD") == usd - amountUsd) &&
            after.balances.Keys == b.balances.Keys
  {
  }

  /** A successful `open_trade` appends one open row at the given price, with
      `amount = amount_usd / price` and zero exit price and PnL, and moves cash
      into the position without creating or destroying value. */
  lemma OpenConservesWorth(b: Book, ticker: string, price: real, amountUsd: real,
                           confidence: real, notes: string, id: string, storeAccepts: bool)
    requires "USD" in b.balances
    ensures var (after, ok) := OpenTradeSpec(b, ticker, price, amountUsd, confidence, notes, id, storeAccepts);
            ok ==> |after.trades| == |b.trades| + 1 && after.trades[..|b.trades|] == b.trades &&
                   var t := after.trades[|b.trades|];
                   t.id == id && t.ticker == ticker && t.status == Open && t.entryPrice == price &&
                   t.amount * price == amountUsd && t.exitPrice == 0.0 && t.pnl == 0.0 &&
                   t.pnlPct == 0.0 && t.botId == None &&
                   Worth(after) == Worth(b)
  {
    var (after, ok) := OpenTradeSpec(b, ticker, price, amountUsd, confidence, notes, id, storeAccepts);
    if ok {
      var t := after.trades[|b.trades|];
      assert after.trades == b.trades + [t];
      OpenValueAppend(b.trades, t);
      assert t.amount * price == amountUsd;
      assert LockedIn(t) == amountUsd;
    }
  }

  /** The gap the source leaves: once funds are sufficient the debit is written
      first, so a zero price or a refused insert returns false with the cash
      gone and no position to show for it. */
  lemma FailedOpenKeepsDebit(b: Book, ticker: string, price: real, amountUsd: real,
                             confidence: real, notes: string, id: string, storeAccepts: bool)
    requires "USD" in b.balances
    requires BalanceOf(b.balances, "USD") >= amountUsd
    requires price == 0.0 || !storeAccepts || IdTaken(b.trades, id)
    ensures var (after, ok) := OpenTradeSpec(b, ticker, price, amountUsd, confidence, notes, id, storeAccepts);
            !ok && after.trades == b.trades &&
            Worth(after) == Worth(b) - amountUsd
  {
  }

  /** `open_trade` never takes the USD balance below zero. */
  lemma OpenNeverOverdraws(b: Book, ticker: string, price: real, amountUsd: real,
                           confidence: real, notes: string, id: string, storeAccepts: bool)
    requires BalanceOf(b.balances, "USD") >= 0.0
    ensures BalanceOf(OpenTradeSpec(b, ticker, price, amountUsd, confidence, notes, id, storeAccepts).0.balances, "USD") >= 0.0
  {
  }

  /** Closing an open trade marks it closed with the exit price, PnL
      `amount*exit - amount*entry` and percentage `(exit-entry)/entry*100`,
      appends the notes, credits USD with `amount*exit`, and changes the
      ledger's worth by exactly the realized PnL. */
  lemma CloseRealizesPnl(b: Book, id: string, exitPrice: real, notes: string)
    requires "USD" in b.balances && UniqueIds(b.trades)
    requires IndexOf(b.trades, id).Some?
    requires var t := b.trades[IndexOf(b.trades, id).value];
             t.status == Open && t.entryPrice != 0.0
    ensures var i := IndexOf(b.trades, id).value;
            var t, after := b.trades[i], CloseTradeSpec(b, id, exitPrice, notes);
            var c := after.trades[i];
            |after.trades| == |b.trades| &&
            (forall j :: 0 <= j < |b.trades| && j != i ==> after.trades[j] == b.trades[j]) &&
            c.status == Closed && c.exitPrice == exitPrice &&
            c.pnl == t.amount * exitPrice - t.amount * t.entryPrice &&
            c.pnlPct == (exitPrice - t.entryPrice) / t.entryPrice * 100.0 &&
            c.notes == t.notes + " - " + notes &&
            BalanceOf(after.balances, "USD") == BalanceOf(b.balances, "USD") + t.amount * exitPrice &&
            Worth(after) == Worth(b) + c.pnl
  {
    var i := IndexOf(b.trades, id).value;
    var t := b.trades[i];
    var c := ClosedTrade(t, exitPrice, notes);
    OpenValueUpdate(b.trades, i, c);
  }

  /** Closing an unknown id changes nothing. */
  lemma CloseUnknownIsNoop(b: Book, id: string, exitPrice: real, notes: string)
    requires !IdTaken(b.trades, id)
    ensures CloseTradeSpec(b, id, exitPrice, notes) == b
  {
  }

  /** The gap the source leaves: `close_trade` does not look at the status, so
      closing the same trade again credits USD a second time and inflates the
      ledger's worth by the proceeds. */
  lemma CloseTwiceCreditsTwice(b: Book, id: string, exit1: real, exit2: real, n1: string, n2: string)
    requires "USD" in b.balances
    requires IndexOf(b.trades, id).Some?
    requires b.trades[IndexOf(b.trades, id).value].entryPrice != 0.0
    ensures var t := b.trades[IndexOf(b.trades, id).value];
            var once := CloseTradeSpec(b, id, exit1, n1);
            var twice := CloseTradeSpec(once, id, exit2, n2);
            BalanceOf(twice.balances, "USD") ==
              BalanceOf(b.balances, "USD") + t.amount * exit1 + t.amount * exit2 &&
            Worth(twice) == Worth(once) + t.amount * exit2
  {
    var i := IndexOf(b.trades, id).value;
    var t := b.trades[i];
    var once := CloseTradeSpec(b, id, exit1, n1);
    var c1 := ClosedTrade(t, exit1, n1);
    assert once.trades == b.trades[i := c1];
    assert IndexOf(once.trades, id) == IndexOf(b.trades, id) by {
      IndexOfAfterUpdate(b.trades, i, c1, id);
    }
    var c2 := ClosedTrade(c1, exit2, n2);
    OpenValueUpdate(once.trades, i, c2);
  }

  /** Rewriting a row without changing its id does not move where an id is found. */
  lemma {:induction false} IndexOfAfterUpdate(trades: seq<Trade>, i: nat, t: Trade, id: string)
    requires i < |trades| && t.id == trades[i].id
    ensures IndexOf(trades[i := t], id) == IndexOf(trades, id)
    decreases |trades|
  {
    var n := |trades| - 1;
    if i < n {
      assert trades[i := t][..n] == trades[..n][i := t];
      IndexOfAfterUpdate(trades[..n], i, t, id);
    } else {
      assert trades[i := t][..n] == trades[..n];
    }
  }

  /** With a positive entry price the exit rule is: take profit at or above
      115% of the entry, stop loss at or below 90% of it, and keep the trade
      open strictly in between. */
  lemma ExitThresholds(entry: real, current: real)
    requires entry > 0.0
    ensures ExitReason(entry, current) == Some(TakeProfitReason) <==> current >= 1.15 * entry
    ensures ExitReason(entry, current) == Some(StopLossReason) <==> current <= 0.90 * entry
    ensures ExitReason(entry, current) == None <==> 0.90 * entry < current < 1.15 * entry
  {
    QuotientThreshold(current - entry, entry, 0.15);
    QuotientThreshold(current - entry, entry, -0.10);
    assert TakeProfitReason[0] != StopLossReason[0];
  }

  /** Comparing a quotient by a positive divisor with a threshold. */
  lemma QuotientThreshold(x: real, e: real, c: real)
    requires e > 0.0
    ensures x / e >= c <==> x >= c * e
    ensures x / e <= c <==> x <= c * e
  {
    var q := x / e;
    assert q * e == x;
    if q >= c { assert (q - c) * e >= 0.0; }
    if q <= c { assert (c - q) * e >= 0.0; }
    if x >= c * e { assert (q - c) * e >= 0.0; }
    if x <= c * e { assert (c - q) * e >= 0.0; }
  }

  function Ids(ts: seq<Trade>): set<string> {
    set t | t in ts :: t.id
  }

  /** `close_trade(id, ...)` rewrites at most the row carrying `id`. */
  lemma CloseTouchesOnlyItsRow(b: Book, id: string, exitPrice: real, notes: string)
    ensures var after := CloseTradeSpec(b, id, exitPrice, notes);
            |after.trades| == |b.trades| &&
            forall j :: 0 <= j < |b.trades| ==>
              after.trades[j].id == b.trades[j].id &&
              (b.trades[j].id != id ==> after.trades[j] == b.trades[j])
  {
  }

  /** `check_trades` rewrites only rows whose id is in its snapshot. */
  lemma {:induction false} CheckTouchesOnlySnapshot(b: Book, todo: seq<Trade>, prices: map<string, real>)
    ensures var after := CheckSpec(b, todo, prices).0;
            |after.trades| == |b.trades| &&
            forall j :: 0 <= j < |b.trades| ==>
              after.trades[j].id == b.trades[j].id &&
              (b.trades[j].id !in Ids(todo) ==> after.trades[j] == b.trades[j])
    decreases |todo|
  {
    if todo != [] {
      var t := todo[0];
      var (b1, raised) := CheckOne(b, t, prices);
      assert |b1.trades| == |b.trades| &&
             forall j :: 0 <= j < |b.trades| ==>
               b1.trades[j].id == b.trades[j].id &&
               (b.trades[j].id != t.id ==> b1.trades[j] == b.trades[j]) by {
        match PriceFor(prices, t.ticker)
        case None =>
        case Some(p) =>
          if t.entryPrice != 0.0 && ExitReason(t.entryPrice, p).Some? {
            CloseTouchesOnlyItsRow(b, t.id, p, ExitReason(t.entryPrice, p).value);
          }
      }
      assert t.id in Ids(todo);
      assert Ids(todo[1..]) <= Ids(todo) by {
        forall x | x in todo[1..] ensures x in todo { }
      }
      if !raised {
        CheckTouchesOnlySnapshot(b1, todo[1..], prices);
      }
    }
  }

  /** `check_trades` looks only at open trades: every closed row comes out
      exactly as it went in, and the table keeps its rows and ids. */
  lemma CheckLeavesClosedTrades(b: Book, prices: map<string, real>)
    requires UniqueIds(b.trades)
    ensures var after := CheckSpec(b, OpenTrades(b.trades), prices).0;
            |after.trades| == |b.trades| &&
            forall j :: 0 <= j < |b.trades| ==>
              after.trades[j].id == b.trades[j].id &&
              (b.trades[j].status == Closed ==> after.trades[j] == b.trades[j])
  {
    var todo := OpenTrades(b.trades);
    CheckTouchesOnlySnapshot(b, todo, prices);
    forall j | 0 <= j < |b.trades| && b.trades[j].status == Closed
      ensures b.trades[j].id !in Ids(todo)
    {
      forall t | t in todo ensures t.id != b.trades[j].id {
        var k :| 0 <= k < |b.trades| && b.trades[k] == t;
        assert k != j;
      }
    }
  }

  /** What the scan leaves of one open row that is in its snapshot: closed at
      the current price when the price crossed a threshold, unchanged when the
      price is missing or between the thresholds. */
  function CheckedRow(t: Trade, prices: map<string, real>): Trade {
    match PriceFor(prices, t.ticker)
    case None => t
    case Some(p) =>
      if t.entryPrice == 0.0 then t
      else match ExitReason(t.entryPrice, p)
        case None => t
        case Some(reason) => ClosedTrade(t, p, reason)
  }

  /** With unique ids, `SELECT ... WHERE id=?` finds the row carrying that id. */
  lemma IndexOfUnique(trades: seq<Trade>, j: nat)
    requires UniqueIds(trades) && j < |trades|
    ensures IndexOf(trades, trades[j].id) == Some(j)
  {
    assert IdTaken(trades, trades[j].id);
  }

  /** The snapshot of open trades keeps the table's unique ids. */
  lemma {:induction false} FilterKeepsUniqueIds(trades: seq<Trade>, keep: Trade -> bool)
    requires UniqueIds(trades)
    ensures UniqueIds(Filter(trades, keep))
  {
    if trades != [] {
      var rest := Filter(trades[1..], keep);
      FilterKeepsUniqueIds(trades[1..], keep);
      forall t | t in rest ensures t.id != trades[0].id {
        var k :| 0 <= k < |trades[1..]| && trades[1..][k] == t;
        assert trades[k + 1] == t;
      }
      var r := Filter(trades, keep);
      if keep(trades[0]) {
        forall i, j | 0 <= i < j < |r| ensures r[i].id != r[j].id {
          assert r[j] == rest[j - 1];
          if i > 0 { assert r[i] == rest[i - 1]; }
          else { assert r[j] in rest; }
        }
      } else {
        assert r == rest;
      }
    }
  }

  /** One step of the scan on the snapshot trade that is row `j` itself. */
  lemma CheckOneOwnRow(b: Book, j: nat, prices: map<string, real>)
    requires UniqueIds(b.trades) && j < |b.trades|
    requires !CheckOne(b, b.trades[j], prices).1
    ensures CheckOne(b, b.trades[j], prices).0.trades[j] == CheckedRow(b.trades[j], prices)
  {
    IndexOfUnique(b.trades, j);
  }

  /** One step of the scan on another trade leaves row `j` and all ids alone. */
  lemma CheckOneOtherRow(b: Book, t: Trade, j: nat, prices: map<string, real>)
    requires j < |b.trades| && t.id != b.trades[j].id
    ensures var b1 := CheckOne(b, t, prices).0;
            |b1.trades| == |b.trades| && b1.trades[j] == b.trades[j] &&
            forall i :: 0 <= i < |b.trades| ==> b1.trades[i].id == b.trades[i].id
  {
    match PriceFor(prices, t.ticker)
    case None =>
    case Some(p) =>
      if t.entryPrice != 0.0 && ExitReason(t.entryPrice, p).Some? {
        CloseTouchesOnlyItsRow(b, t.id, p, ExitReason(t.entryPrice, p).value);
      }
  }

  /** A scan that does not raise leaves a snapshot row as `CheckedRow` says. */
  lemma {:induction false} CheckRow(b: Book, todo: seq<Trade>, k: nat, j: nat, prices: map<string, real>)
    requires UniqueIds(b.trades) && UniqueIds(todo)
    requires k < |todo| && j < |b.trades| && todo[k] == b.trades[j]
    requires !CheckSpec(b, todo, prices).1
    ensures |CheckSpec(b, todo, prices).0.trades| == |b.trades|
    ensures CheckSpec(b, todo, prices).0.trades[j] == CheckedRow(b.trades[j], prices)
    decreases |todo|
  {
    var (b1, raised) := CheckOne(b, todo[0], prices);
    assert !raised;
    assert CheckSpec(b, todo, prices) == CheckSpec(b1, todo[1..], prices);
    if k == 0 {
      CheckOneOwnRow(b, j, prices);
      CheckTouchesOnlySnapshot(b1, todo[1..], prices);
      forall x | x in todo[1..] ensures x.id != b.trades[j].id {
        var m :| 0 <= m < |todo[1..]| && todo[1..][m] == x;
        assert todo[m + 1] == x;
      }
      assert b1.trades[j].id == b.trades[j].id by {
        CheckOneOwnRowId(b, j, prices);
      }
    } else {
      assert todo[0].id != todo[k].id;
      CheckOneOtherRow(b, todo[0], j, prices);
      assert UniqueIds(b1.trades);
      assert UniqueIds(todo[1..]);
      assert todo[1..][k - 1] == b1.trades[j];
      CheckRow(b1, todo[1..], k - 1, j, prices);
    }
  }

  /** Closing row `j` keeps its id. */
  lemma CheckOneOwnRowId(b: Book, j: nat, prices: map<string, real>)
    requires j < |b.trades|
    ensures var b1 := CheckOne(b, b.trades[j], prices).0;
            |b1.trades| == |b.trades| && b1.trades[j].id == b.trades[j].id
  {
    var t := b.trades[j];
    match PriceFor(prices, t.ticker)
    case None =>
    case Some(p) =>
      if t.entryPrice != 0.0 && ExitReason(t.entryPrice, p).Some? {
        CloseTouchesOnlyItsRow(b, t.id, p, ExitReason(t.entryPrice, p).value);
      }
  }

  /** `check_trades` closes an open position whose price crossed +15% (take
      profit) or -10% (stop loss) at that price, and leaves it open when the
      price is strictly between the two or missing. */
  lemma CheckClosesCrossers(b: Book, prices: map<string, real>, j: nat)
    requires UniqueIds(b.trades) && j < |b.trades| && b.trades[j].status == Open
    requires b.trades[j].entryPrice > 0.0
    requires !CheckSpec(b, OpenTrades(b.trades), prices).1
    ensures var t, after := b.trades[j], CheckSpec(b, OpenTrades(b.trades), prices).0;
            |after.trades| == |b.trades| &&
            (PriceFor(prices, t.ticker).None? ==> after.trades[j] == t) &&
            (PriceFor(prices, t.ticker).Some? ==>
              var p := PriceFor(prices, t.ticker).value;
              (p >= 1.15 * t.entryPrice ==> after.trades[j] == ClosedTrade(t, p, TakeProfitReason)) &&
              (p <= 0.90 * t.entryPrice ==> after.trades[j] == ClosedTrade(t, p, StopLossReason)) &&
              (0.90 * t.entryPrice < p < 1.15 * t.entryPrice ==> after.trades[j] == t))
  {
    var t := b.trades[j];
    var todo := OpenTrades(b.trades);
    FilterKeepsUniqueIds(b.trades, IsOpen);
    assert t in todo;
    var k :| 0 <= k < |todo| && todo[k] == t;
    CheckRow(b, todo, k, j, prices);
    if PriceFor(prices, t.ticker).Some? {
      ExitThresholds(t.entryPrice, PriceFor(prices, t.ticker).value);
    }
  }

  /** Buying 1000 USD of a token at 10 and closing at 11.5 realizes a PnL of
      150 (15%) and credits 1150 to the post-open balance. */
  lemma OpenThenCloseExample()
    ensures var b0 := Book(map["USD" := StartingUsd], []);
            var (b1, ok) := OpenTradeSpec(b0, "X", 10.0, 1000.0, 80.0, "", "X_1", true);
            var b2 := CloseTradeSpec(b1, "X_1", 11.5, "");
            ok && b2.trades[0].status == Closed &&
            b2.trades[0].pnl == 150.0 && b2.trades[0].pnlPct == 15.0 &&
            BalanceOf(b1.balances, "USD") == 9000.0 &&
            BalanceOf(b2.balances, "USD") == BalanceOf(b1.balances, "USD") + 1150.0
  {
    var b0 := Book(map["USD" := StartingUsd], []);
    var t := Trade("X_1", "X", 10.0, 100.0, Open, 0.0, 0.0, 0.0, 80.0, "", None);
    var b1 := Book(map["USD" := 9000.0], [t]);
    assert 1000.0 / 10.0 == 100.0;
    assert !IdTaken(b0.trades, "X_1");
    assert BalanceOf(b0.balances, "USD") == 10000.0;
    assert SetUsd(b0.balances, 10000.0 - 1000.0) == map["USD" := 9000.0];
    assert b0.trades + [t] == [t];
    assert OpenTradeSpec(b0, "X", 10.0, 1000.0, 80.0, "", "X_1", true) == (b1, true);
    assert IndexOf(b1.trades, "X_1") == Some(0);
    assert Proceeds(t, 11.5) == 1150.0;
    assert Proceeds(t, 10.0) == 1000.0;
    assert (11.5 - 10.0) / 10.0 * 100.0 == 15.0;
  }

  /** With a balance of 10000, a 12000 USD trade is refused and nothing moves. */
  lemma InsufficientFundsExample(ticker: string, price: real, id: string, accepts: bool)
    ensures var b0 := Book(map["USD" := StartingUsd], []);
            OpenTradeSpec(b0, ticker, price, 12000.0, 0.0, "", id, accepts) == (b0, false)
  {
  }
}
