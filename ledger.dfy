/*
 * The portfolio ledger of the stock dashboard: a map from ticker symbol to
 * a holding (share count and unit price). Adding validates the typed input,
 * needs a fetched spot price, and either raises the share count of a held
 * symbol (keeping the price stored when the holding was created) or inserts a new
 * holding. Deleting rejects unknown symbols and oversized requests, lowers
 * the share count and drops the holding once it reaches zero. After each
 * successful change the table rows and the total value are recomputed.
 */
module Ledger {

  datatype Option<T> = None | Some(value: T)

  /** One holding: the share count and the unit price stored with it. */
  datatype Entry = Entry(shares: nat, price: real)

  type Portfolio = map<string, Entry>

  /** What an add or delete reports to the user. */
  datatype Status = Done | InvalidInput | PriceUnavailable | NotFound | NotEnoughShares

  /** The status of an operation together with the portfolio it leaves behind. */
  datatype Transition = Transition(status: Status, portfolio: Portfolio)

  /** One line of the portfolio table. */
  datatype Row = Row(symbol: string, shares: nat, price: real, total: real)

  // ---------------------------------------------------------------------
  // Input validation: a non-empty symbol and a share text of ASCII digits
  // ---------------------------------------------------------------------

  predicate IsDigit(c: char)
  {
    '0' <= c <= '9'
  }

  predicate AllDigits(s: string)
  {
    forall i :: 0 <= i < |s| ==> IsDigit(s[i])
  }

  /** A non-empty text made only of digits (an empty text is not all digits). */
  predicate IsDigits(s: string)
  {
    |s| > 0 && AllDigits(s)
  }

  /**
   * The number a digit text denotes, read left to right in base 10. It is
   * zero exactly when every digit is '0', so "0" and "000" both give zero.
   */
  function DigitsValue(s: string): (n: nat)
    requires AllDigits(s)
    ensures n == 0 <==> forall i :: 0 <= i < |s| ==> s[i] == '0'
    decreases |s|
  {
    if s == [] then 0
    else 10 * DigitsValue(s[..|s| - 1]) + (s[|s| - 1] as int - '0' as int)
  }

  function DigitChar(d: nat): (c: char)
    requires d < 10
    ensures IsDigit(c) && c as int - '0' as int == d
  {
    ('0' as int + d) as char
  }

  /** The canonical decimal text of a share count, without leading zeros. */
  function DecimalText(n: nat): (s: string)
    ensures IsDigits(s)
    decreases n
  {
    if n < 10 then [DigitChar(n)] else DecimalText(n / 10) + [DigitChar(n % 10)]
  }

  /** Every share count can be typed: its decimal text passes validation and parses back to it. */
  lemma {:induction false} DecimalTextParses(n: nat)
    ensures IsDigits(DecimalText(n)) && DigitsValue(DecimalText(n)) == n
    decreases n
  {
    var s := DecimalText(n);
    if n >= 10 {
      DecimalTextParses(n / 10);
      assert s[..|s| - 1] == DecimalText(n / 10);
    } else {
      assert s[..|s| - 1] == [];
    }
  }

  /**
   * The symbol is non-empty and the share text is all digits: an empty text,
   * a sign, a decimal point or any other non-digit character rejects it.
   */
  function ValidInput(symbol: string, sharesText: string): (ok: bool)
    ensures ok ==> symbol != "" && |sharesText| > 0 && AllDigits(sharesText)
    ensures symbol == "" || sharesText == "" ==> !ok
    ensures (exists i :: 0 <= i < |sharesText| && !IsDigit(sharesText[i])) ==> !ok
  {
    symbol != "" && IsDigits(sharesText)
  }

  // ---------------------------------------------------------------------
  // Add and delete as transitions of the portfolio
  // ---------------------------------------------------------------------

  /**
   * Adding shares: invalid input and a failed price fetch change nothing; a
   * held symbol gains exactly the parsed count and keeps its stored price; a
   * new symbol is inserted with the fetched price; every other holding stays.
   */
  function AddStock(p: Portfolio, symbol: string, sharesText: string, fetched: Option<real>): (r: Transition)
    ensures !ValidInput(symbol, sharesText) ==> r == Transition(InvalidInput, p)
    ensures ValidInput(symbol, sharesText) && fetched.None? ==> r == Transition(PriceUnavailable, p)
    ensures r.status == Done <==> ValidInput(symbol, sharesText) && fetched.Some?
    ensures r.status == Done ==>
      && r.portfolio.Keys == p.Keys + {symbol}
      && (symbol in p ==> r.portfolio[symbol] == Entry(p[symbol].shares + DigitsValue(sharesText), p[symbol].price))
      && (symbol !in p ==> r.portfolio[symbol] == Entry(DigitsValue(sharesText), fetched.value))
      && (forall k :: k in p && k != symbol ==> r.portfolio[k] == p[k])
  {
    if !ValidInput(symbol, sharesText) then Transition(InvalidInput, p)
    else
      var shares := DigitsValue(sharesText);
      match fetched
      case None => Transition(PriceUnavailable, p)
      case Some(price) =>
        if symbol in p then Transition(Done, p[symbol := Entry(p[symbol].shares + shares, p[symbol].price)])
        else Transition(Done, p[symbol := Entry(shares, price)])
  }

  /**
   * Deleting shares: invalid input, an unknown symbol and a request above
   * the held count change nothing; otherwise the count drops by exactly the
   * request, the holding disappears exactly when nothing is left, and every
   * other holding stays.
   */
  function DeleteStock(p: Portfolio, symbol: string, sharesText: string): (r: Transition)
    ensures !ValidInput(symbol, sharesText) ==> r == Transition(InvalidInput, p)
    ensures ValidInput(symbol, sharesText) && symbol !in p ==> r == Transition(NotFound, p)
    ensures ValidInput(symbol, sharesText) && symbol in p && p[symbol].shares < DigitsValue(sharesText) ==>
      r == Transition(NotEnoughShares, p)
    ensures r.status == Done <==>
      ValidInput(symbol, sharesText) && symbol in p && DigitsValue(sharesText) <= p[symbol].shares
    ensures r.status == Done ==>
      && r.portfolio.Keys <= p.Keys
      && (symbol in r.portfolio <==> p[symbol].shares > DigitsValue(sharesText))
      && (symbol in r.portfolio ==> r.portfolio[symbol] == Entry(p[symbol].shares - DigitsValue(sharesText), p[symbol].price))
      && (forall k :: k in p && k != symbol ==> k in r.portfolio && r.portfolio[k] == p[k])
  {
    if !ValidInput(symbol, sharesText) then Transition(InvalidInput, p)
    else
      var sharesToDelete := DigitsValue(sharesText);
      if symbol !in p then Transition(NotFound, p)
      else if p[symbol].shares < sharesToDelete then Transition(NotEnoughShares, p)
      else
        var left := p[symbol].shares - sharesToDelete;
        if left == 0 then Transition(Done, p - {symbol})
        else Transition(Done, p[symbol := Entry(left, p[symbol].price)])
  }

  // ---------------------------------------------------------------------
  // Aggregation: the value of a holding, the total value, the table rows
  // ---------------------------------------------------------------------

  /** The value of one holding: shares times unit price. */
  function Value(e: Entry): real
  {
    e.shares as real * e.price
  }

  lemma ValueNonNegative(e: Entry)
    ensures e.price >= 0.0 ==> Value(e) >= 0.0
  {
  }

  /** The value of a holding grows linearly in its share count. */
  lemma ValueOfMoreShares(shares: nat, n: nat, price: real)
    ensures Value(Entry(shares + n, price)) == Value(Entry(shares, price)) + Value(Entry(n, price))
  {
  }

  /** No holding has a negative price. */
  predicate NoNegativePrices(p: Portfolio)
  {
    forall k :: k in p ==> p[k].price >= 0.0
  }

  /**
   * The sum of shares times price over all holdings, in no particular order.
   * The empty portfolio is worth zero, and with no negative prices the total
   * is never negative.
   */
  ghost function TotalValue(p: Portfolio): (total: real)
    ensures NoNegativePrices(p) ==> total >= 0.0
    decreases |p.Keys|
  {
    if p == map[] then 0.0
    else
      var k :| k in p;
      assert |(p - {k}).Keys| < |p.Keys| by {
        assert (p - {k}).Keys == p.Keys - {k};
      }
      ValueNonNegative(p[k]);
      Value(p[k]) + TotalValue(p - {k})
  }

  /** The total can be split at any holding, so it does not depend on the order of summation. */
  lemma {:induction false} TotalValueRemove(p: Portfolio, k: string)
    requires k in p
    ensures TotalValue(p) == Value(p[k]) + TotalValue(p - {k})
    decreases |p.Keys|
  {
    var j :| j in p && TotalValue(p) == Value(p[j]) + TotalValue(p - {j});
    if j != k {
      assert (p - {j}).Keys == p.Keys - {j};
      assert (p - {k}).Keys == p.Keys - {k};
      TotalValueRemove(p - {j}, k);
      TotalValueRemove(p - {k}, j);
      assert (p - {j}) - {k} == (p - {k}) - {j};
    }
  }

  /** Setting one holding replaces its share of the total. */
  lemma TotalValueUpdate(p: Portfolio, k: string, e: Entry)
    ensures TotalValue(p[k := e]) == Value(e) + TotalValue(p - {k})
  {
    TotalValueRemove(p[k := e], k);
    assert p[k := e] - {k} == p - {k};
  }

  /** The row shown for one holding: its symbol, count, price and shares times price. */
  function RowOf(symbol: string, e: Entry): (row: Row)
    ensures row.symbol == symbol && row.shares == e.shares && row.price == e.price
    ensures row.total == Value(e)
  {
    Row(symbol, e.shares, e.price, e.shares as real * e.price)
  }

  /** The rows are exactly one per holding, each showing that holding's values. */
  ghost predicate IsTableOf(rows: seq<Row>, p: Portfolio)
  {
    && (forall i :: 0 <= i < |rows| ==> rows[i].symbol in p && rows[i] == RowOf(rows[i].symbol, p[rows[i].symbol]))
    && (forall i, j :: 0 <= i < j < |rows| ==> rows[i].symbol != rows[j].symbol)
    && (forall k :: k in p ==> exists i :: 0 <= i < |rows| && rows[i].symbol == k)
  }

  // ---------------------------------------------------------------------
  // How the operations move the total value
  // ---------------------------------------------------------------------

  /** One step of a summation that takes a holding out of the portfolio still to visit. */
  lemma TotalValueStep(p: Portfolio, symbol: string)
    requires symbol in p
    ensures TotalValue(p) == Value(p[symbol]) + TotalValue(p - {symbol})
    ensures |(p - {symbol}).Keys| < |p.Keys|
  {
    TotalValueRemove(p, symbol);
    assert (p - {symbol}).Keys == p.Keys - {symbol};
  }

  /** A successful add raises the total by the added count times the price the holding keeps. */
  lemma AddRaisesTotal(p: Portfolio, symbol: string, sharesText: string, fetched: Option<real>)
    requires AddStock(p, symbol, sharesText, fetched).status == Done
    ensures
      var kept := if symbol in p then p[symbol].price else fetched.value;
      TotalValue(AddStock(p, symbol, sharesText, fetched).portfolio)
      == TotalValue(p) + Value(Entry(DigitsValue(sharesText), kept))
  {
    var n := DigitsValue(sharesText);
    AddStockShape(p, symbol, sharesText, fetched);
    if symbol in p {
      TotalValueGrows(p, symbol, n);
    } else {
      TotalValueInserts(p, symbol, Entry(n, fetched.value));
    }
  }

  /** The portfolio a successful add leaves behind, written as one map update. */
  lemma AddStockShape(p: Portfolio, symbol: string, sharesText: string, fetched: Option<real>)
    requires AddStock(p, symbol, sharesText, fetched).status == Done
    ensures symbol in p ==>
      AddStock(p, symbol, sharesText, fetched).portfolio
      == p[symbol := Entry(p[symbol].shares + DigitsValue(sharesText), p[symbol].price)]
    ensures symbol !in p ==>
      AddStock(p, symbol, sharesText, fetched).portfolio
      == p[symbol := Entry(DigitsValue(sharesText), fetched.value)]
  {
  }

  lemma TotalValueInserts(p: Portfolio, symbol: string, e: Entry)
    requires symbol !in p
    ensures TotalValue(p[symbol := e]) == TotalValue(p) + Value(e)
  {
    TotalValueUpdate(p, symbol, e);
    assert p - {symbol} == p;
  }

  lemma TotalValueGrows(p: Portfolio, symbol: string, n: nat)
    requires symbol in p
    ensures TotalValue(p[symbol := Entry(p[symbol].shares + n, p[symbol].price)])
         == TotalValue(p) + Value(Entry(n, p[symbol].price))
  {
    var e := p[symbol];
    TotalValueUpdate(p, symbol, Entry(e.shares + n, e.price));
    TotalValueRemove(p, symbol);
    ValueOfMoreShares(e.shares, n, e.price);
  }

  /** A successful delete lowers the total by the removed count times the holding's price. */
  lemma DeleteLowersTotal(p: Portfolio, symbol: string, sharesText: string)
    requires DeleteStock(p, symbol, sharesText).status == Done
    ensures TotalValue(DeleteStock(p, symbol, sharesText).portfolio)
         == TotalValue(p) - Value(Entry(DigitsValue(sharesText), p[symbol].price))
  {
    var n := DigitsValue(sharesText);
    var e := p[symbol];
    var q := DeleteStock(p, symbol, sharesText).portfolio;
    if e.shares == n {
      assert q == p - {symbol};
      TotalValueDrops(p, symbol);
    } else {
      assert q == p[symbol := Entry(e.shares - n, e.price)];
      TotalValueShrinks(p, symbol, n);
    }
  }

  lemma TotalValueDrops(p: Portfolio, symbol: string)
    requires symbol in p
    ensures TotalValue(p - {symbol}) == TotalValue(p) - Value(Entry(p[symbol].shares, p[symbol].price))
  {
    TotalValueRemove(p, symbol);
  }

  lemma TotalValueShrinks(p: Portfolio, symbol: string, n: nat)
    requires symbol in p && n < p[symbol].shares
    ensures TotalValue(p[symbol := Entry(p[symbol].shares - n, p[symbol].price)])
         == TotalValue(p) - Value(Entry(n, p[symbol].price))
  {
    var e := p[symbol];
    TotalValueRemove(p, symbol);
    TotalValueUpdate(p, symbol, Entry(e.shares - n, e.price));
    ValueOfMoreShares(e.shares - n, n, e.price);
    assert Entry(e.shares - n + n, e.price) == e;
  }

  // ---------------------------------------------------------------------
  // How add and delete combine
  // ---------------------------------------------------------------------

  /**
   * Deleting what was just added restores the portfolio, unless the symbol
   * was held with zero shares (then the holding disappears).
   */
  lemma DeleteUndoesAdd(p: Portfolio, symbol: string, sharesText: string, fetched: Option<real>)
    requires AddStock(p, symbol, sharesText, fetched).status == Done
    requires symbol in p ==> p[symbol].shares > 0
    ensures DeleteStock(AddStock(p, symbol, sharesText, fetched).portfolio, symbol, sharesText) == Transition(Done, p)
  {
    var q := AddStock(p, symbol, sharesText, fetched).portfolio;
    var r := DeleteStock(q, symbol, sharesText).portfolio;
    assert r == p;
  }

  /** No holding has a zero share count. */
  ghost predicate NoEmptyHoldings(p: Portfolio)
  {
    forall k :: k in p ==> p[k].shares > 0
  }

  /** Delete never leaves a holding at zero shares behind. */
  lemma DeleteKeepsNoEmptyHoldings(p: Portfolio, symbol: string, sharesText: string)
    requires NoEmptyHoldings(p)
    ensures NoEmptyHoldings(DeleteStock(p, symbol, sharesText).portfolio)
  {
  }

  /** Add keeps every holding non-empty when it adds shares or adds to a held symbol. */
  lemma AddKeepsNoEmptyHoldings(p: Portfolio, symbol: string, sharesText: string, fetched: Option<real>)
    requires NoEmptyHoldings(p)
    requires ValidInput(symbol, sharesText) ==> symbol in p || DigitsValue(sharesText) > 0
    ensures NoEmptyHoldings(AddStock(p, symbol, sharesText, fetched).portfolio)
  {
  }

  /** Since "0" is all digits, adding zero shares of a new symbol creates a holding with zero shares. */
  lemma AddZeroCreatesEmptyHolding(p: Portfolio, symbol: string, price: real)
    requires symbol != "" && symbol !in p
    ensures AddStock(p, symbol, "0", Some(price)) == Transition(Done, p[symbol := Entry(0, price)])
    ensures !NoEmptyHoldings(AddStock(p, symbol, "0", Some(price)).portfolio)
  {
    assert IsDigits("0");
  }

  /**
   * A session: 10 TCS at 100 then 5 more at 110 hold 15 shares at the first
   * price; deleting 999 is refused, deleting 15 removes the holding, and a
   * further delete finds nothing.
   */
  lemma SessionExample()
    ensures
      var p1 := AddStock(map[], "TCS", "10", Some(100.0));
      var p2 := AddStock(p1.portfolio, "TCS", "5", Some(110.0));
      var tooMany := DeleteStock(p2.portfolio, "TCS", "999");
      var p3 := DeleteStock(p2.portfolio, "TCS", "15");
      var p4 := DeleteStock(p3.portfolio, "TCS", "1");
      && p2 == Transition(Done, map["TCS" := Entry(15, 100.0)])
      && TotalValue(p2.portfolio) == 1500.0
      && tooMany == Transition(NotEnoughShares, p2.portfolio)
      && p3 == Transition(Done, map[])
      && p4 == Transition(NotFound, map[])
  {
    assert IsDigits("10") && DigitsValue("10") == 10 by {
      assert "10"[..1] == "1";
    }
    assert IsDigits("5") && DigitsValue("5") == 5;
    assert IsDigits("15") && DigitsValue("15") == 15 by {
      assert "15"[..1] == "1";
    }
    assert IsDigits("999") && DigitsValue("999") == 999 by {
      assert "999"[..2] == "99";
      assert "99"[..1] == "9";
    }
    assert IsDigits("1") && DigitsValue("1") == 1;
    var p2 := map["TCS" := Entry(15, 100.0)];
    TotalValueRemove(p2, "TCS");
    assert p2 - {"TCS"} == map[];
  }

  // ---------------------------------------------------------------------
  // The dashboard's portfolio state, updated in place
  // ---------------------------------------------------------------------

  class Dashboard {
    var portfolio: Portfolio
    /** The rows currently shown in the portfolio table. */
    var table: seq<Row>
    /** The total value currently shown under the table. */
    var totalValue: real

    /** The table and the total shown agree with the portfolio. */
    ghost predicate Valid()
      reads this
    {
      IsTableOf(table, portfolio) && totalValue == TotalValue(portfolio)
    }

    /** The application starts with an empty portfolio, an empty table and a total of zero. */
    constructor ()
      ensures Valid()
      ensures portfolio == map[] && table == [] && totalValue == 0.0
    {
      portfolio := map[];
      table := [];
      totalValue := 0.0;
    }

    /** Rebuilds the table with one row per holding, visiting the holdings one by one. */
    method UpdatePortfolioTable()
      modifies this`table
      ensures IsTableOf(table, portfolio)
    {
      var rows: seq<Row> := [];
      var rest := portfolio.Keys;
      while rest != {}
        invariant rest <= portfolio.Keys
        invariant forall i :: 0 <= i < |rows| ==>
          rows[i].symbol in portfolio && rows[i].symbol !in rest
          && rows[i] == RowOf(rows[i].symbol, portfolio[rows[i].symbol])
        invariant forall i, j :: 0 <= i < j < |rows| ==> rows[i].symbol != rows[j].symbol
        invariant forall k :: k in portfolio && k !in rest ==> exists i :: 0 <= i < |rows| && rows[i].symbol == k
        decreases |rest|
      {
        var symbol :| symbol in rest;
        var data := portfolio[symbol];
        var totalValue := data.shares as real * data.price;
        ghost var shown := rows;
        assert Row(symbol, data.shares, data.price, totalValue) == RowOf(symbol, data);
        rows := rows + [Row(symbol, data.shares, data.price, totalValue)];
        forall k | k in portfolio && k !in rest - {symbol}
          ensures exists i :: 0 <= i < |rows| && rows[i].symbol == k
        {
          if k == symbol {
            assert rows[|rows| - 1].symbol == k;
          } else {
            var i :| 0 <= i < |shown| && shown[i].symbol == k;
            assert rows[i].symbol == k;
          }
        }
        rest := rest - {symbol};
      }
      table := rows;
    }

    /** Sums shares times price over the holdings, visiting them one by one. */
    method CalculateTotalValue()
      modifies this`totalValue
      ensures totalValue == TotalValue(portfolio)
    {
      var total := 0.0;
      var rest := portfolio;
      while rest != map[]
        invariant total + TotalValue(rest) == TotalValue(portfolio)
        decreases |rest.Keys|
      {
        var symbol :| symbol in rest;
        var data := rest[symbol];
        TotalValueStep(rest, symbol);
        total := total + Value(data);
        rest := rest - {symbol};
      }
      totalValue := total;
    }

    /**
     * Adds shares of a symbol at the fetched spot price (None when the fetch
     * failed), then refreshes the table and the total.
     */
    method AddStockToPortfolio(symbol: string, sharesText: string, fetched: Option<real>) returns (status: Status)
      requires Valid()
      modifies this
      ensures Valid()
      ensures Transition(status, portfolio) == AddStock(old(portfolio), symbol, sharesText, fetched)
      ensures status != Done ==> unchanged(this)
    {
      if symbol == "" || !IsDigits(sharesText) {
        return InvalidInput;
      }
      var shares := DigitsValue(sharesText);
      if fetched.None? {
        return PriceUnavailable;
      }
      if symbol in portfolio {
        var data := portfolio[symbol];
        portfolio := portfolio[symbol := data.(shares := data.shares + shares)];
      } else {
        portfolio := portfolio[symbol := Entry(shares, fetched.value)];
      }
      assert portfolio == AddStock(old(portfolio), symbol, sharesText, fetched).portfolio;
      UpdatePortfolioTable();
      CalculateTotalValue();
      status := Done;
    }

    /** Removes shares of a held symbol, then refreshes the table and the total. */
    method DeleteStockFromPortfolio(symbol: string, sharesText: string) returns (status: Status)
      requires Valid()
      modifies this
      ensures Valid()
      ensures Transition(status, portfolio) == DeleteStock(old(portfolio), symbol, sharesText)
      ensures status != Done ==> unchanged(this)
    {
      if symbol == "" || !IsDigits(sharesText) {
        return InvalidInput;
      }
      var sharesToDelete := DigitsValue(sharesText);
      if symbol !in portfolio {
        return NotFound;
      }
      if portfolio[symbol].shares < sharesToDelete {
        return NotEnoughShares;
      }
      var data := portfolio[symbol];
      portfolio := portfolio[symbol := data.(shares := data.shares - sharesToDelete)];
      if portfolio[symbol].shares == 0 {
        portfolio := portfolio - {symbol};
      }
      assert portfolio == DeleteStock(old(portfolio), symbol, sharesText).portfolio;
      UpdatePortfolioTable();
      CalculateTotalValue();
      status := Done;
    }
  }
}
