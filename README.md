# Stock market dashboard: indicator engine and portfolio ledger

A Dafny model of the two parts of the Tkinter stock dashboard that hold real
logic.

- **Indicator engine** (`indicators.dfy`, module `Indicators`). The exponential
  moving average (EMA) is seeded with the first price. Every later value is
  `(price - previous) * m + previous`, where `m = 2 / (period + 1)`. The MACD
  line is the index-wise difference of the 8-period and the 20-period EMA.
  There is no signal line. `Ema` is the recursive specification.
  `CalculateEma` is the appending loop of the source, proved equal to it.
  `CalculateMacd` is the list comprehension.
- **Portfolio ledger** (`ledger.dfy`, module `Ledger`). The portfolio maps a
  ticker symbol to a holding (share count, unit price). `AddStock` and
  `DeleteStock` are the pure transitions: the status shown to the user and the
  portfolio left behind. `TotalValue` is the sum of shares × price over all
  holdings. Class `Dashboard` holds the state that the application updates in
  place: the portfolio map, the rows of the portfolio table and the total
  shown. Its methods follow the source statement by statement and are proved
  against the transitions. `Valid()` says that the table and the total agree
  with the portfolio.

Prices are `real`. The spot price that `add_stock_to_portfolio` fetches is an
`Option<real>` parameter (`None` when the fetch fails). The symbol and share
text are passed in after the application's `upper().strip()` / `strip()`
normalisation.

Three behaviours of the code worth noting:

- Adding to a held symbol keeps the price stored when the holding was
  created. It does not overwrite the price with the new one. So 10 TCS at 100
  then 5 more at 110 give 15 shares at 100, with a total of 1500 (see
  `Ledger.SessionExample`).
- `"0"` passes the digit check. Adding zero shares of a new symbol therefore
  creates a holding with zero shares (`Ledger.AddZeroCreatesEmptyHolding`).
  "No holding has zero shares" holds only under the conditions of
  `Ledger.AddKeepsNoEmptyHoldings` and `Ledger.DeleteKeepsNoEmptyHoldings`.
- The MACD line subtracts the 20-period EMA from the 8-period EMA
  (`Indicators.FastPeriod`, `Indicators.SlowPeriod`).

## Model

| member | source | states |
|---|---|---|
| `Indicators.Multiplier` | Final_Code_23EEB0A14.py:16 | the multiplier 2/(period+1) is positive; for period ≥ 1 it is at most 1; it is exactly 1 if and only if the period is 1 |
| `Indicators.Ema` | Final_Code_23EEB0A14.py:14-21 | the EMA of a non-empty series has the length of the series, and its first element is the first price |
| `Indicators.CalculateEma` | Final_Code_23EEB0A14.py:14-21 | the loop that appends `(price - ema[-1]) * multiplier + ema[-1]` once per later price builds exactly `Ema(prices, period)` |
| `Indicators.EmaPrefix` | Final_Code_23EEB0A14.py:17-20 | the EMA of the first k prices is the first k elements of the EMA: each value depends only on the prices up to it |
| `Indicators.EmaRecurrence` | Final_Code_23EEB0A14.py:19 | every element after the seed equals `(prices[i] - ema[i-1]) * multiplier + ema[i-1]` |
| `Indicators.EmaStepBetween` | Final_Code_23EEB0A14.py:16-20 | for period ≥ 1, `ema[i]` lies between `ema[i-1]` and `prices[i]` |
| `Indicators.EmaWithin` | Final_Code_23EEB0A14.py:16-20 | for period ≥ 1, if every price lies in [lo, hi], then every EMA value lies in [lo, hi] |
| `Indicators.EmaConstant` | Final_Code_23EEB0A14.py:17-20 | a constant price series c yields an EMA equal to c everywhere, for every period |
| `Indicators.EmaPeriodOne` | Final_Code_23EEB0A14.py:16-20 | with period 1 the EMA is the price series itself |
| `Indicators.EmaExample` | Final_Code_23EEB0A14.py:14-21 | prices 100, 102, 101, 105, 107 with period 3 give 100, 101, 101, 103, 105 |
| `Indicators.RisingEmaLags` | Final_Code_23EEB0A14.py:16-20 | when prices never fall, each EMA value is at most the current price |
| `Indicators.RisingFastAboveSlow` | Final_Code_23EEB0A14.py:24-25 | when prices never fall, an EMA with a shorter period stays at or above one with a longer period |
| `Indicators.CalculateMacd` | Final_Code_23EEB0A14.py:23-27 | returns the 8-period EMA, the 20-period EMA and a line of the input's length with `line[i] = ema_8[i] - ema_20[i]` |
| `Indicators.MacdStartsAtZero` | Final_Code_23EEB0A14.py:23-27 | both EMAs share the seed, so the MACD line starts at 0 |
| `Indicators.MacdConstantIsZero` | Final_Code_23EEB0A14.py:23-27 | a constant price series gives a MACD line that is 0 everywhere |
| `Indicators.MacdRisingNonNegative` | Final_Code_23EEB0A14.py:23-27 | when prices never fall, the MACD line is never negative |
| `Ledger.ValidInput` | Final_Code_23EEB0A14.py:116 | input passes only with a non-empty symbol and a non-empty share text made of digits; an empty symbol, an empty share text or any non-digit character rejects it (the same check at line 231 guards delete) |
| `Ledger.DigitsValue` | Final_Code_23EEB0A14.py:119 | `int()` of a digit string is 0 exactly when every digit is `0`, so `"0"` and `"000"` both give zero (the same conversion at line 234 serves delete) |
| `Ledger.DecimalTextParses` | Final_Code_23EEB0A14.py:115-119 | the decimal text of any share count passes the digit check, and `int()` of it gives the count back |
| `Ledger.AddStock` | Final_Code_23EEB0A14.py:113-127 | an empty symbol or a non-digit share text gives InvalidInput and no change; a failed price fetch gives PriceUnavailable and no change; otherwise the result is Done, a held symbol gains exactly n shares and keeps its stored price, an absent symbol is inserted with n shares at the fetched price, and no other holding changes |
| `Ledger.DeleteStock` | Final_Code_23EEB0A14.py:228-243 | invalid input, an absent symbol and a request above the held count give InvalidInput, NotFound and NotEnoughShares, each with no change; the result is Done exactly when the input is valid, the symbol is held and n ≤ held; then the count drops by exactly n, the holding is removed if and only if nothing is left, and no other holding changes |
| `Ledger.TotalValueRemove` | Final_Code_23EEB0A14.py:139 | the total equals any one holding's shares × price plus the total of the rest, so the sum does not depend on the order in which the holdings are visited |
| `Ledger.TotalValue` | Final_Code_23EEB0A14.py:139 | the sum of shares × price over all holdings: when no holding has a negative price, the total is never negative |
| `Ledger.AddRaisesTotal` | Final_Code_23EEB0A14.py:124-129 | a successful add raises the total by n × the price the holding keeps (the stored price for a held symbol, the fetched price for a new one) |
| `Ledger.DeleteLowersTotal` | Final_Code_23EEB0A14.py:241-245 | a successful delete lowers the total by n × the holding's price |
| `Ledger.DeleteUndoesAdd` | Final_Code_23EEB0A14.py:241-243 | deleting the shares that a successful add just added restores the portfolio, unless the symbol was held with zero shares |
| `Ledger.DeleteKeepsNoEmptyHoldings` | Final_Code_23EEB0A14.py:241-243 | if no holding has zero shares before a delete, none has afterwards |
| `Ledger.AddKeepsNoEmptyHoldings` | Final_Code_23EEB0A14.py:124-127 | add keeps every holding non-empty when it adds at least one share or adds to a symbol already held |
| `Ledger.AddZeroCreatesEmptyHolding` | Final_Code_23EEB0A14.py:116-127 | adding "0" shares of a new symbol succeeds and inserts a holding with zero shares |
| `Ledger.SessionExample` | Final_Code_23EEB0A14.py:113-243 | add 10 TCS at 100, then 5 at 110: 15 shares at 100, total 1500; deleting 999 gives NotEnoughShares with no change; deleting 15 empties the portfolio; deleting 1 more gives NotFound |
| `Ledger.RowOf` | Final_Code_23EEB0A14.py:135-136 | a table row shows the holding's symbol, its share count, its price and its value shares × price |
| `Ledger.Dashboard.constructor` | Final_Code_23EEB0A14.py:66-99 | the application starts with an empty portfolio (line 70), an empty table (line 91, built by `initUI`) and a total of 0 (lines 98-99) |
| `Ledger.Dashboard.UpdatePortfolioTable` | Final_Code_23EEB0A14.py:131-136 | the table gets exactly one row per holding, showing its symbol, shares, price and shares × price |
| `Ledger.Dashboard.CalculateTotalValue` | Final_Code_23EEB0A14.py:138-140 | summing shares × price over the holdings one at a time yields `TotalValue(portfolio)` |
| `Ledger.Dashboard.AddStockToPortfolio` | Final_Code_23EEB0A14.py:113-129 | the status and the new portfolio are those of `AddStock`; a successful add refreshes the table and the total; a rejected one changes nothing |
| `Ledger.Dashboard.DeleteStockFromPortfolio` | Final_Code_23EEB0A14.py:228-246 | the status and the new portfolio are those of `DeleteStock`; a successful delete refreshes the table and the total; a rejected one changes nothing |

## Left out

- Spot-price lookup (`get_stock_price_in_inr`): HTTP requests and HTML scraping. Its result is the `fetched: Option<real>` parameter of the add operations.
- 30-day history (`get_last_30_days_prices`) and its display (`display_last_30_days_prices`): calls into yfinance and pandas, and label widgets.
- `show_last_30_days_chart`: only the `calculate_macd` call is modelled. The `float(p)`-or-`0.0` cleanup loop relies on Python's dynamic conversion. The plots are matplotlib rendering.
- `visualize_portfolio` and `display_stock_price`: a pie chart and a label, with no logic beyond what `TotalValue` and `RowOf` already state.
- Windows, widgets, message boxes and event wiring: the message shown is the returned `Status`, including the delete success message.
- `datetime.now()` and the date labels: clock and formatting.
- Floating-point rounding in the EMA and the totals: prices and values are `real`.
- `:.2f` formatting of the price, row total and total: presentation only. Rows and the total hold the exact numbers.
- `upper()` and `strip()` of the symbol, and `strip()` of the share text: the operations take already-normalised text.
- The Unicode meaning of `str.isdigit()`: only ASCII `0`-`9` are digits here.
- Dictionary iteration order: Python visits holdings in insertion order. The table rows and the summation visit them in an unspecified order. The row order is not modelled, and the sum is proved independent of the order.
- `Ema`, `CalculateEma` and `CalculateMacd` require a non-empty price list: `calculate_ema` raises IndexError on an empty list (line 17), and its only caller passes a list only after `if prices:` (line 183).
- Periods are natural numbers. A negative period is never passed by the application and is not modelled.
- Holdings are Python dictionaries updated through `self.portfolio[symbol]`. Nothing else refers to them, so they are modelled as immutable `Entry` values replaced in the map.
