# Bybit TradingView bot: position reconciliation

This project models the core of a small webhook bot. The bot receives
TradingView alerts (`Buy`, `Sell`, `Buy Exit`, `Sell Exit`) and turns them
into market orders on the Bybit derivatives exchange. It models three layers
of `bot.py`:

- **Exchange boundary** (`exchange.dfy`, module `Exchange`).
  - `Trader.get_position_size` projects a position-list reply to the resting
    size of one side, or to `None` when the query failed.
  - `Trader.order` builds the order request for a side, a size and a
    reduce-only flag. It does this separately for linear (USDT) and inverse
    contracts.
- **Retry loops** (`reconciler.dfy`, module `Reconciler`).
  - `Trader.close_position` and `Trader.create_position` are two bounded
    loops. Each one re-queries the position, skips an iteration whose query
    failed, stops when nothing needs doing or an order is accepted, and
    gives up after `max_iteration` iterations.
  - Both are one function, `Loop`, parametrised by a `Goal` (`Close` or
    `Create`). It returns the boolean result and a trace of `Step`s: skipped,
    settled, or sent with the order and the exchange's verdict.
- **Webhook handler** (`gateway.dfy`, module `Gateway`).
  - `run` checks the alert text against `SIGNALS` and drives the trader. An
    entry closes the opposite side and then creates on the signal's side. An
    exit closes one side. It stops at the first step that fails.
  - It answers with a JSON `result`, an HTTP status and the LINE
    notifications it would send.

The exchange is not modelled. It is a script: the reply to each position
query and the acknowledgement of each order submission, in the order the
trader consumes them (`Reconciler.Script`). A loop reads the reply for every
iteration and the acknowledgement for every order. The entry signals' create
step runs on whatever the close step left of the script (`Gateway.Rest`).

`scenarios.dfy` (module `Scenarios`) works concrete requests through the
model:

- flipping a short to a long;
- exiting a flat side;
- an inverse-contract close;
- an exchange outage;
- a mistyped alert.

`options.dfy` holds the `Option` type.

Sizes are `real`: the bot compares sizes with `== 0` and `>= max_lot` and
forwards them, but never computes with them. The inverse order path's
`int(size)` is modelled as truncation toward zero (`Exchange.Trunc`).

Closing orders carry `reduce_only=True` only on the linear path
(bot.py:194-196). The inverse request at bot.py:199-201 omits the flag and
sends `int(size)`. `Exchange.OrderFor` therefore yields `reduceOnly == None`
and an integral `qty` for inverse contracts, so an inverse close is not
reduce-only.

## Model

| member | source | states |
|---|---|---|
| Exchange.PositionSize | bot.py:148-189 | The projection of a reply is `None` exactly when the HTTP status is not 200 or the return code is not 0. |
| Exchange.QueryFailureIsSideIndependent | bot.py:154-169 | Whether a query fails does not depend on the side asked for; the side is only consulted once the reply is good. |
| Exchange.LinearReadsOwnEntry | bot.py:178-182 | On a linear account, Buy reads the first entry's size and Sell the second's, each independent of the other. |
| Exchange.InverseIsOneSided | bot.py:183-189 | On an inverse account, at least one side projects to 0. A side with a non-zero size is the side the exchange reported, and the reported side gets exactly the reported size. |
| Exchange.Trunc | bot.py:200 | Python `int()` on a float: the result is within one of the input, never larger in magnitude, and exact on integral inputs. |
| Exchange.OrderFor | bot.py:191-201 | The request is always on the given side. Linear: the quantity is the size and the reduce-only flag is sent as given. Inverse: the flag is omitted, and the quantity is the integral part of a non-negative size, equal to the size when that is integral. |
| Exchange.OppositeIsInvolution | bot.py:255-258 | The reducing side differs from the position side, has a different label, and reducing twice returns to the original side. |
| Reconciler.Loop | bot.py:227-263 | The loop runs at most the cap. It returns `True` exactly when its last step settled or had its order accepted, and that step is the only such step. A `False` run used every iteration. |
| Reconciler.LoopTrace | bot.py:227-263 | Each step of the run is decided by the answer of its own iteration. The verdict of the n-th order is the n-th acknowledgement of the script. |
| Reconciler.ClosePosition | bot.py:244-263 | `close_position`: at most `max_iteration` queries; success exactly when it ended on a settled or accepted step; a failure used every iteration. |
| Reconciler.CreatePosition | bot.py:227-242 | `create_position`: the same bounds and success condition as closing. |
| Reconciler.CloseSubmitsOppositeReduceOnly | bot.py:252-258 | Every order `close_position` submits follows a query that answered a non-zero size. It is on the opposite side, for exactly that size, with reduce-only requested. |
| Reconciler.CreateSubmitsOneLot | bot.py:235-238 | Every order `create_position` submits follows a query that answered a size below `max_lot`. It is exactly one `lot` on the same side, with reduce-only off, and never the resting size. |
| Reconciler.OnlyLastOrderAccepted | bot.py:203-240 | A run submits at most as many orders as the script acknowledges. An order was accepted exactly when it is the run's last order and the run ended on it with `True`; every earlier order was refused. |
| Reconciler.VerdictsOfRun | bot.py:239-240 | In a run that stops at its first final step, only the last order can have been accepted, and only if the last step sent it. |
| Reconciler.LoopSkipsFailedQueries | bot.py:232-233 | When the first k queries fail and query k answers, the first k iterations are skips without orders, and each still uses up an iteration. |
| Reconciler.LoopStopsAtFirstAnswer | bot.py:235-240 | After the skips, the run returns `True` on the first answered iteration if nothing is needed there or its order is accepted. It queries no further. When nothing is needed, it submitted no order. |
| Reconciler.LoopAllQueriesFail | bot.py:227-242 | When every query fails, the run uses every iteration, returns `False`, and submits nothing. |
| Reconciler.CloseRetriesFailedQueries | bot.py:245-261 | Failed queries before the cap do not make `close_position` fail: if a later query finds the side flat or the first order is accepted, it returns `True` after k + 1 iterations. |
| Reconciler.CreateRetriesFailedQueries | bot.py:228-240 | The same retry tolerance for `create_position`, where a size at or above `max_lot` needs nothing. |
| Reconciler.CloseFlatSubmitsNothing | bot.py:252-253 | `close_position` on a side reported flat returns `True` without submitting any order. |
| Reconciler.CreateFullSubmitsNothing | bot.py:235-236 | `create_position` on a side at or above `max_lot` returns `True` without submitting any order. |
| Reconciler.AllQueriesFailGivesUp | bot.py:245-263 | When every query of the cap fails, either loop returns `False` after `max_iteration` iterations with zero orders. |
| Reconciler.CloseAllRefusedGivesUp | bot.py:244-263 | When no query reports the side flat and the exchange refuses every order, `close_position` returns `False` after using every iteration. |
| Reconciler.CreateAllRefusedGivesUp | bot.py:227-242 | When no query reports the side at or above `max_lot` and the exchange refuses every order, `create_position` returns `False` after using every iteration. |
| Reconciler.NonPositiveCapGivesUp | bot.py:228 | With a `max_iteration` of zero or less the `range` is empty: both loops return `False` without a single query. |
| Gateway.Text | bot.py:28-33 | Every signal's text is one of the four `SIGNALS`. |
| Gateway.Parse | bot.py:54 | A text is rejected exactly when it is not one of the four `SIGNALS`; an accepted text names the signal whose text it is. |
| Gateway.SignalRoundTrip | bot.py:28-33 | Each signal's text parses back to that signal, and no two signals share a text. |
| Gateway.VocabularyIsSignals | bot.py:28-33 | A text is in `SIGNALS` exactly when some signal has it as its text. |
| Gateway.Plan | bot.py:66-123 | Every plan starts with a close. An exit closes the signal's own side only. An entry closes the opposite side and then creates on the signal's side. |
| Gateway.Perform | bot.py:68-115 | A step runs one loop with the default cap of ten iterations. |
| Gateway.Single | bot.py:105-122 | An exit runs exactly one close. It answers 200 exactly when the close succeeded, and otherwise reports that close's failure. |
| Gateway.Pair | bot.py:66-103 | An entry runs the close first. The create runs, on the rest of the script, exactly when the close succeeded. The request answers 200 exactly when both succeeded, and otherwise reports the step that failed. |
| Gateway.Dispatch | bot.py:66-126 | A known signal runs the first step of its plan. Every run but the last succeeded, and the second step runs on what the first left of the script. The request succeeds exactly when the whole plan ran and its last step succeeded. Otherwise the last run failed, nothing runs after it, and the answer reports that step's failure. |
| Gateway.Run | bot.py:50-126 | The handler answers 0/200 with no notification or -1/400 with exactly one. A text outside `SIGNALS` gets -1/400 and its own "signal(...) is incorrect." notice, and no trading. A known text runs one or two loops of at most ten iterations each. |
| Gateway.RunDispatchesSignal | bot.py:54-66 | A known signal's text is handled by running that signal's plan. |
| Gateway.EntrySignal | bot.py:66-103 | `Buy`/`Sell` close the opposite side first. If the close fails: -1/400, "failed close position.", and no create. Otherwise the create on the signal's side decides between 0/200 and -1/400 with "failed create position.". |
| Gateway.ExitSignal | bot.py:105-122 | `Buy Exit`/`Sell Exit` close the named side only. The answer is 0/200 exactly when the close succeeds, and otherwise -1/400 with "failed close position.". |
| Gateway.TraceBound | bot.py:227-263 | Runs of at most ten iterations each make at most ten queries apiece, and no more orders than queries. |
| Gateway.RequestIsBounded | bot.py:50-126 | A whole request makes at most 20 position queries and submits no more orders than it makes queries. |
| Scenarios.BuyFlipsShortToLong | bot.py:66-84 | `Buy` on a linear account short 0.002 submits a reduce-only buy of 0.002, then a non-reduce-only buy of one lot (0.001), and answers 0/200. |
| Scenarios.SellExitWhenFlat | bot.py:114-126 | `Sell Exit` with the short side flat answers 0/200 after one query and no order. |
| Scenarios.InverseExitTruncatesAndOmitsFlag | bot.py:199-201 | On an inverse account short 250.5 contracts, `Sell Exit` buys back 250 contracts with no reduce-only flag. |
| Scenarios.OutageCloseGivesUp | bot.py:244-263 | When every query fails, closing uses all ten iterations, returns `False` and submits nothing. |
| Scenarios.OutageFailsTheClose | bot.py:105-113 | During an outage, `Buy Exit` answers -1/400 with "failed close position." after ten queries and no order. |
| Scenarios.LowerCaseAlertIsRejected | bot.py:54-59 | The text "buy" is rejected with -1/400 and the notice "signal(buy) is incorrect.", and nothing is traded. |

## Left out

- Flask routing, `request`/`jsonify`/`abort` and the IP allow-list in `before_request` (bot.py:36-47): HTTP framework plumbing. `run` is a pure function from alert text and exchange script to a response.
- The leverage call in `Trader.__init__` (bot.py:131-146): a foreign network call whose reply the bot ignores. The trader is just its derivative kind, `lot` and `max_lot`.
- The `pybybit` client and JSON decoding: replaced by the script of replies and acknowledgements.
- A reply whose body lacks the fields the bot indexes: in Python that raises `KeyError` or `IndexError`. The model assumes every successful reply has the shape of its endpoint (`Exchange.Shaped`).
- Order fields that never vary (the symbol, `Market`, `GoodTillCancel`, `close_on_trigger=False`): they are not represented in `Exchange.OrderRequest`.
- `Notificator` (bot.py:266-279): a best-effort POST to LINE whose failures are swallowed. The model records only the message text of each notification.
- Logging: it has no effect on behaviour.
- config.py and the `__main__` block (bot.py:282-299): settings are parameters, and the block is a manual driver.
- Python float semantics: sizes are exact reals, with no rounding.
- Reconciler.ClosePosition, Reconciler.CreatePosition, Gateway.Run: these require the script to hold enough replies and acknowledgements for the worst case (ten per loop). Every query and every order gets a reply in the model.
- Gateway.Run: the exchange script cannot express an exception raised by the client or by `response.json()` (bot.py:150-152, 161, 194-201, 210). The bot does not catch such an exception in `get_position_size`, `order`, either loop or `run`. That query or order is therefore not retried, no LINE notification is sent, and Flask answers 500. The model only has failures that the bot sees as a status or return code. It retries those, and it answers only 200 or 400.
