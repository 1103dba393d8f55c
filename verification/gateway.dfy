/**
  The webhook handler `run`: it receives a TradingView alert as text, checks
  it against the four signals the bot understands, and drives the trader
  through the close and create steps the signal calls for, stopping at the
  first step that fails. The handler answers with a JSON `result` and an
  HTTP status, and sends a LINE notification on every failure; the model
  returns the notification messages and the trace of every loop it ran.
 */
module Gateway {
  import opened Options
  import E = Exchange
  import R = Reconciler

  /** The alert texts the bot accepts, in the order of its `SIGNALS` list. */
  const Vocabulary: seq<string> := ["Buy", "Sell", "Buy Exit", "Sell Exit"]

  /**
    A signal either enters a position on a side (`Buy`, `Sell`) or exits
    the position held on a side (`Buy Exit`, `Sell Exit`).
   */
  datatype Signal = Entry(side: E.Side) | Exit(side: E.Side)

  /** The alert text of a signal. */
  function Text(sig: Signal): (text: string)
    ensures text in Vocabulary
  {
    match sig
    case Entry(s) => if s.Buy? then "Buy" else "Sell"
    case Exit(s) => if s.Buy? then "Buy Exit" else "Sell Exit"
  }

  /** The membership test `signal not in SIGNALS`, returning the signal a known text names. */
  function Parse(text: string): (r: Option<Signal>)
    ensures r.None? <==> text !in Vocabulary
    ensures r.Some? ==> Text(r.value) == text
  {
    if text == "Buy" then Some(Entry(E.Buy))
    else if text == "Sell" then Some(Entry(E.Sell))
    else if text == "Buy Exit" then Some(Exit(E.Buy))
    else if text == "Sell Exit" then Some(Exit(E.Sell))
    else None
  }

  /** Each signal's text parses back to the signal, and the four texts are pairwise distinct. */
  lemma SignalRoundTrip(sig: Signal)
    ensures Parse(Text(sig)) == Some(sig)
    ensures forall other: Signal :: Text(other) == Text(sig) ==> other == sig
  {
    assert "Buy" != "Sell" && "Buy" != "Buy Exit" && "Buy" != "Sell Exit";
    assert "Sell" != "Buy Exit" && "Sell" != "Sell Exit" && "Buy Exit" != "Sell Exit";
  }

  /** Every text of the vocabulary names a signal, and no other text does. */
  lemma VocabularyIsSignals(text: string)
    ensures text in Vocabulary <==> exists sig: Signal :: Text(sig) == text
  {
    if text in Vocabulary {
      assert Text(Parse(text).value) == text;
    }
  }

  /**
    The steps a signal calls for: entering on a side first closes the
    opposite side and then builds the position on this side; exiting closes
    this side only.
   */
  function Plan(sig: Signal): (plan: seq<R.Goal>)
    ensures 1 <= |plan| <= 2
    ensures plan[0].Close?
    ensures sig.Exit? <==> |plan| == 1
    ensures sig.Exit? ==> plan[0].side == sig.side
    ensures sig.Entry? ==> plan[0].side == sig.side.Opposite() && plan[1] == R.Create(sig.side)
  {
    match sig
    case Entry(s) => [R.Close(s.Opposite()), R.Create(s)]
    case Exit(s) => [R.Close(s)]
  }

  /** The longest plan any signal has. */
  const MaxSteps: nat := 2

  /** Calls `close_position` or `create_position` with the default iteration cap. */
  function Perform(t: R.Trader, goal: R.Goal, script: R.Script): (r: R.LoopRun)
    requires R.Covers(t, script, R.MaxIteration)
    ensures |r.steps| <= R.MaxIteration
  {
    match goal
    case Close(s) => R.ClosePosition(t, s, script, R.MaxIteration)
    case Create(s) => R.CreatePosition(t, s, script, R.MaxIteration)
  }

  /** What is left of the exchange script once run `r` has consumed its queries and orders. */
  function Rest(script: R.Script, r: R.LoopRun): R.Script
    requires |r.steps| <= |script.replies| && |R.Orders(r.steps)| <= |script.acks|
  {
    R.Script(script.replies[|r.steps|..], script.acks[|R.Orders(r.steps)|..])
  }

  /** A script that lasts for one more loop still lasts for the rest after a loop has run. */
  lemma RestCovers(t: R.Trader, script: R.Script, r: R.LoopRun, n: nat)
    requires R.Covers(t, script, n + R.MaxIteration) && |r.steps| <= R.MaxIteration
    ensures R.Covers(t, Rest(script, r), n)
  {
    var rest := Rest(script, r);
    forall i | 0 <= i < |rest.replies| ensures E.Shaped(t.kind, rest.replies[i]) {
      assert rest.replies[i] == script.replies[|r.steps| + i];
    }
  }

  /** The HTTP answer of `run`, the notifications it sent and the loops it ran. */
  datatype Response = Response(result: int, status: int, notices: seq<string>, runs: seq<R.LoopRun>)

  /** The notification for an alert text outside the vocabulary. */
  function IncorrectNotice(text: string): string {
    "signal(" + text + ") is incorrect."
  }

  /** The notification for a failed step. */
  function FailureNotice(goal: R.Goal): string {
    match goal
    case Close(_) => "failed close position."
    case Create(_) => "failed create position."
  }

  /** The answer to a request whose every step succeeded. */
  function Success(runs: seq<R.LoopRun>): Response {
    Response(0, 200, [], runs)
  }

  /** The answer to a request whose last step failed. */
  function Failure(goal: R.Goal, runs: seq<R.LoopRun>): Response {
    Response(-1, 400, [FailureNotice(goal)], runs)
  }

  /**
    An exit signal: one close step; the request succeeds exactly when it
    does, and otherwise reports the failed close.
   */
  function Single(t: R.Trader, goal: R.Goal, script: R.Script): (r: Response)
    requires R.Covers(t, script, R.MaxIteration)
    ensures r.runs == [Perform(t, goal, script)]
    ensures r.status == 200 <==> r.runs[0].ok
    ensures r == if r.status == 200 then Success(r.runs) else Failure(goal, r.runs)
  {
    var only := Perform(t, goal, script);
    if only.ok then Success([only]) else Failure(goal, [only])
  }

  /**
    An entry signal: the close step runs first; only once it succeeded does
    the create step run, on what the close step left of the script. The
    request succeeds exactly when both did, and otherwise reports the step
    that failed.
   */
  function Pair(t: R.Trader, close: R.Goal, create: R.Goal, script: R.Script): (r: Response)
    requires R.Covers(t, script, MaxSteps * R.MaxIteration)
    ensures 1 <= |r.runs| <= 2
    ensures r.runs[0] == Perform(t, close, script)
    ensures |r.runs| == 2 <==> r.runs[0].ok
    ensures |r.runs| == 2 ==> r.runs[1] == Perform(t, create, Rest(script, r.runs[0]))
    ensures r.status == 200 <==> |r.runs| == 2 && r.runs[1].ok
    ensures r.status != 200 ==> !r.runs[|r.runs| - 1].ok
    ensures r == if r.status == 200 then Success(r.runs) else Failure(if |r.runs| == 1 then close else create, r.runs)
  {
    var first := Perform(t, close, script);
    if !first.ok then Failure(close, [first])
    else
      RestCovers(t, script, first, R.MaxIteration);
      var second := Perform(t, create, Rest(script, first));
      if second.ok then Success([first, second]) else Failure(create, [first, second])
  }

  /**
    Drives the trader through the plan of a known signal. The first step
    always runs, and a step runs only once every earlier one succeeded. The
    answer is 0/200 when every step succeeded, or -1/400 with the
    notification of the step that failed, after which nothing else runs.
   */
  function Dispatch(t: R.Trader, sig: Signal, script: R.Script): (r: Response)
    requires R.Covers(t, script, MaxSteps * R.MaxIteration)
    ensures 1 <= |r.runs| <= |Plan(sig)|
    ensures forall i :: 0 <= i < |r.runs| ==> |r.runs[i].steps| <= R.MaxIteration
    ensures r.runs[0] == Perform(t, Plan(sig)[0], script)
    ensures forall i :: 0 <= i < |r.runs| - 1 ==> r.runs[i].ok
    ensures |r.runs| == 2 ==> r.runs[1] == Perform(t, Plan(sig)[1], Rest(script, r.runs[0]))
    ensures r.status == 200 <==> |r.runs| == |Plan(sig)| && r.runs[|r.runs| - 1].ok
    ensures r.status != 200 ==> !r.runs[|r.runs| - 1].ok
    ensures r == if r.status == 200 then Success(r.runs) else Failure(Plan(sig)[|r.runs| - 1], r.runs)
  {
    match sig
    case Exit(s) =>
      assert Plan(sig) == [R.Close(s)];
      Single(t, R.Close(s), script)
    case Entry(s) =>
      assert Plan(sig) == [R.Close(s.Opposite()), R.Create(s)];
      Pair(t, R.Close(s.Opposite()), R.Create(s), script)
  }

  /**
    The webhook handler `run`: a text outside the vocabulary is answered
    -1/400 with one notification and no trading; a known one is
    dispatched. The answer is 0/200 with no notification or -1/400 with
    exactly one.
   */
  function Run(t: R.Trader, text: string, script: R.Script): (r: Response)
    requires R.Covers(t, script, MaxSteps * R.MaxIteration)
    ensures r.status == 200 || r.status == 400
    ensures r.result == (if r.status == 200 then 0 else -1)
    ensures |r.notices| == (if r.status == 200 then 0 else 1)
    ensures text !in Vocabulary ==> r.status == 400 && r.runs == [] && r.notices == [IncorrectNotice(text)]
    ensures text in Vocabulary ==> 1 <= |r.runs| <= MaxSteps
    ensures forall i :: 0 <= i < |r.runs| ==> |r.runs[i].steps| <= R.MaxIteration
  {
    match Parse(text)
    case None => Response(-1, 400, [IncorrectNotice(text)], [])
    case Some(sig) => Dispatch(t, sig, script)
  }

  /** The handler runs the plan of the signal its text names. */
  lemma RunDispatchesSignal(t: R.Trader, sig: Signal, script: R.Script)
    requires R.Covers(t, script, MaxSteps * R.MaxIteration)
    ensures Run(t, Text(sig), script) == Dispatch(t, sig, script)
  {
    SignalRoundTrip(sig);
  }

  /**
    `Buy` and `Sell`: `close_position` on the opposite side first; if it
    fails the answer is -1/400 with "failed close position." and nothing is
    created; otherwise `create_position` on the signal's side runs on the
    rest of the script, and the answer is 0/200 exactly when it succeeds,
    -1/400 with "failed create position." when not.
   */
  lemma EntrySignal(t: R.Trader, s: E.Side, script: R.Script)
    requires R.Covers(t, script, MaxSteps * R.MaxIteration)
    ensures var r := Run(t, Text(Entry(s)), script);
      var close := R.ClosePosition(t, s.Opposite(), script, R.MaxIteration);
      && r.runs[0] == close
      && (!close.ok ==> r == Response(-1, 400, ["failed close position."], [close]))
      && (close.ok ==>
            var create := R.CreatePosition(t, s, Rest(script, close), R.MaxIteration);
            && r.runs == [close, create]
            && (create.ok ==> r == Response(0, 200, [], [close, create]))
            && (!create.ok ==> r == Response(-1, 400, ["failed create position."], [close, create])))
  {
    RunDispatchesSignal(t, Entry(s), script);
    var r := Run(t, Text(Entry(s)), script);
    assert r.runs[0] == Perform(t, R.Close(s.Opposite()), script);
    if |r.runs| == 2 {
      assert r.runs[1] == Perform(t, R.Create(s), Rest(script, r.runs[0]));
    }
  }

  /**
    `Buy Exit` and `Sell Exit`: `close_position` on the signal's side only;
    the answer is 0/200 when it succeeds and -1/400 with "failed close
    position." when not.
   */
  lemma ExitSignal(t: R.Trader, s: E.Side, script: R.Script)
    requires R.Covers(t, script, MaxSteps * R.MaxIteration)
    ensures var r := Run(t, Text(Exit(s)), script);
      var close := R.ClosePosition(t, s, script, R.MaxIteration);
      && (close.ok ==> r == Response(0, 200, [], [close]))
      && (!close.ok ==> r == Response(-1, 400, ["failed close position."], [close]))
  {
    RunDispatchesSignal(t, Exit(s), script);
  }

  /** All orders a request submitted, step after step. */
  function AllOrders(runs: seq<R.LoopRun>): seq<E.OrderRequest> {
    if runs == [] then [] else R.Orders(runs[0].steps) + AllOrders(runs[1..])
  }

  /** All position queries a request made. */
  function AllQueries(runs: seq<R.LoopRun>): nat {
    if runs == [] then 0 else |runs[0].steps| + AllQueries(runs[1..])
  }

  /** Runs of at most `MaxIteration` steps each make at most that many queries and orders apiece. */
  lemma {:induction false} TraceBound(runs: seq<R.LoopRun>)
    requires forall i :: 0 <= i < |runs| ==> |runs[i].steps| <= R.MaxIteration
    ensures |AllOrders(runs)| <= AllQueries(runs) <= |runs| * R.MaxIteration
  {
    if runs != [] {
      TraceBound(runs[1..]);
    }
  }

  /**
    One request makes at most 20 position queries and submits at most 20
    orders: ten iterations for each of at most two steps, and at most one
    order per iteration.
   */
  lemma RequestIsBounded(t: R.Trader, text: string, script: R.Script)
    requires R.Covers(t, script, MaxSteps * R.MaxIteration)
    ensures var r := Run(t, text, script);
      |AllOrders(r.runs)| <= AllQueries(r.runs) <= MaxSteps * R.MaxIteration
  {
    var r := Run(t, text, script);
    TraceBound(r.runs);
  }
}
