/**
  Concrete requests worked through the model: flipping a short to a long,
  exiting a flat side, an inverse-contract close, a request during an
  exchange outage, and a mistyped alert.
 */
module Scenarios {
  import opened Options
  import opened Exchange
  import R = Reconciler
  import G = Gateway

  /** A hedged (linear) account trading 0.001 per order, capped at 0.001. */
  const LinearTrader := R.Trader(Linear, 0.001, 0.001)

  /** A good linear position-list reply. */
  function Positions(long: real, short: real): PositionReply {
    PositionReply(200, 0, PerSide(long, short))
  }

  const Ok := OrderAck(200, 0)

  /** A script whose first reply is `first`, whose later replies are all `later`, and whose every order is accepted. */
  function Replies(first: PositionReply, later: PositionReply): (s: R.Script)
    ensures |s.replies| == |s.acks| == 20
    ensures s.replies[0] == first && forall i :: 1 <= i < 20 ==> s.replies[i] == later
    ensures forall i :: 0 <= i < 20 ==> s.acks[i] == Ok
  {
    R.Script([first] + seq(19, _ => later), seq(20, _ => Ok))
  }

  /**
    `Buy` while short 0.002 and flat long: the short is closed by a
    reduce-only buy of exactly 0.002, then one lot of 0.001 is bought, and
    the answer is 0/200.
   */
  lemma BuyFlipsShortToLong()
    ensures var r := G.Run(LinearTrader, "Buy", Replies(Positions(0.0, 0.002), Positions(0.0, 0.0)));
      && r.result == 0 && r.status == 200 && r.notices == []
      && |r.runs| == 2
      && R.Orders(r.runs[0].steps) == [OrderRequest(Buy, 0.002, Some(true))]
      && R.Orders(r.runs[1].steps) == [OrderRequest(Buy, 0.001, Some(false))]
  {
    var t := LinearTrader;
    var script := Replies(Positions(0.0, 0.002), Positions(0.0, 0.0));
    assert G.Text(G.Entry(Buy)) == "Buy";
    G.EntrySignal(t, Buy, script);
    var close := R.ClosePosition(t, Sell, script, R.MaxIteration);
    var answers := R.Answers(t, Sell, script);
    var accepts := R.Acceptances(script);
    assert answers[0] == Some(0.002) && accepts[0];
    var closing := R.Sent(0.002, OrderRequest(Buy, 0.002, Some(true)), true);
    assert R.StepOf(t, R.Close(Sell), answers[0], accepts[0]) == closing;
    assert close == R.LoopRun(true, [closing]);
    R.VerdictsCons(closing, []);
    assert [closing] + [] == [closing];
    var rest := G.Rest(script, close);
    assert rest.replies[0] == Positions(0.0, 0.0) && rest.acks[0] == Ok;
    var answers2 := R.Answers(t, Buy, rest);
    var accepts2 := R.Acceptances(rest);
    assert answers2[0] == Some(0.0) && accepts2[0];
    var opening := R.Sent(0.0, OrderRequest(Buy, 0.001, Some(false)), true);
    assert R.StepOf(t, R.Create(Buy), answers2[0], accepts2[0]) == opening;
    assert R.CreatePosition(t, Buy, rest, R.MaxIteration) == R.LoopRun(true, [opening]);
    R.VerdictsCons(opening, []);
    assert [opening] + [] == [opening];
  }

  /** `Sell Exit` while the short side is flat: success at once, with no order. */
  lemma SellExitWhenFlat()
    ensures var r := G.Run(LinearTrader, "Sell Exit", Replies(Positions(0.003, 0.0), Positions(0.003, 0.0)));
      && r.result == 0 && r.status == 200 && r.notices == []
      && |r.runs| == 1 && R.Orders(r.runs[0].steps) == []
  {
    var t := LinearTrader;
    var script := Replies(Positions(0.003, 0.0), Positions(0.003, 0.0));
    assert G.Text(G.Exit(Sell)) == "Sell Exit";
    G.ExitSignal(t, Sell, script);
    var answers := R.Answers(t, Sell, script);
    assert answers[0] == Some(0.0);
    assert R.StepOf(t, R.Close(Sell), answers[0], R.Acceptances(script)[0]) == R.Settled(0.0);
    assert R.ClosePosition(t, Sell, script, R.MaxIteration) == R.LoopRun(true, [R.Settled(0.0)]);
    R.VerdictsCons(R.Settled(0.0), []);
    assert [R.Settled(0.0)] + [] == [R.Settled(0.0)];
  }

  /**
    An inverse account short 250.5 contracts: `Sell Exit` buys back the
    truncated 250 contracts, and the request carries no reduce-only flag.
   */
  lemma InverseExitTruncatesAndOmitsFlag()
    ensures var t := R.Trader(Inverse, 100.0, 100.0);
      var short := PositionReply(200, 0, Net(Some(Sell), 250.5));
      var r := G.Run(t, "Sell Exit", Replies(short, short));
      && r.status == 200
      && R.Orders(r.runs[0].steps) == [OrderRequest(Buy, 250.0, None)]
  {
    var t := R.Trader(Inverse, 100.0, 100.0);
    var short := PositionReply(200, 0, Net(Some(Sell), 250.5));
    var script := Replies(short, short);
    assert G.Text(G.Exit(Sell)) == "Sell Exit";
    G.ExitSignal(t, Sell, script);
    var answers := R.Answers(t, Sell, script);
    assert answers[0] == Some(250.5);
    assert Trunc(250.5) == 250;
    var closing := R.Sent(250.5, OrderRequest(Buy, 250.0, None), true);
    assert R.StepOf(t, R.Close(Sell), answers[0], R.Acceptances(script)[0]) == closing;
    assert R.ClosePosition(t, Sell, script, R.MaxIteration) == R.LoopRun(true, [closing]);
    R.VerdictsCons(closing, []);
    assert [closing] + [] == [closing];
  }

  /** A position-list reply during an exchange outage. */
  const Down := PositionReply(503, 0, PerSide(0.0, 0.0))

  /** During an outage the long side's close runs all ten iterations and sends nothing. */
  lemma OutageCloseGivesUp()
    ensures var close := R.ClosePosition(LinearTrader, Buy, Replies(Down, Down), R.MaxIteration);
      !close.ok && |close.steps| == R.MaxIteration && R.Orders(close.steps) == []
  {
    var t := LinearTrader;
    var script := Replies(Down, Down);
    assert R.QueriesFail(t, Buy, script, 0, R.Iterations(R.MaxIteration)) by {
      forall i | 0 <= i < R.MaxIteration ensures PositionSize(t.kind, Buy, script.replies[i]).None? {
        assert script.replies[i] == Down;
      }
    }
    R.AllQueriesFailGivesUp(t, R.Close(Buy), script, R.MaxIteration);
  }

  /**
    `Buy Exit` while every position query fails: ten iterations, no order,
    and the answer is -1/400 with "failed close position.".
   */
  lemma OutageFailsTheClose()
    ensures var r := G.Run(LinearTrader, "Buy Exit", Replies(Down, Down));
      && r.result == -1 && r.status == 400 && r.notices == ["failed close position."]
      && |r.runs| == 1 && |r.runs[0].steps| == R.MaxIteration && R.Orders(r.runs[0].steps) == []
  {
    assert G.Text(G.Exit(Buy)) == "Buy Exit";
    G.ExitSignal(LinearTrader, Buy, Replies(Down, Down));
    OutageCloseGivesUp();
  }

  /** A mistyped alert is rejected with its own text in the notification, and nothing is traded. */
  lemma LowerCaseAlertIsRejected()
    ensures var r := G.Run(LinearTrader, "buy", Replies(Positions(0.0, 0.0), Positions(0.0, 0.0)));
      && r.result == -1 && r.status == 400 && r.runs == []
      && r.notices == ["signal(buy) is incorrect."]
  {
    assert "buy" !in G.Vocabulary by {
      assert "buy"[0] != "Buy"[0];
    }
    assert G.IncorrectNotice("buy") == "signal(buy) is incorrect.";
  }
}
