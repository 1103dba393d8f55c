/**
  The trader's two bounded retry loops, `close_position` and
  `create_position`. Both re-query the resting size of one side on every
  iteration, stop as soon as the position needs nothing or an order is
  accepted, skip an iteration whose query failed, and give up after the
  iteration cap. They differ only in what they decide from a size, so the
  loop is written once (`Loop`) over a `Goal`.

  The exchange is a script: the reply to each position query the trader
  makes and the acknowledgement of each order it submits, in the order they
  happen. The loop itself reads the script through the projection of each
  reply to a size (`Answers`) and of each acknowledgement to a verdict
  (`Acceptances`).
 */
module Reconciler {
  import opened Options
  import opened Exchange

  /** The default `max_iteration` of both loops. */
  const MaxIteration: nat := 10

  /** The settings a trader is built with that the loops read. */
  datatype Trader = Trader(kind: DerivKind, lot: real, maxLot: real)

  /** What a loop drives the position of `side` towards. */
  datatype Goal = Close(side: Side) | Create(side: Side)

  /** What one iteration does once it knows the resting size. */
  datatype Decision = Done | Submit(side: Side, qty: real, reduceOnly: bool)

  /**
    Closing is done when the side is flat, otherwise it sells off (or buys
    back) the whole resting size, reduce-only. Creating is done when the side
    is at or above the cap, otherwise it adds one lot on the same side.
   */
  function Decide(t: Trader, goal: Goal, size: real): Decision {
    match goal
    case Close(s) => if size == 0.0 then Done else Submit(s.Opposite(), size, true)
    case Create(s) => if size >= t.maxLot then Done else Submit(s, t.lot, false)
  }

  /** Scripted exchange: position-query replies and order acknowledgements, in the order they are consumed. */
  datatype Script = Script(replies: seq<PositionReply>, acks: seq<OrderAck>)

  /** The trace of one iteration. */
  datatype Step =
    | Skipped                                               // the query failed
    | Settled(size: real)                                   // nothing to do at this size
    | Sent(size: real, order: OrderRequest, accepted: bool) // an order was submitted

  datatype LoopRun = LoopRun(ok: bool, steps: seq<Step>)

  /** A step after which the loop returns `True`. */
  predicate Final(s: Step) {
    s.Settled? || (s.Sent? && s.accepted)
  }

  /** No step but the last one ends the loop. */
  predicate OnlyLastFinal(steps: seq<Step>) {
    forall i :: 0 <= i < |steps| - 1 ==> !Final(steps[i])
  }

  /** The orders submitted during a run, in order. */
  function Orders(steps: seq<Step>): (os: seq<OrderRequest>)
    ensures |os| <= |steps|
  {
    if steps == [] then []
    else (if steps[0].Sent? then [steps[0].order] else []) + Orders(steps[1..])
  }

  /** The exchange's verdict on each submitted order, in order. */
  function Verdicts(steps: seq<Step>): (vs: seq<bool>)
    ensures |vs| == |Orders(steps)|
  {
    if steps == [] then []
    else (if steps[0].Sent? then [steps[0].accepted] else []) + Verdicts(steps[1..])
  }

  /** Number of iterations of Python's `range(maxIteration)`. */
  function Iterations(maxIteration: int): (n: nat)
    ensures maxIteration <= 0 ==> n == 0
    ensures 0 <= maxIteration ==> n == maxIteration
  {
    if maxIteration <= 0 then 0 else maxIteration
  }

  /** Every good reply of the script has the shape of the trader's endpoint. */
  predicate WellShaped(t: Trader, script: Script) {
    forall i :: 0 <= i < |script.replies| ==> Shaped(t.kind, script.replies[i])
  }

  /** The script lasts for `n` iterations from the start. */
  predicate Covers(t: Trader, script: Script, n: nat) {
    n <= |script.replies| && n <= |script.acks| && WellShaped(t, script)
  }

  /** What each query of the script reports for `side`. */
  function Answers(t: Trader, side: Side, script: Script): (r: seq<Option<real>>)
    requires WellShaped(t, script)
    ensures |r| == |script.replies|
    ensures forall i :: 0 <= i < |r| ==> r[i] == PositionSize(t.kind, side, script.replies[i])
  {
    seq(|script.replies|, i requires 0 <= i < |script.replies| => PositionSize(t.kind, side, script.replies[i]))
  }

  /** Whether the exchange accepts each order of the script. */
  function Acceptances(script: Script): (r: seq<bool>)
    ensures |r| == |script.acks|
    ensures forall i :: 0 <= i < |r| ==> r[i] == Accepted(script.acks[i])
  {
    seq(|script.acks|, i requires 0 <= i < |script.acks| => Accepted(script.acks[i]))
  }

  /**
    One iteration: skip when the query failed, otherwise decide, and submit
    the decided order, which the exchange accepts or not.
   */
  function StepOf(t: Trader, goal: Goal, answer: Option<real>, accepted: bool): Step {
    match answer
    case None => Skipped
    case Some(size) =>
      match Decide(t, goal, size)
      case Done => Settled(size)
      case Submit(side, qty, reduceOnly) => Sent(size, OrderFor(t.kind, side, qty, reduceOnly), accepted)
  }

  /** Step `s` is what an iteration does when its query answered `answer`. */
  predicate StepAgrees(t: Trader, goal: Goal, answer: Option<real>, s: Step) {
    match answer
    case None => s == Skipped
    case Some(size) =>
      match Decide(t, goal, size)
      case Done => s == Settled(size)
      case Submit(side, qty, reduceOnly) =>
        s.Sent? && s.size == size && s.order == OrderFor(t.kind, side, qty, reduceOnly)
  }

  /** Each step of `steps` is decided by the answer it read, starting at answer `q`. */
  predicate Follows(t: Trader, goal: Goal, answers: seq<Option<real>>, q: nat, steps: seq<Step>) {
    q + |steps| <= |answers| && forall i :: 0 <= i < |steps| ==> StepAgrees(t, goal, answers[q + i], steps[i])
  }

  /** Each verdict of `vs` is the acceptance it read, starting at acceptance `a`. */
  predicate Judged(accepts: seq<bool>, a: nat, vs: seq<bool>) {
    a + |vs| <= |accepts| && forall k :: 0 <= k < |vs| ==> vs[k] == accepts[a + k]
  }

  lemma StepOfAgrees(t: Trader, goal: Goal, answer: Option<real>, accepted: bool)
    ensures StepAgrees(t, goal, answer, StepOf(t, goal, answer, accepted))
    ensures StepOf(t, goal, answer, accepted).Sent? ==> StepOf(t, goal, answer, accepted).accepted == accepted
  {
  }

  lemma FollowsCons(t: Trader, goal: Goal, answers: seq<Option<real>>, q: nat, s: Step, rest: seq<Step>)
    requires q < |answers| && StepAgrees(t, goal, answers[q], s)
    requires Follows(t, goal, answers, q + 1, rest)
    ensures Follows(t, goal, answers, q, [s] + rest)
  {
    var steps := [s] + rest;
    forall i | 1 <= i < |steps| ensures StepAgrees(t, goal, answers[q + i], steps[i]) {
      assert steps[i] == rest[i - 1];
      assert q + 1 + (i - 1) == q + i;
    }
  }

  lemma JudgedCons(accepts: seq<bool>, a: nat, vs: seq<bool>)
    requires a < |accepts| && Judged(accepts, a + 1, vs)
    ensures Judged(accepts, a, [accepts[a]] + vs)
  {
    forall k | 1 <= k < |vs| + 1 ensures ([accepts[a]] + vs)[k] == accepts[a + k] {
      assert ([accepts[a]] + vs)[k] == vs[k - 1];
      assert a + 1 + (k - 1) == a + k;
    }
  }

  lemma VerdictsCons(s: Step, rest: seq<Step>)
    ensures Verdicts([s] + rest) == (if s.Sent? then [s.accepted] else []) + Verdicts(rest)
    ensures Orders([s] + rest) == (if s.Sent? then [s.order] else []) + Orders(rest)
  {
    assert ([s] + rest)[1..] == rest;
  }

  /** Prefixing a non-final step to a run that stops at its first final step keeps it so. */
  lemma OnlyLastFinalCons(s: Step, rest: seq<Step>)
    requires !Final(s) && OnlyLastFinal(rest)
    ensures OnlyLastFinal([s] + rest)
  {
    forall i | 1 <= i < |rest| ensures !Final(([s] + rest)[i]) {
      assert ([s] + rest)[i] == rest[i - 1];
    }
  }

  /**
    The retry loop with `left` iterations to go, whose next query reads
    answer `q` and whose next order reads verdict `a`. It makes one query
    per iteration and at most one order per iteration; each step is what its
    answer calls for and each order is judged by the next verdict in turn;
    it returns `True` exactly when its last iteration settled or had its
    order accepted, never goes on after such an iteration, and returns
    `False` only once every iteration is used up.
   */
  function Loop(t: Trader, goal: Goal, answers: seq<Option<real>>, accepts: seq<bool>, q: nat, a: nat, left: nat): (r: LoopRun)
    requires q + left <= |answers| && a + left <= |accepts|
    ensures |r.steps| <= left
    ensures r.ok <==> |r.steps| > 0 && Final(r.steps[|r.steps| - 1])
    ensures !r.ok ==> |r.steps| == left
    ensures OnlyLastFinal(r.steps)
    decreases left
  {
    if left == 0 then LoopRun(false, [])
    else
      var s := StepOf(t, goal, answers[q], accepts[a]);
      if Final(s) then LoopRun(true, [s])
      else
        var rest := Loop(t, goal, answers, accepts, q + 1, if s.Sent? then a + 1 else a, left - 1);
        OnlyLastFinalCons(s, rest.steps);
        LoopRun(rest.ok, [s] + rest.steps)
  }

  /**
    Each step of a loop is what the answer it read calls for, and each
    order it submits is judged by the next acceptance in turn.
   */
  lemma LoopTrace(t: Trader, goal: Goal, answers: seq<Option<real>>, accepts: seq<bool>, q: nat, a: nat, left: nat)
    requires q + left <= |answers| && a + left <= |accepts|
    ensures Follows(t, goal, answers, q, Loop(t, goal, answers, accepts, q, a, left).steps)
    ensures Judged(accepts, a, Verdicts(Loop(t, goal, answers, accepts, q, a, left).steps))
  {
    LoopFollows(t, goal, answers, accepts, q, a, left);
    LoopJudged(t, goal, answers, accepts, q, a, left);
  }

  /** Each step of a loop is what the answer of its own iteration calls for. */
  lemma {:induction false} LoopFollows(t: Trader, goal: Goal, answers: seq<Option<real>>, accepts: seq<bool>, q: nat, a: nat, left: nat)
    requires q + left <= |answers| && a + left <= |accepts|
    ensures Follows(t, goal, answers, q, Loop(t, goal, answers, accepts, q, a, left).steps)
    decreases left
  {
    if left > 0 {
      var s := StepOf(t, goal, answers[q], accepts[a]);
      if !Final(s) {
        LoopFollows(t, goal, answers, accepts, q + 1, if s.Sent? then a + 1 else a, left - 1);
      }
      FollowsUnfold(t, goal, answers, accepts, q, a, left);
    }
  }

  /** One iteration of `LoopFollows`: the first step follows its answer, the rest follow theirs. */
  lemma FollowsUnfold(t: Trader, goal: Goal, answers: seq<Option<real>>, accepts: seq<bool>, q: nat, a: nat, left: nat)
    requires q + left <= |answers| && a + left <= |accepts| && 0 < left
    requires var s := StepOf(t, goal, answers[q], accepts[a]);
      !Final(s) ==> Follows(t, goal, answers, q + 1, Loop(t, goal, answers, accepts, q + 1, if s.Sent? then a + 1 else a, left - 1).steps)
    ensures Follows(t, goal, answers, q, Loop(t, goal, answers, accepts, q, a, left).steps)
  {
    var s := StepOf(t, goal, answers[q], accepts[a]);
    StepOfAgrees(t, goal, answers[q], accepts[a]);
    var rest := if Final(s) then [] else Loop(t, goal, answers, accepts, q + 1, if s.Sent? then a + 1 else a, left - 1).steps;
    assert Loop(t, goal, answers, accepts, q, a, left).steps == [s] + rest;
    FollowsCons(t, goal, answers, q, s, rest);
  }

  /** The n-th order of a loop is judged by the n-th acceptance it reads. */
  lemma {:induction false} LoopJudged(t: Trader, goal: Goal, answers: seq<Option<real>>, accepts: seq<bool>, q: nat, a: nat, left: nat)
    requires q + left <= |answers| && a + left <= |accepts|
    ensures Judged(accepts, a, Verdicts(Loop(t, goal, answers, accepts, q, a, left).steps))
    decreases left
  {
    if left > 0 {
      var s := StepOf(t, goal, answers[q], accepts[a]);
      if !Final(s) {
        LoopJudged(t, goal, answers, accepts, q + 1, if s.Sent? then a + 1 else a, left - 1);
      }
      JudgedUnfold(t, goal, answers, accepts, q, a, left);
    }
  }

  /** One iteration of `LoopJudged`: the first step's order reads acceptance `a`, later ones the next in turn. */
  lemma JudgedUnfold(t: Trader, goal: Goal, answers: seq<Option<real>>, accepts: seq<bool>, q: nat, a: nat, left: nat)
    requires q + left <= |answers| && a + left <= |accepts| && 0 < left
    requires var s := StepOf(t, goal, answers[q], accepts[a]);
      !Final(s) ==> Judged(accepts, if s.Sent? then a + 1 else a, Verdicts(Loop(t, goal, answers, accepts, q + 1, if s.Sent? then a + 1 else a, left - 1).steps))
    ensures Judged(accepts, a, Verdicts(Loop(t, goal, answers, accepts, q, a, left).steps))
  {
    var s := StepOf(t, goal, answers[q], accepts[a]);
    StepOfAgrees(t, goal, answers[q], accepts[a]);
    var rest := if Final(s) then [] else Loop(t, goal, answers, accepts, q + 1, if s.Sent? then a + 1 else a, left - 1).steps;
    assert Loop(t, goal, answers, accepts, q, a, left).steps == [s] + rest;
    JudgedStep(accepts, a, s, rest);
  }

  /** A step whose order, if any, read acceptance `a`, followed by steps judged from the next acceptance on. */
  lemma JudgedStep(accepts: seq<bool>, a: nat, s: Step, rest: seq<Step>)
    requires s.Sent? ==> a < |accepts| && s.accepted == accepts[a]
    requires Judged(accepts, if s.Sent? then a + 1 else a, Verdicts(rest))
    ensures Judged(accepts, a, Verdicts([s] + rest))
  {
    VerdictsCons(s, rest);
    if s.Sent? {
      JudgedCons(accepts, a, Verdicts(rest));
    } else {
      assert [] + Verdicts(rest) == Verdicts(rest);
    }
  }

  /** A loop of `n` iterations over a fresh script. */
  function Reconcile(t: Trader, goal: Goal, script: Script, n: nat): LoopRun
    requires Covers(t, script, n)
  {
    Loop(t, goal, Answers(t, goal.side, script), Acceptances(script), 0, 0, n)
  }

  /** Every order a closing run submits reduces the whole size its query reported, on the opposite side. */
  lemma CloseSentSteps(t: Trader, side: Side, answers: seq<Option<real>>, steps: seq<Step>)
    requires Follows(t, Close(side), answers, 0, steps)
    ensures forall i :: 0 <= i < |steps| && steps[i].Sent? ==>
              && answers[i] == Some(steps[i].size)
              && steps[i].size != 0.0
              && steps[i].order == OrderFor(t.kind, side.Opposite(), steps[i].size, true)
  {
    forall i | 0 <= i < |steps| && steps[i].Sent?
      ensures answers[i] == Some(steps[i].size)
      ensures steps[i].size != 0.0
      ensures steps[i].order == OrderFor(t.kind, side.Opposite(), steps[i].size, true)
    {
      assert StepAgrees(t, Close(side), answers[0 + i], steps[i]);
    }
  }

  /** Every order a creating run submits adds one lot on its side, below the cap its query reported. */
  lemma CreateSentSteps(t: Trader, side: Side, answers: seq<Option<real>>, steps: seq<Step>)
    requires Follows(t, Create(side), answers, 0, steps)
    ensures forall i :: 0 <= i < |steps| && steps[i].Sent? ==>
              && answers[i] == Some(steps[i].size)
              && steps[i].size < t.maxLot
              && steps[i].order == OrderFor(t.kind, side, t.lot, false)
  {
    forall i | 0 <= i < |steps| && steps[i].Sent?
      ensures answers[i] == Some(steps[i].size)
      ensures steps[i].size < t.maxLot
      ensures steps[i].order == OrderFor(t.kind, side, t.lot, false)
    {
      assert StepAgrees(t, Create(side), answers[0 + i], steps[i]);
    }
  }

  /** `Trader.close_position(side, max_iteration)`. */
  function ClosePosition(t: Trader, side: Side, script: Script, maxIteration: int): (r: LoopRun)
    requires Covers(t, script, Iterations(maxIteration))
    ensures |r.steps| <= Iterations(maxIteration)
    ensures !r.ok ==> |r.steps| == Iterations(maxIteration)
    ensures r.ok <==> |r.steps| > 0 && Final(r.steps[|r.steps| - 1])
  {
    Reconcile(t, Close(side), script, Iterations(maxIteration))
  }

  /** `Trader.create_position(side, max_iteration)`. */
  function CreatePosition(t: Trader, side: Side, script: Script, maxIteration: int): (r: LoopRun)
    requires Covers(t, script, Iterations(maxIteration))
    ensures |r.steps| <= Iterations(maxIteration)
    ensures !r.ok ==> |r.steps| == Iterations(maxIteration)
    ensures r.ok <==> |r.steps| > 0 && Final(r.steps[|r.steps| - 1])
  {
    Reconcile(t, Create(side), script, Iterations(maxIteration))
  }

  /**
    Every order `close_position` submits is on the opposite side, for
    exactly the non-zero size the query of that iteration reported, and
    reduce-only as far as the derivative kind sends the flag.
   */
  lemma CloseSubmitsOppositeReduceOnly(t: Trader, side: Side, script: Script, maxIteration: int)
    requires Covers(t, script, Iterations(maxIteration))
    ensures var r := ClosePosition(t, side, script, maxIteration);
      forall i :: 0 <= i < |r.steps| && r.steps[i].Sent? ==>
        && PositionSize(t.kind, side, script.replies[i]) == Some(r.steps[i].size)
        && r.steps[i].size != 0.0
        && r.steps[i].order == OrderFor(t.kind, side.Opposite(), r.steps[i].size, true)
  {
    var answers := Answers(t, side, script);
    LoopTrace(t, Close(side), answers, Acceptances(script), 0, 0, Iterations(maxIteration));
    CloseSentSteps(t, side, answers, ClosePosition(t, side, script, maxIteration).steps);
  }

  /**
    Every order `create_position` submits is one lot on the same side, not
    reduce-only, and only after the query of that iteration reported a size
    below the cap.
   */
  lemma CreateSubmitsOneLot(t: Trader, side: Side, script: Script, maxIteration: int)
    requires Covers(t, script, Iterations(maxIteration))
    ensures var r := CreatePosition(t, side, script, maxIteration);
      forall i :: 0 <= i < |r.steps| && r.steps[i].Sent? ==>
        && PositionSize(t.kind, side, script.replies[i]) == Some(r.steps[i].size)
        && r.steps[i].size < t.maxLot
        && r.steps[i].order == OrderFor(t.kind, side, t.lot, false)
  {
    var answers := Answers(t, side, script);
    LoopTrace(t, Create(side), answers, Acceptances(script), 0, 0, Iterations(maxIteration));
    CreateSentSteps(t, side, answers, CreatePosition(t, side, script, maxIteration).steps);
  }

  // ---------------------------------------------------------------------
  // How a run relates to the script
  // ---------------------------------------------------------------------

  /** The verdicts of consecutive runs of steps concatenate. */
  lemma {:induction false} VerdictsAppend(xs: seq<Step>, ys: seq<Step>)
    ensures Verdicts(xs + ys) == Verdicts(xs) + Verdicts(ys)
  {
    if xs == [] {
      assert xs + ys == ys;
    } else {
      var s, tl := xs[0], xs[1..];
      assert xs + ys == [s] + (tl + ys);
      assert xs == [s] + tl;
      VerdictsCons(s, tl + ys);
      VerdictsCons(s, tl);
      VerdictsAppend(tl, ys);
      if s.Sent? {
        assert [s.accepted] + (Verdicts(tl) + Verdicts(ys)) == ([s.accepted] + Verdicts(tl)) + Verdicts(ys);
      } else {
        assert [] + Verdicts(tl) == Verdicts(tl);
        assert [] + Verdicts(tl + ys) == Verdicts(tl + ys);
      }
    }
  }

  /** Steps none of which is final carry only refusals. */
  lemma {:induction false} NoFinalAllRefused(steps: seq<Step>)
    requires forall i :: 0 <= i < |steps| ==> !Final(steps[i])
    ensures forall k :: 0 <= k < |Verdicts(steps)| ==> !Verdicts(steps)[k]
  {
    if steps != [] {
      NoFinalAllRefused(steps[1..]);
      assert forall k :: 0 <= k < |Verdicts(steps[1..])| ==> !Verdicts(steps[1..])[k];
    }
  }

  /**
    Only the final step of a run can carry an accepted verdict: the verdict
    of the last order is the last step's when that step submitted, and any
    accepted verdict is that one.
   */
  lemma VerdictsOfRun(steps: seq<Step>)
    requires OnlyLastFinal(steps)
    ensures steps != [] && steps[|steps| - 1].Sent? ==>
      Verdicts(steps) != [] && Verdicts(steps)[|Verdicts(steps)| - 1] == steps[|steps| - 1].accepted
    ensures forall k :: 0 <= k < |Verdicts(steps)| && Verdicts(steps)[k] ==>
      k == |Verdicts(steps)| - 1 && steps[|steps| - 1].Sent? && steps[|steps| - 1].accepted
  {
    if steps != [] {
      var init := steps[..|steps| - 1];
      var last := steps[|steps| - 1];
      assert steps == init + [last];
      VerdictsAppend(init, [last]);
      NoFinalAllRefused(init);
      VerdictsCons(last, []);
      assert [last] + [] == [last];
    }
  }

  /**
    The k-th order a run submits is judged by the k-th acknowledgement of
    the script, and exactly the last one of a successful run that ended on
    a submit was accepted; every other one was refused.
   */
  lemma OnlyLastOrderAccepted(t: Trader, goal: Goal, script: Script, n: nat)
    requires Covers(t, script, n)
    ensures var r := Reconcile(t, goal, script, n);
      && |Orders(r.steps)| <= |script.acks|
      && forall k :: 0 <= k < |Orders(r.steps)| ==>
           (Accepted(script.acks[k]) <==> k == |Orders(r.steps)| - 1 && r.ok && r.steps[|r.steps| - 1].Sent?)
  {
    var r := Reconcile(t, goal, script, n);
    var accepts := Acceptances(script);
    LoopTrace(t, goal, Answers(t, goal.side, script), accepts, 0, 0, n);
    RunAcceptsOnlyLast(accepts, r.ok, r.steps);
  }

  /** The reasoning of `OnlyLastOrderAccepted` on a run given by its properties alone. */
  lemma RunAcceptsOnlyLast(accepts: seq<bool>, ok: bool, steps: seq<Step>)
    requires Judged(accepts, 0, Verdicts(steps)) && OnlyLastFinal(steps)
    requires ok <==> |steps| > 0 && Final(steps[|steps| - 1])
    ensures |Orders(steps)| <= |accepts|
    ensures forall k :: 0 <= k < |Orders(steps)| ==>
      (accepts[k] <==> k == |Orders(steps)| - 1 && ok && steps[|steps| - 1].Sent?)
  {
    VerdictsOfRun(steps);
    var vs := Verdicts(steps);
    forall k | 0 <= k < |Orders(steps)|
      ensures accepts[k] <==> k == |Orders(steps)| - 1 && ok && steps[|steps| - 1].Sent?
    {
      assert vs[k] == accepts[0 + k];
    }
  }

  // ---------------------------------------------------------------------
  // Retry tolerance and giving up
  // ---------------------------------------------------------------------

  /** The queries reading answers `q` up to (not including) `q + k` all failed. */
  predicate NoAnswer(answers: seq<Option<real>>, q: nat, k: nat) {
    q + k <= |answers| && forall i :: q <= i < q + k ==> answers[i].None?
  }

  /** The steps that read failed answers are skips. */
  lemma SkippedPrefix(t: Trader, goal: Goal, answers: seq<Option<real>>, q: nat, steps: seq<Step>, k: nat)
    requires Follows(t, goal, answers, q, steps) && NoAnswer(answers, q, k)
    ensures forall i :: 0 <= i < k && i < |steps| ==> steps[i] == Skipped
  {
    forall i | 0 <= i < k && i < |steps| ensures steps[i] == Skipped {
      assert StepAgrees(t, goal, answers[q + i], steps[i]);
    }
  }

  /** A step that read an answer needing nothing settles; one whose order was accepted is final too. */
  lemma AnsweredStepIsFinal(t: Trader, goal: Goal, answer: Option<real>, s: Step, accepted: bool)
    requires answer.Some? && StepAgrees(t, goal, answer, s) && (s.Sent? ==> s.accepted == accepted)
    requires Decide(t, goal, answer.value).Done? || accepted
    ensures Final(s)
    ensures Decide(t, goal, answer.value).Done? ==> s == Settled(answer.value)
  {
  }

  /**
    Failed queries are skipped without an order but each uses up an
    iteration: when the first `k` queries fail and query `k` answers, the
    run spends its first `k` steps skipping.
   */
  lemma LoopSkipsFailedQueries(t: Trader, goal: Goal, answers: seq<Option<real>>, accepts: seq<bool>, q: nat, a: nat, left: nat, k: nat)
    requires q + left <= |answers| && a + left <= |accepts|
    requires k < left && NoAnswer(answers, q, k) && answers[q + k].Some?
    ensures var r := Loop(t, goal, answers, accepts, q, a, left);
      && |r.steps| > k
      && (forall i :: 0 <= i < k ==> r.steps[i] == Skipped)
  {
    var r := Loop(t, goal, answers, accepts, q, a, left);
    LoopTrace(t, goal, answers, accepts, q, a, left);
    SkippedPrefix(t, goal, answers, q, r.steps, k);
    if r.ok {
      assert r.steps[|r.steps| - 1] != Skipped;
    }
  }

  /**
    After skipping its failed queries, the run succeeds at step `k` when
    that answer needs nothing (settling without an order) or the first
    order is accepted.
   */
  lemma LoopStopsAtFirstAnswer(t: Trader, goal: Goal, answers: seq<Option<real>>, accepts: seq<bool>, q: nat, a: nat, left: nat, k: nat)
    requires q + left <= |answers| && a + left <= |accepts|
    requires k < left && NoAnswer(answers, q, k) && answers[q + k].Some?
    requires Decide(t, goal, answers[q + k].value).Done? || accepts[a]
    ensures var r := Loop(t, goal, answers, accepts, q, a, left);
      && r.ok && |r.steps| == k + 1
      && (forall i :: 0 <= i < k ==> r.steps[i] == Skipped)
      && (Decide(t, goal, answers[q + k].value).Done? ==> r.steps[k] == Settled(answers[q + k].value) && Orders(r.steps) == [])
  {
    var steps := Loop(t, goal, answers, accepts, q, a, left).steps;
    LoopSkipsFailedQueries(t, goal, answers, accepts, q, a, left, k);
    LoopTrace(t, goal, answers, accepts, q, a, left);
    assert Follows(t, goal, answers, q, steps) && Judged(accepts, a, Verdicts(steps));
    AnsweredStepIsLast(t, goal, answers, accepts, q, a, steps, k);
    if Decide(t, goal, answers[q + k].value).Done? {
      SettledRunHasNoOrders(steps, k);
    }
  }

  /**
    In a run whose first `k` steps skipped, step `k` ends the run when its
    answer needs nothing or the first order is accepted, and it settles in
    the first case.
   */
  lemma AnsweredStepIsLast(t: Trader, goal: Goal, answers: seq<Option<real>>, accepts: seq<bool>, q: nat, a: nat, steps: seq<Step>, k: nat)
    requires Follows(t, goal, answers, q, steps) && Judged(accepts, a, Verdicts(steps)) && OnlyLastFinal(steps)
    requires k < |steps| && (forall i :: 0 <= i < k ==> steps[i] == Skipped) && answers[q + k].Some?
    requires Decide(t, goal, answers[q + k].value).Done? || (a < |accepts| && accepts[a])
    ensures Final(steps[k]) && |steps| == k + 1
    ensures Decide(t, goal, answers[q + k].value).Done? ==> steps[k] == Settled(answers[q + k].value)
  {
    assert StepAgrees(t, goal, answers[q + k], steps[k]);
    if steps[k].Sent? {
      VerdictsAfterSkips(steps, k);
      assert Verdicts(steps)[0] == accepts[a + 0];
    }
    AnsweredStepIsFinal(t, goal, answers[q + k], steps[k], a < |accepts| && accepts[a]);
    FinalIsLast(steps, k);
  }

  /** A run that skipped up to its last step and then settled submitted nothing. */
  lemma SettledRunHasNoOrders(steps: seq<Step>, k: nat)
    requires |steps| == k + 1 && steps[k].Settled?
    requires forall i :: 0 <= i < k ==> steps[i] == Skipped
    ensures Orders(steps) == []
  {
    forall i | 0 <= i < |steps| ensures !steps[i].Sent? {
      if i < k {
        assert steps[i] == Skipped;
      }
    }
    NoSendNoOrders(steps);
  }

  /** In a run that stops at its first final step, a final step is the last one. */
  lemma FinalIsLast(steps: seq<Step>, k: nat)
    requires OnlyLastFinal(steps) && k < |steps| && Final(steps[k])
    ensures k == |steps| - 1
  {
  }

  /** The first verdict of a run whose first `k` steps skipped is that of step `k`, when it submitted. */
  lemma {:induction false} VerdictsAfterSkips(steps: seq<Step>, k: nat)
    requires k < |steps| && steps[k].Sent?
    requires forall i :: 0 <= i < k ==> steps[i] == Skipped
    ensures Verdicts(steps) != [] && Verdicts(steps)[0] == steps[k].accepted
    decreases k
  {
    if k > 0 {
      var tl := steps[1..];
      forall i | 0 <= i < k - 1 ensures tl[i] == Skipped {
        assert tl[i] == steps[i + 1];
      }
      VerdictsAfterSkips(tl, k - 1);
      assert Verdicts(steps) == Verdicts(tl);
    }
  }

  /** When every query fails, the loop gives up after its last iteration without submitting anything. */
  lemma LoopAllQueriesFail(t: Trader, goal: Goal, answers: seq<Option<real>>, accepts: seq<bool>, q: nat, a: nat, left: nat)
    requires q + left <= |answers| && a + left <= |accepts|
    requires NoAnswer(answers, q, left)
    ensures var r := Loop(t, goal, answers, accepts, q, a, left);
      !r.ok && |r.steps| == left && Orders(r.steps) == []
  {
    var r := Loop(t, goal, answers, accepts, q, a, left);
    LoopTrace(t, goal, answers, accepts, q, a, left);
    forall i | 0 <= i < |r.steps| ensures r.steps[i] == Skipped {
      assert StepAgrees(t, goal, answers[q + i], r.steps[i]);
    }
    NoSendNoOrders(r.steps);
  }

  /** A run none of whose steps submitted has no orders. */
  lemma {:induction false} NoSendNoOrders(steps: seq<Step>)
    requires forall i :: 0 <= i < |steps| ==> !steps[i].Sent?
    ensures Orders(steps) == []
  {
    if steps != [] {
      NoSendNoOrders(steps[1..]);
    }
  }

  /** The queries reading replies `q` up to (not including) `q + k` all failed. */
  predicate QueriesFail(t: Trader, side: Side, script: Script, q: nat, k: nat)
    requires WellShaped(t, script)
  {
    q + k <= |script.replies|
    && forall i :: q <= i < q + k ==> PositionSize(t.kind, side, script.replies[i]).None?
  }

  /**
    `close_position` retries through failed queries: when the first `k`
    queries fail and a later one within the cap answers, the loop skips `k`
    iterations and succeeds on the answer if the side is flat or the first
    order is accepted.
   */
  lemma CloseRetriesFailedQueries(t: Trader, side: Side, script: Script, maxIteration: int, k: nat)
    requires Covers(t, script, Iterations(maxIteration))
    requires k < Iterations(maxIteration) && QueriesFail(t, side, script, 0, k)
    requires PositionSize(t.kind, side, script.replies[k]).Some?
    requires PositionSize(t.kind, side, script.replies[k]) == Some(0.0) || Accepted(script.acks[0])
    ensures var r := ClosePosition(t, side, script, maxIteration);
      r.ok && |r.steps| == k + 1 && forall i :: 0 <= i < k ==> r.steps[i] == Skipped
  {
    var answers := Answers(t, side, script);
    LoopStopsAtFirstAnswer(t, Close(side), answers, Acceptances(script), 0, 0, Iterations(maxIteration), k);
  }

  /** The same retry tolerance for `create_position`, where an answer at or above the cap needs nothing. */
  lemma CreateRetriesFailedQueries(t: Trader, side: Side, script: Script, maxIteration: int, k: nat)
    requires Covers(t, script, Iterations(maxIteration))
    requires k < Iterations(maxIteration) && QueriesFail(t, side, script, 0, k)
    requires PositionSize(t.kind, side, script.replies[k]).Some?
    requires PositionSize(t.kind, side, script.replies[k]).value >= t.maxLot || Accepted(script.acks[0])
    ensures var r := CreatePosition(t, side, script, maxIteration);
      r.ok && |r.steps| == k + 1 && forall i :: 0 <= i < k ==> r.steps[i] == Skipped
  {
    var answers := Answers(t, side, script);
    LoopStopsAtFirstAnswer(t, Create(side), answers, Acceptances(script), 0, 0, Iterations(maxIteration), k);
  }

  /**
    `close_position` on a side the exchange reports flat (after any number
    of failed queries within the cap) succeeds without submitting an order.
   */
  lemma CloseFlatSubmitsNothing(t: Trader, side: Side, script: Script, maxIteration: int, k: nat)
    requires Covers(t, script, Iterations(maxIteration))
    requires k < Iterations(maxIteration) && QueriesFail(t, side, script, 0, k)
    requires PositionSize(t.kind, side, script.replies[k]) == Some(0.0)
    ensures var r := ClosePosition(t, side, script, maxIteration);
      r.ok && |r.steps| == k + 1 && Orders(r.steps) == []
  {
    var n := Iterations(maxIteration);
    var answers := Answers(t, side, script);
    LoopStopsAtFirstAnswer(t, Close(side), answers, Acceptances(script), 0, 0, n, k);
  }

  /** `create_position` on a side already at or above the cap succeeds without submitting an order. */
  lemma CreateFullSubmitsNothing(t: Trader, side: Side, script: Script, maxIteration: int, k: nat)
    requires Covers(t, script, Iterations(maxIteration))
    requires k < Iterations(maxIteration) && QueriesFail(t, side, script, 0, k)
    requires PositionSize(t.kind, side, script.replies[k]).Some?
    requires PositionSize(t.kind, side, script.replies[k]).value >= t.maxLot
    ensures var r := CreatePosition(t, side, script, maxIteration);
      r.ok && |r.steps| == k + 1 && Orders(r.steps) == []
  {
    var n := Iterations(maxIteration);
    var answers := Answers(t, side, script);
    LoopStopsAtFirstAnswer(t, Create(side), answers, Acceptances(script), 0, 0, n, k);
  }

  /** A loop whose every query fails returns `False` after the cap and submits nothing. */
  lemma AllQueriesFailGivesUp(t: Trader, goal: Goal, script: Script, maxIteration: int)
    requires Covers(t, script, Iterations(maxIteration))
    requires QueriesFail(t, goal.side, script, 0, Iterations(maxIteration))
    ensures var r := Reconcile(t, goal, script, Iterations(maxIteration));
      !r.ok && |r.steps| == Iterations(maxIteration) && Orders(r.steps) == []
  {
    var answers := Answers(t, goal.side, script);
    LoopAllQueriesFail(t, goal, answers, Acceptances(script), 0, 0, Iterations(maxIteration));
  }

  /** Every query among the first `n` either failed or answered a size that calls for an order. */
  predicate AlwaysSubmits(t: Trader, goal: Goal, answers: seq<Option<real>>, n: nat) {
    n <= |answers| && forall i :: 0 <= i < n ==> answers[i].None? || Decide(t, goal, answers[i].value).Submit?
  }

  /** The exchange refuses each of the first `n` orders. */
  predicate AlwaysRefuses(accepts: seq<bool>, n: nat) {
    n <= |accepts| && forall i :: 0 <= i < n ==> !accepts[i]
  }

  /**
    A run in which every answered query calls for an order and every order
    is refused never returns `True`.
   */
  lemma RunAllRefused(t: Trader, goal: Goal, answers: seq<Option<real>>, accepts: seq<bool>, ok: bool, steps: seq<Step>)
    requires Follows(t, goal, answers, 0, steps) && Judged(accepts, 0, Verdicts(steps)) && OnlyLastFinal(steps)
    requires ok <==> |steps| > 0 && Final(steps[|steps| - 1])
    requires AlwaysSubmits(t, goal, answers, |steps|) && AlwaysRefuses(accepts, |steps|)
    ensures !ok
  {
    if ok {
      var j := |steps| - 1;
      assert StepAgrees(t, goal, answers[0 + j], steps[j]);
      assert steps[j].Sent? && steps[j].accepted;
      VerdictsOfRun(steps);
    }
  }

  /** A loop whose every answer calls for an order and whose every order is refused gives up after the cap. */
  lemma LoopAllRefused(t: Trader, goal: Goal, answers: seq<Option<real>>, accepts: seq<bool>, n: nat)
    requires n <= |answers| && n <= |accepts|
    requires AlwaysSubmits(t, goal, answers, n) && AlwaysRefuses(accepts, n)
    ensures var r := Loop(t, goal, answers, accepts, 0, 0, n);
      !r.ok && |r.steps| == n
  {
    var r := Loop(t, goal, answers, accepts, 0, 0, n);
    LoopTrace(t, goal, answers, accepts, 0, 0, n);
    RunAllRefused(t, goal, answers, accepts, r.ok, r.steps);
  }

  /**
    `close_position` on a side never reported flat, whose every order is
    refused, returns `False` after using every iteration.
   */
  lemma CloseAllRefusedGivesUp(t: Trader, side: Side, script: Script, maxIteration: int)
    requires Covers(t, script, Iterations(maxIteration))
    requires forall i :: 0 <= i < Iterations(maxIteration) ==> PositionSize(t.kind, side, script.replies[i]) != Some(0.0)
    requires forall i :: 0 <= i < Iterations(maxIteration) ==> !Accepted(script.acks[i])
    ensures var r := ClosePosition(t, side, script, maxIteration);
      !r.ok && |r.steps| == Iterations(maxIteration)
  {
    var answers := Answers(t, side, script);
    assert AlwaysSubmits(t, Close(side), answers, Iterations(maxIteration)) by {
      forall i | 0 <= i < Iterations(maxIteration) ensures answers[i].None? || Decide(t, Close(side), answers[i].value).Submit? {
        assert answers[i] != Some(0.0);
      }
    }
    LoopAllRefused(t, Close(side), answers, Acceptances(script), Iterations(maxIteration));
  }

  /**
    `create_position` on a side always reported below the cap, whose every
    order is refused, returns `False` after using every iteration.
   */
  lemma CreateAllRefusedGivesUp(t: Trader, side: Side, script: Script, maxIteration: int)
    requires Covers(t, script, Iterations(maxIteration))
    requires forall i :: 0 <= i < Iterations(maxIteration) ==>
      PositionSize(t.kind, side, script.replies[i]).None? || PositionSize(t.kind, side, script.replies[i]).value < t.maxLot
    requires forall i :: 0 <= i < Iterations(maxIteration) ==> !Accepted(script.acks[i])
    ensures var r := CreatePosition(t, side, script, maxIteration);
      !r.ok && |r.steps| == Iterations(maxIteration)
  {
    LoopAllRefused(t, Create(side), Answers(t, side, script), Acceptances(script), Iterations(maxIteration));
  }

  /** With a cap of zero or less, `range` is empty: either loop returns `False` at once, having queried nothing. */
  lemma NonPositiveCapGivesUp(t: Trader, side: Side, script: Script, maxIteration: int)
    requires WellShaped(t, script) && maxIteration <= 0
    ensures !ClosePosition(t, side, script, maxIteration).ok && ClosePosition(t, side, script, maxIteration).steps == []
    ensures !CreatePosition(t, side, script, maxIteration).ok && CreatePosition(t, side, script, maxIteration).steps == []
  {
  }
}
