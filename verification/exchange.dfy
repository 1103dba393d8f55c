/**
  The exchange boundary of the trader: what a position-list reply and an
  order acknowledgement look like, how a reply is projected to the resting
  size of one side, and which order request is sent for a side, a size and a
  reduce-only flag. The exchange itself is not modelled: its replies are
  values handed in by the caller.
 */
module Exchange {
  import opened Options

  /** Exchange-side vocabulary; used both as order direction and as position side. */
  datatype Side = Buy | Sell {

    /** The label the exchange uses for this side. */
    function Label(): string {
      match this
      case Buy => "Buy"
      case Sell => "Sell"
    }

    /** The side whose order reduces a position held on this side. */
    function Opposite(): Side {
      match this
      case Buy => Sell
      case Sell => Buy
    }
  }

  /** The two contract families the bot trades. */
  datatype DerivKind = Linear | Inverse

  /** The `result` part of a position-list reply. */
  datatype PositionResult =
    | PerSide(buySize: real, sellSize: real)  // linear: entry 0 is the long side, entry 1 the short side
    | Net(side: Option<Side>, size: real) // inverse: one net position and the side it is on, None when flat

  datatype PositionReply = PositionReply(status: int, retCode: int, result: PositionResult)

  /** Reply of the order-create endpoint; only its status and return code are inspected. */
  datatype OrderAck = OrderAck(status: int, retCode: int)

  /** An HTTP 200 reply whose application return code is 0. */
  predicate Succeeded(status: int, retCode: int) {
    status == 200 && retCode == 0
  }

  predicate Accepted(ack: OrderAck) {
    Succeeded(ack.status, ack.retCode)
  }

  /**
    A successful reply from the endpoint of `kind` carries that endpoint's
    result shape; the bot indexes it without checking.
   */
  predicate Shaped(kind: DerivKind, reply: PositionReply) {
    Succeeded(reply.status, reply.retCode) ==> (kind.Linear? <==> reply.result.PerSide?)
  }

  /** Resting size of `side` according to `reply`, or None when the query failed. */
  function PositionSize(kind: DerivKind, side: Side, reply: PositionReply): (r: Option<real>)
    requires Shaped(kind, reply)
    ensures r.None? <==> !Succeeded(reply.status, reply.retCode)
  {
    if reply.status != 200 then None
    else if reply.retCode != 0 then None
    else match kind
      case Linear =>
        if side == Buy then Some(reply.result.buySize) else Some(reply.result.sellSize)
      case Inverse =>
        if Some(side) == reply.result.side then Some(reply.result.size) else Some(0.0)
  }

  /** Python's `int(x)` on a float: truncation toward zero. */
  function Trunc(x: real): (n: int)
    ensures 0.0 <= x ==> n as real <= x < n as real + 1.0
    ensures x < 0.0 ==> n as real - 1.0 < x <= n as real
    ensures x.Floor as real == x ==> n as real == x
  {
    if 0.0 <= x then x.Floor
    else
      var m := (-x).Floor;
      assert x.Floor as real == x ==> m as real == -x by {
        if x.Floor as real == x {
          assert (-x.Floor) as real == -x;
        }
      }
      -m
  }

  /**
    What the bot sends to the order-create endpoint. Every request is a
    market order, good till cancelled, with close-on-trigger disabled; those
    constant fields are not represented. `reduceOnly` is None when the
    request omits the flag altogether.
   */
  datatype OrderRequest = OrderRequest(side: Side, qty: real, reduceOnly: Option<bool>)

  /** The request the trader's `order` builds for its derivative kind. */
  function OrderFor(kind: DerivKind, side: Side, size: real, reduceOnly: bool): (o: OrderRequest)
    ensures o.side == side
    ensures kind.Linear? ==> o.qty == size && o.reduceOnly == Some(reduceOnly)
    ensures kind.Inverse? ==> o.reduceOnly.None? && o.qty.Floor as real == o.qty
    ensures kind.Inverse? && 0.0 <= size ==> o.qty <= size < o.qty + 1.0
    ensures kind.Inverse? && size.Floor as real == size ==> o.qty == size
  {
    match kind
    case Linear => OrderRequest(side, size, Some(reduceOnly))
    case Inverse => OrderRequest(side, Trunc(size) as real, None)
  }

  // ---------------------------------------------------------------------
  // Properties of the projection and of the sides
  // ---------------------------------------------------------------------

  lemma OppositeIsInvolution(s: Side)
    ensures s.Opposite() != s
    ensures s.Opposite().Opposite() == s
    ensures s.Opposite().Label() != s.Label()
  {
  }

  /** A failed query fails for both sides alike: the side only matters once the reply is good. */
  lemma QueryFailureIsSideIndependent(kind: DerivKind, reply: PositionReply)
    requires Shaped(kind, reply)
    ensures PositionSize(kind, Buy, reply).None? <==> PositionSize(kind, Sell, reply).None?
  {
  }

  /**
    An inverse account holds one net position: whichever side is asked
    for, at least one of the two projections is zero, and the non-zero one
    is the side the exchange reported.
   */
  lemma InverseIsOneSided(reply: PositionReply, side: Side)
    requires Shaped(Inverse, reply) && Succeeded(reply.status, reply.retCode)
    ensures PositionSize(Inverse, Buy, reply) == Some(0.0) || PositionSize(Inverse, Sell, reply) == Some(0.0)
    ensures PositionSize(Inverse, side, reply) != Some(0.0) ==> reply.result.side == Some(side)
    ensures reply.result.side == Some(side) ==> PositionSize(Inverse, side, reply) == Some(reply.result.size)
  {
  }

  /** A linear account is hedged: each side reads its own entry, independently of the other. */
  lemma LinearReadsOwnEntry(reply: PositionReply, side: Side)
    requires Shaped(Linear, reply) && Succeeded(reply.status, reply.retCode)
    ensures PositionSize(Linear, side, reply)
         == Some(if side == Buy then reply.result.buySize else reply.result.sellSize)
  {
  }
}
