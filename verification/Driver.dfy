/**
 * The test driver's purchase loop: it buys in chunks and, before a chunk would overshoot
 * the beta cap, searches for the largest purchase that does not.
 */
module Driver {
  import opened Wrappers
  import opened Types
  import opened Rounding
  import opened Quotes
  import opened Curve
  import opened Ledgers
  import opened Model
  import opened Effects

  const THRESHOLD: nat := 5_000_000_000
  const CHUNK: nat := 20_000_000_000_000
  const SMALLEST_SEARCHED: nat := 1_000_000
  const NEARLY_EMPTY: nat := 1_000_000_000
  const TOO_SMALL: nat := 500_000
  const SLACK: nat := 10_000_000
  const ROUNDS: nat := 100

  // ---------- the inner search ----------

  /** The driver's projection: a buy of t keeps real_sol within the threshold. */
  predicate Fits(vSol: nat, vTok: nat, rSol: nat, t: nat)
    requires t < vTok
  {
    rSol + BuyCost(vSol + rSol, vTok, t) <= THRESHOLD
  }

  lemma FitsDownwards(vSol: nat, vTok: nat, rSol: nat, t: nat, u: nat)
    requires t <= u < vTok && Fits(vSol, vTok, rSol, u)
    ensures Fits(vSol, vTok, rSol, t)
  {
    BuyXMonotone(vSol + rSol, vTok, t, u);
  }

  lemma NoneFitsFrom(vSol: nat, vTok: nat, rSol: nat, u: nat)
    requires u <= CHUNK < vTok && !Fits(vSol, vTok, rSol, u)
    ensures forall t :: u <= t <= CHUNK ==> !Fits(vSol, vTok, rSol, t)
  {
    forall t | u <= t <= CHUNK
      ensures !Fits(vSol, vTok, rSol, t)
    {
      if Fits(vSol, vTok, rSol, t) {
        FitsDownwards(vSol, vTok, rSol, u, t);
      }
    }
  }

  /**
   * The chunk the driver settles on: the full one when it fits, otherwise the largest in the
   * searched range that fits, or the range's lower end when nothing in it does.
   */
  predicate Picked(vSol: nat, vTok: nat, rSol: nat, chunk: nat)
    requires CHUNK < vTok
  {
    && SMALLEST_SEARCHED <= chunk <= CHUNK
    && (Fits(vSol, vTok, rSol, chunk) <==> Fits(vSol, vTok, rSol, SMALLEST_SEARCHED))
    && (!Fits(vSol, vTok, rSol, SMALLEST_SEARCHED) ==> chunk == SMALLEST_SEARCHED)
    && forall t :: chunk < t <= CHUNK ==> !Fits(vSol, vTok, rSol, t)
  }

  /** Where the search ends. */
  lemma LastFit(vSol: nat, vTok: nat, rSol: nat, chunk: nat)
    requires SMALLEST_SEARCHED <= chunk <= CHUNK < vTok
    requires chunk == SMALLEST_SEARCHED || Fits(vSol, vTok, rSol, chunk)
    requires forall t :: chunk < t <= CHUNK ==> !Fits(vSol, vTok, rSol, t)
    ensures Picked(vSol, vTok, rSol, chunk)
  {
    if Fits(vSol, vTok, rSol, chunk) {
      FitsDownwards(vSol, vTok, rSol, SMALLEST_SEARCHED, chunk);
    }
  }

  /** The driver's choice of chunk; None where the quote throws. */
  method PickChunk(vSol: nat, vTok: nat, rSol: nat) returns (chunk: Option<nat>)
    ensures chunk.None? <==> vTok <= CHUNK
    ensures chunk.Some? ==> Picked(vSol, vTok, rSol, chunk.value)
  {
    var projected := QuoteSolIn(vSol, vTok, rSol, CHUNK);
    if projected.None? {
      return None;
    }
    if rSol + projected.value <= THRESHOLD {
      LastFit(vSol, vTok, rSol, CHUNK);
      return Some(CHUNK);
    }
    var lo, hi := SMALLEST_SEARCHED, CHUNK;
    while lo < hi
      invariant SMALLEST_SEARCHED <= lo <= hi <= CHUNK
      invariant lo == SMALLEST_SEARCHED || Fits(vSol, vTok, rSol, lo)
      invariant forall t :: hi < t <= CHUNK ==> !Fits(vSol, vTok, rSol, t)
    {
      var mid := (lo + hi + 1) / 2;
      var s := QuoteSolIn(vSol, vTok, rSol, mid);
      if rSol + s.value <= THRESHOLD {
        lo := mid;
      } else {
        NoneFitsFrom(vSol, vTok, rSol, mid);
        hi := mid - 1;
      }
    }
    LastFit(vSol, vTok, rSol, lo);
    return Some(lo);
  }

  /** On any trading curve the largest fitting purchase below an overshooting one hits the threshold exactly. */
  lemma LargestFitIsExact(c: Reserves, t: nat)
    requires OnCurve(c) && t < CHUNK
    requires Fits(c.virtualSol, c.virtualToken, c.realSol, t)
    requires !Fits(c.virtualSol, c.virtualToken, c.realSol, t + 1)
    ensures c.realSol + BuyCost(X(c), Y(c), t) == THRESHOLD
  {
    UnitStep(X(c), Y(c), t);
  }

  // ---------- one purchase ----------

  function MaxSolIn(cost: nat): nat {
    cost + cost / 100 + SLACK
  }

  /** The driver's quote for a chunk on the curve it has read; it never throws for the chunks it picks. */
  function QuotedCost(c: Reserves, chunk: nat): (s: u64)
    requires OnCurve(c) && chunk <= CHUNK
    ensures QuoteSolIn(c.virtualSol, c.virtualToken, c.realSol, chunk) == Some(s)
    ensures s <= 150_000_000_000
    ensures chunk <= c.realToken ==> s == Cost(c, chunk)
  {
    ProductFits(c);
    CeilIff(Product(c), Y(c) - chunk, 150_000_000_000);
    MulMono(UNSELLABLE - CHUNK, Y(c) - chunk, 150_000_000_000);
    BuyCost(X(c), Y(c), chunk)
  }

  /**
   * What the program does to the curve with the driver's buy instruction, for an unpaused
   * configuration and a buyer with enough lamports. The quote may be older than the curve.
   */
  function DoBuy(quoted: Reserves, c: Reserves, chunk: u64, feeBps: u16): Result<Reserves, Error>
    requires OnCurve(quoted) && chunk <= CHUNK
  {
    var cost :- SolInForTokensOut(c.virtualSol, c.virtualToken, c.realSol, c.realToken, chunk);
    var fee :- CheckedShare(cost, feeBps);
    if cost + fee > MaxSolIn(QuotedCost(quoted, chunk)) then Failure(SlippageExceeded)
    else ReservesAfterBuy(c, cost, chunk)
  }

  /** The driver's purchase in closed form, for every trade fee a configuration can have. */
  lemma DoBuyExact(quoted: Reserves, c: Reserves, chunk: u64, feeBps: u16)
    requires OnCurve(quoted) && OnCurve(c) && 0 < chunk <= CHUNK && feeBps <= 1000
    ensures DoBuy(quoted, c, chunk, feeBps) ==
            if chunk > c.realToken then Failure(InsufficientReserves)
            else if Cost(c, chunk) + Share(Cost(c, chunk), feeBps) > MaxSolIn(QuotedCost(quoted, chunk))
            then Failure(SlippageExceeded)
            else if LegalMove(c, BuyTokens(chunk)) then Success(Play(c, BuyTokens(chunk)))
            else Failure(BetaCapExceeded)
  {
    if chunk <= c.realToken {
      BuyQuoteIsCost(c, chunk);
      CheckedShareExact(Cost(c, chunk), feeBps);
    }
  }

  /** With a fresh quote the slack covers the fee exactly up to one percent and SLACK lamports more. */
  predicate SlackCoversFee(cost: nat, feeBps: nat) {
    Share(cost, feeBps) <= cost / 100 + SLACK
  }

  lemma FreshQuoteSlipsIff(c: Reserves, chunk: u64, feeBps: u16)
    requires OnCurve(c) && 0 < chunk <= CHUNK && chunk <= c.realToken && feeBps <= 1000
    ensures DoBuy(c, c, chunk, feeBps) == Failure(SlippageExceeded) <==> !SlackCoversFee(Cost(c, chunk), feeBps)
    ensures feeBps <= 100 ==> SlackCoversFee(Cost(c, chunk), feeBps)
  {
    DoBuyExact(c, c, chunk, feeBps);
    if feeBps <= 100 {
      OnePercent(Cost(c, chunk), feeBps);
    }
  }

  lemma OnePercent(cost: nat, feeBps: nat)
    requires feeBps <= 100
    ensures Share(cost, feeBps) <= cost / 100
  {
    MulMono(feeBps, 100, cost);
    FloorIff(cost, 100, Share(cost, feeBps));
    ShareBounds(cost, feeBps);
  }

  /** The buyer holds what a purchase of the chunk needs at the current price. */
  predicate CanFund(w: World, buyer: Signer, chunk: u64)
    requires ConfigInv(w) && Trading(w) && OnCurve(w.launch.value.curve)
  {
    var c, la := w.config.value, w.launch.value;
    chunk <= la.curve.realToken && BuyNeeds(c, la.creator, buyer, Cost(la.curve, chunk)) <= Balance(w.lamports, buyer)
  }

  /** The program itself answers the driver's instruction in just this way, pause and want of funds aside. */
  lemma DoBuyIsTheProgramsBuy(w: World, buyer: Signer, quoted: Reserves, chunk: u64)
    requires Ready(w) && OnCurve(quoted) && 0 < chunk <= CHUNK
    ensures var q := BuyStep(w, buyer, chunk, MaxSolIn(QuotedCost(quoted, chunk)));
            var d := DoBuy(quoted, w.launch.value.curve, chunk, w.config.value.tradeFeeBps);
            && (q.Success? <==> !w.config.value.paused && d.Success? && CanFund(w, buyer, chunk))
            && (q.Success? ==> q.value.launch == Some(w.launch.value.(curve := d.value)))
            && (q.Failure? ==>
                  q.error == if w.config.value.paused then Paused
                             else if d == Failure(InsufficientReserves) || d == Failure(SlippageExceeded) then d.error
                             else if !CanFund(w, buyer, chunk) then InsufficientFunds
                             else BetaCapExceeded)
  {
    DoBuyExact(quoted, w.launch.value.curve, chunk, w.config.value.tradeFeeBps);
    BuyExact(w, buyer, chunk, MaxSolIn(QuotedCost(quoted, chunk)));
  }

  // ---------- other traders ----------

  /** Trades others attempt while a round runs: before it reads, before it quotes, before its buy lands. */
  datatype Interference = Interference(beforeRead: seq<Move>, beforeQuote: seq<Move>, beforeBuy: seq<Move>)

  const NOBODY := Interference([], [], [])

  predicate Quiet(others: seq<Interference>) {
    forall i :: 0 <= i < |others| ==> others[i] == NOBODY
  }

  // Where the curve is when the round reads it, when it quotes, and when its purchase lands.

  function Read(c: Reserves, other: Interference): (d: Reserves)
    requires OnCurve(c)
    ensures OnCurve(d)
    ensures other == NOBODY ==> d == c
  {
    Attempt(c, other.beforeRead)
  }

  function Quoted(c: Reserves, other: Interference): (d: Reserves)
    requires OnCurve(c)
    ensures OnCurve(d)
    ensures other == NOBODY ==> d == c
  {
    Attempt(Read(c, other), other.beforeQuote)
  }

  function Landed(c: Reserves, other: Interference): (d: Reserves)
    requires OnCurve(c)
    ensures OnCurve(d)
    ensures other == NOBODY ==> d == c
  {
    Attempt(Quoted(c, other), other.beforeBuy)
  }

  /** A trade of the loop's history: the driver's own, or somebody else's. */
  datatype Trade = Trade(own: bool, move: Move)

  function Others(ms: seq<Move>): (ts: seq<Trade>)
    ensures |ts| == |ms|
  {
    seq(|ms|, i requires 0 <= i < |ms| => Trade(false, ms[i]))
  }

  function Moves(ts: seq<Trade>): (ms: seq<Move>)
    ensures |ms| == |ts|
  {
    seq(|ts|, i requires 0 <= i < |ts| => ts[i].move)
  }

  /** The number of the driver's own trades. */
  function Own(ts: seq<Trade>): nat {
    if ts == [] then 0 else Own(ts[..|ts| - 1]) + if ts[|ts| - 1].own then 1 else 0
  }

  lemma {:induction false} OwnConcat(a: seq<Trade>, b: seq<Trade>)
    ensures Own(a + b) == Own(a) + Own(b)
  {
    if b == [] {
      assert a + b == a;
    } else {
      OwnConcat(a, b[..|b| - 1]);
      assert (a + b)[..|a + b| - 1] == a + b[..|b| - 1];
    }
  }

  lemma {:induction false} OthersOwnNothing(ms: seq<Move>)
    ensures Own(Others(ms)) == 0 && Moves(Others(ms)) == ms
  {
    if ms != [] {
      OthersOwnNothing(ms[..|ms| - 1]);
      assert Others(ms)[..|ms| - 1] == Others(ms[..|ms| - 1]);
    }
  }

  /** What the others get through before the round's purchase lands. */
  function Meanwhile(c: Reserves, other: Interference): seq<Move>
    requires OnCurve(c)
  {
    Accepted(c, other.beforeRead) + Accepted(Read(c, other), other.beforeQuote)
    + Accepted(Quoted(c, other), other.beforeBuy)
  }

  lemma MeanwhileReplays(c: Reserves, other: Interference)
    requires OnCurve(c)
    ensures Replay(c, Meanwhile(c, other)) == Some(Landed(c, other))
  {
    AttemptReplays(c, Accepted(c, other.beforeRead), Read(c, other), other.beforeQuote);
    AttemptReplays(c, Accepted(c, other.beforeRead) + Accepted(Read(c, other), other.beforeQuote),
                   Quoted(c, other), other.beforeBuy);
  }

  // ---------- the outer loop ----------

  datatype Stop = ThresholdReached | NearlyEmpty | ChunkTooSmall | QuoteThrew | BuyFailed(error: Error) | RoundsUsedUp

  /** While the loop keeps going, every purchase so far was a full chunk. */
  predicate StillFullChunks(c: Reserves, rounds: nat) {
    || c.realSol == THRESHOLD
    || c.realToken <= NEARLY_EMPTY
    || c.realToken + rounds * CHUNK <= ALLOCATION
  }

  /** From a fresh curve: where the curve is after n full chunks. */
  predicate FreshAfter(c: Reserves, n: nat)
    requires OnCurve(c)
  {
    n <= 8 && c.sold == n * CHUNK && FRESH_PRODUCT <= Product(c) <= FRESH_PRODUCT + n * VIRTUAL_TOKENS
  }

  /** Eight full chunks fit on a fresh curve; the ninth would overshoot, but smaller purchases fit. */
  lemma FreshChunks(c: Reserves, n: nat)
    requires OnCurve(c) && FreshAfter(c, n)
    ensures n < 8 ==> Fits(c.virtualSol, c.virtualToken, c.realSol, CHUNK)
    ensures n == 8 ==> !Fits(c.virtualSol, c.virtualToken, c.realSol, CHUNK)
    ensures n == 8 ==> Fits(c.virtualSol, c.virtualToken, c.realSol, SMALLEST_SEARCHED)
    ensures c.realSol < THRESHOLD && CHUNK <= c.realToken
  {
    CeilIff(Product(c), Y(c) - CHUNK, CAP_X);
    CeilIff(Product(c), Y(c) - SMALLEST_SEARCHED, CAP_X);
    if c.realSol >= THRESHOLD {
      MulMono(VIRTUAL_TOKENS - 8 * CHUNK, Y(c), CAP_X);
      assert false;
    }
  }

  /** The chunk was picked for this curve. */
  predicate PickedFor(c: Reserves, picked: nat)
    requires OnCurve(c)
  {
    Picked(c.virtualSol, c.virtualToken, c.realSol, picked)
  }

  /** The outcome of an undisturbed round, once the chunk is picked and clipped, is known in advance. */
  lemma RoundOutcome(c: Reserves, picked: nat, chunk: u64, feeBps: u16)
    requires OnCurve(c) && feeBps <= 1000 && c.realToken > NEARLY_EMPTY
    requires PickedFor(c, picked) && chunk == Min(picked, c.realToken)
    ensures DoBuy(c, c, chunk, feeBps) ==
            if !SlackCoversFee(Cost(c, chunk), feeBps) then Failure(SlippageExceeded)
            else if Fits(c.virtualSol, c.virtualToken, c.realSol, picked)
                    && LegalMove(c, BuyTokens(chunk))
            then Success(Play(c, BuyTokens(chunk)))
            else Failure(BetaCapExceeded)
    ensures Fits(c.virtualSol, c.virtualToken, c.realSol, picked) ==> LegalMove(c, BuyTokens(chunk))
  {
    DoBuyExact(c, c, chunk, feeBps);
    if Fits(c.virtualSol, c.virtualToken, c.realSol, picked) {
      FitsDownwards(c.virtualSol, c.virtualToken, c.realSol, chunk, picked);
    }
  }

  /** Why an undisturbed loop can end in a failed buy. */
  ghost predicate FailsForCause(c: Reserves, error: Error, feeBps: u16)
    requires OnCurve(c)
  {
    || (error == BetaCapExceeded && c.realSol < THRESHOLD
        && !Fits(c.virtualSol, c.virtualToken, c.realSol, SMALLEST_SEARCHED))
    || (error == SlippageExceeded && feeBps > 100
        && exists chunk: u64 :: chunk <= c.realToken && !SlackCoversFee(Cost(c, chunk), feeBps))
  }

  /** What an undisturbed loop can stop for. */
  ghost predicate StopsForCause(c: Reserves, stop: Stop, feeBps: u16)
    requires OnCurve(c)
  {
    match stop
    case ThresholdReached => c.realSol == THRESHOLD
    case NearlyEmpty => c.realToken <= NEARLY_EMPTY
    case BuyFailed(e) => FailsForCause(c, e, feeBps)
    case _ => false
  }

  /** What a loop can stop for whatever others do. */
  predicate StopsSafely(c: Reserves, stop: Stop)
    requires OnCurve(c)
  {
    match stop
    case ThresholdReached => c.realSol == THRESHOLD
    case NearlyEmpty => c.realToken <= NEARLY_EMPTY
    case BuyFailed(e) => e == InsufficientReserves || e == SlippageExceeded || e == BetaCapExceeded
    case _ => false
  }

  /** What a round decides from the curve it has read: to stop, or which chunk to ask for. */
  method Decide(c: Reserves) returns (chunk: u64, stop: Option<Stop>, ghost picked: nat)
    requires OnCurve(c)
    ensures c.realSol >= THRESHOLD ==> stop == Some(ThresholdReached)
    ensures c.realSol < THRESHOLD && c.realToken <= NEARLY_EMPTY ==> stop == Some(NearlyEmpty)
    ensures c.realSol < THRESHOLD && c.realToken > NEARLY_EMPTY ==> stop == None
    ensures stop.None? ==> PickedFor(c, picked) && chunk == Min(picked, c.realToken)
  {
    chunk, picked := 0, 0;
    if c.realSol >= THRESHOLD {
      return chunk, Some(ThresholdReached), picked;
    }
    if c.realToken <= NEARLY_EMPTY {
      return chunk, Some(NearlyEmpty), picked;
    }
    var choice := PickChunk(c.virtualSol, c.virtualToken, c.realSol);
    if choice.None? {
      return chunk, Some(QuoteThrew), picked;
    }
    picked := choice.value;
    chunk := Min(choice.value, c.realToken);
    return chunk, if chunk < TOO_SMALL then Some(ChunkTooSmall) else None, picked;
  }

  /** The round goes as far as buying, and asks for this chunk of the curve it has read. */
  ghost predicate Asks(c: Reserves, other: Interference, chunk: u64)
    requires OnCurve(c)
  {
    && Read(c, other).realSol < THRESHOLD && NEARLY_EMPTY < Read(c, other).realToken
    && 0 < chunk <= CHUNK
    && exists picked :: PickedFor(Read(c, other), picked) && chunk == Min(picked, Read(c, other).realToken)
  }

  /** The round's purchase lands, after the others' trades and at the quote taken before the last of them. */
  ghost predicate GoesOn(c: Reserves, feeBps: u16, other: Interference, d: Reserves, trades: seq<Trade>)
    requires OnCurve(c)
  {
    exists chunk: u64 ::
      && Asks(c, other, chunk)
      && DoBuy(Quoted(c, other), Landed(c, other), chunk, feeBps) == Success(d)
      && trades == Others(Meanwhile(c, other)) + [Trade(true, BuyTokens(chunk))]
  }

  /** The round ends the loop: it has nothing to buy, or its purchase is refused where it lands. */
  ghost predicate Ends(c: Reserves, feeBps: u16, other: Interference, d: Reserves, trades: seq<Trade>, stop: Stop)
    requires OnCurve(c)
  {
    match stop
    case ThresholdReached =>
      Read(c, other).realSol >= THRESHOLD
      && d == Read(c, other) && trades == Others(Accepted(c, other.beforeRead))
    case NearlyEmpty =>
      Read(c, other).realSol < THRESHOLD && Read(c, other).realToken <= NEARLY_EMPTY
      && d == Read(c, other) && trades == Others(Accepted(c, other.beforeRead))
    case BuyFailed(e) =>
      d == Landed(c, other) && trades == Others(Meanwhile(c, other))
      && exists chunk: u64 ::
           Asks(c, other, chunk) && DoBuy(Quoted(c, other), Landed(c, other), chunk, feeBps) == Failure(e)
    case _ => false
  }

  /** One round of the loop: from which curve, with which trades, to which curve. */
  datatype Lap = Lap(before: Reserves, trades: seq<Trade>, after: Reserves)

  ghost predicate LapGoesOn(lap: Lap, feeBps: u16, other: Interference) {
    OnCurve(lap.before) && GoesOn(lap.before, feeBps, other, lap.after, lap.trades)
  }

  ghost predicate LapEnds(lap: Lap, feeBps: u16, other: Interference, stop: Stop) {
    OnCurve(lap.before) && Ends(lap.before, feeBps, other, lap.after, lap.trades, stop)
  }

  /** The chunk a round asks for is determined by the curve it has read. */
  lemma AsksForOne(c: Reserves, other: Interference, s: u64, t: u64)
    requires OnCurve(c) && Asks(c, other, s) && Asks(c, other, t)
    ensures s == t
  {
    var r := Read(c, other);
    var p :| PickedFor(r, p) && s == Min(p, r.realToken);
    var q :| PickedFor(r, q) && t == Min(q, r.realToken);
    PickedIsOne(r.virtualSol, r.virtualToken, r.realSol, p, q);
  }

  lemma PickedIsOne(vSol: nat, vTok: nat, rSol: nat, p: nat, q: nat)
    requires CHUNK < vTok && Picked(vSol, vTok, rSol, p) && Picked(vSol, vTok, rSol, q)
    ensures p == q
  {
    if Fits(vSol, vTok, rSol, SMALLEST_SEARCHED) {
      assert Fits(vSol, vTok, rSol, p) && Fits(vSol, vTok, rSol, q);
    }
  }

  /** A round that goes on has replayed the others' trades and bought exactly once, its purchase coming last. */
  lemma GoingOnBuysOnce(c: Reserves, feeBps: u16, other: Interference, d: Reserves, trades: seq<Trade>)
    requires OnCurve(c) && feeBps <= 1000 && GoesOn(c, feeBps, other, d, trades)
    ensures OnCurve(d) && Replay(c, Moves(trades)) == Some(d)
    ensures Own(trades) == 1 && trades[|trades| - 1].own && trades[|trades| - 1].move.BuyTokens?
    ensures d.sold == Landed(c, other).sold + trades[|trades| - 1].move.amount
  {
    var chunk: u64 :| && Asks(c, other, chunk)
                      && DoBuy(Quoted(c, other), Landed(c, other), chunk, feeBps) == Success(d)
                      && trades == Others(Meanwhile(c, other)) + [Trade(true, BuyTokens(chunk))];
    DoBuyExact(Quoted(c, other), Landed(c, other), chunk, feeBps);
    MeanwhileReplays(c, other);
    OthersOwnNothing(Meanwhile(c, other));
    ReplayOneMore(c, Meanwhile(c, other), BuyTokens(chunk));
    assert Moves(trades) == Meanwhile(c, other) + [BuyTokens(chunk)];
    assert trades[..|trades| - 1] == Others(Meanwhile(c, other));
  }

  /** A round that ends the loop has replayed the others' trades and bought nothing. */
  lemma EndingBuysNothing(c: Reserves, feeBps: u16, other: Interference, d: Reserves, trades: seq<Trade>, stop: Stop)
    requires OnCurve(c) && feeBps <= 1000 && Ends(c, feeBps, other, d, trades, stop)
    ensures OnCurve(d) && Replay(c, Moves(trades)) == Some(d) && Own(trades) == 0
    ensures StopsSafely(d, stop)
  {
    MeanwhileReplays(c, other);
    OthersOwnNothing(Meanwhile(c, other));
    OthersOwnNothing(Accepted(c, other.beforeRead));
    if stop.BuyFailed? {
      var chunk: u64 :|
        Asks(c, other, chunk) && DoBuy(Quoted(c, other), Landed(c, other), chunk, feeBps) == Failure(stop.error);
      DoBuyExact(Quoted(c, other), Landed(c, other), chunk, feeBps);
    }
  }

  /** One round, with what the others trade meanwhile. */
  method Round(c: Reserves, feeBps: u16, other: Interference)
    returns (d: Reserves, trades: seq<Trade>, stop: Option<Stop>)
    requires OnCurve(c) && feeBps <= 1000
    ensures OnCurve(d)
    ensures stop.None? ==> LapGoesOn(Lap(c, trades, d), feeBps, other)
    ensures stop.Some? ==> stop.value != RoundsUsedUp && LapEnds(Lap(c, trades, d), feeBps, other, stop.value)
  {
    d, trades := Read(c, other), Others(Accepted(c, other.beforeRead));
    var chunk, ended, picked := Decide(d);
    if ended.Some? {
      return d, trades, ended;
    }
    d, trades := Landed(c, other), Others(Meanwhile(c, other));
    assert Asks(c, other, chunk);
    DoBuyExact(Quoted(c, other), d, chunk, feeBps);
    var q := DoBuy(Quoted(c, other), d, chunk, feeBps);
    if q.Failure? {
      return d, trades, Some(BuyFailed(q.error));
    }
    return q.value, trades + [Trade(true, BuyTokens(chunk))], None;
  }

  predicate CountKept(c: Reserves, d: Reserves, rounds: nat) {
    StillFullChunks(c, rounds) ==> StillFullChunks(d, rounds + 1) && rounds + 1 <= 41
  }

  predicate FreshKept(d: Reserves, rounds: nat)
    requires OnCurve(d)
  {
    if rounds < 8 then FreshAfter(d, rounds + 1) else d.realSol == THRESHOLD
  }

  /** What an undisturbed round's purchase comes to, in the terms of Round's contract. */
  lemma SoloRound(c: Reserves, picked: nat, chunk: u64, feeBps: u16, rounds: nat)
    requires OnCurve(c) && feeBps <= 1000 && c.realSol < THRESHOLD && c.realToken > NEARLY_EMPTY
    requires PickedFor(c, picked) && chunk == Min(picked, c.realToken)
    ensures var q := DoBuy(c, c, chunk, feeBps);
            && (q.Failure? ==> FailsForCause(c, q.error, feeBps))
            && (q.Success? ==> OnCurve(q.value) && CountKept(c, q.value, rounds))
            && (FreshAfter(c, rounds) && feeBps <= 100 ==> q.Success? && FreshKept(q.value, rounds))
  {
    RoundOutcome(c, picked, chunk, feeBps);
    if feeBps <= 100 {
      OnePercent(Cost(c, chunk), feeBps);
    }
    if FreshAfter(c, rounds) {
      FreshChunks(c, rounds);
    }
    if DoBuy(c, c, chunk, feeBps).Success? {
      if StillFullChunks(c, rounds) {
        RoundKeepsCount(c, picked, chunk, rounds);
      }
      if FreshAfter(c, rounds) {
        FreshRound(c, picked, chunk, rounds);
      }
    }
  }

  /** Where an undisturbed loop may stand before its n-th round. */
  predicate AloneAt(start: Reserves, feeBps: u16, c: Reserves, n: nat)
    requires OnCurve(c)
  {
    && StillFullChunks(c, n) && n <= 41
    && (start == FRESH && feeBps <= 100 ==> FreshAfter(c, n) || (n == 9 && c.realSol == THRESHOLD))
  }

  lemma AloneAtStart(start: Reserves, feeBps: u16)
    requires OnCurve(start)
    ensures AloneAt(start, feeBps, start, 0)
  {}

  /** An undisturbed round that goes on keeps count; on a fresh curve it goes on until the threshold. */
  lemma SoloGoesOn(start: Reserves, feeBps: u16, lap: Lap, n: nat)
    requires feeBps <= 1000 && LapGoesOn(lap, feeBps, NOBODY)
    requires AloneAt(start, feeBps, lap.before, n)
    ensures OnCurve(lap.after) && AloneAt(start, feeBps, lap.after, n + 1)
  {
    var c, d := lap.before, lap.after;
    var chunk: u64 :| Asks(c, NOBODY, chunk) && DoBuy(c, c, chunk, feeBps) == Success(d);
    var picked :| PickedFor(c, picked) && chunk == Min(picked, c.realToken);
    SoloRound(c, picked, chunk, feeBps, n);
  }

  /** An undisturbed round that ends the loop leaves the curve alone and ends it for a cause. */
  lemma SoloEnds(start: Reserves, c: Reserves, feeBps: u16, d: Reserves, trades: seq<Trade>, stop: Stop, n: nat)
    requires OnCurve(c) && feeBps <= 1000 && Ends(c, feeBps, NOBODY, d, trades, stop)
    requires AloneAt(start, feeBps, c, n)
    ensures d == c && StopsForCause(c, stop, feeBps)
    ensures start == FRESH && feeBps <= 100 ==> stop == ThresholdReached && n == 9
  {
    if FreshAfter(c, n) {
      FreshChunks(c, n);
    }
    if stop.BuyFailed? {
      var chunk: u64 :| Asks(c, NOBODY, chunk) && DoBuy(c, c, chunk, feeBps) == Failure(stop.error);
      var picked :| PickedFor(c, picked) && chunk == Min(picked, c.realToken);
      SoloRound(c, picked, chunk, feeBps, n);
    }
  }

  function History(laps: seq<Lap>): seq<Trade> {
    if laps == [] then [] else History(laps[..|laps| - 1]) + laps[|laps| - 1].trades
  }

  /** These rounds went on one after the other, each meeting its own interference, from start to c. */
  predicate Chain(goesOn: (Lap, Interference) -> bool, start: Reserves, others: seq<Interference>, laps: seq<Lap>,
                  c: Reserves)
    requires |laps| <= |others|
  {
    if laps == [] then c == start
    else
      var n, last := |laps| - 1, laps[|laps| - 1];
      last.after == c && goesOn(last, others[n]) && Chain(goesOn, start, others, laps[..n], last.before)
  }

  ghost function GoingOn(feeBps: u16): (Lap, Interference) -> bool {
    (lap, other) => LapGoesOn(lap, feeBps, other)
  }

  ghost predicate Driven(start: Reserves, feeBps: u16, others: seq<Interference>, laps: seq<Lap>, c: Reserves)
    requires |laps| <= |others|
  {
    Chain(GoingOn(feeBps), start, others, laps, c)
  }

  /** The rounds that went on, and then the one that ended the loop, unless they were all used up. */
  ghost predicate DrivenTo(start: Reserves, feeBps: u16, others: seq<Interference>, laps: seq<Lap>, last: Lap,
                           stop: Stop)
  {
    && |laps| <= |others|
    && Driven(start, feeBps, others, laps, last.before)
    && if stop == RoundsUsedUp then |laps| == |others| && last.trades == [] && last.after == last.before
       else |laps| < |others| && LapEnds(last, feeBps, others[|laps|], stop)
  }

  lemma TradesConcat(start: Reserves, a: seq<Trade>, c: Reserves, b: seq<Trade>, d: Reserves)
    requires OnCurve(start) && Replay(start, Moves(a)) == Some(c) && OnCurve(c) && Replay(c, Moves(b)) == Some(d)
    ensures Replay(start, Moves(a + b)) == Some(d) && Own(a + b) == Own(a) + Own(b)
  {
    assert Moves(a + b) == Moves(a) + Moves(b);
    ReplayConcat(start, Moves(a), Moves(b));
    OwnConcat(a, b);
  }

  lemma OneMoreLap(goesOn: (Lap, Interference) -> bool, start: Reserves, others: seq<Interference>, laps: seq<Lap>,
                   lap: Lap)
    requires |laps| < |others| && Chain(goesOn, start, others, laps, lap.before) && goesOn(lap, others[|laps|])
    ensures Chain(goesOn, start, others, laps + [lap], lap.after)
    ensures History(laps + [lap]) == History(laps) + lap.trades
  {
    assert (laps + [lap])[..|laps + [lap]| - 1] == laps;
  }

  /** A lap that replays its trades and holds one own purchase. */
  predicate BuysOnce(lap: Lap) {
    && OnCurve(lap.before) && OnCurve(lap.after)
    && Replay(lap.before, Moves(lap.trades)) == Some(lap.after)
    && Own(lap.trades) == 1
  }

  lemma {:induction false} ChainReplays(goesOn: (Lap, Interference) -> bool, start: Reserves,
                                        others: seq<Interference>, laps: seq<Lap>, c: Reserves)
    requires OnCurve(start) && |laps| <= |others| && Chain(goesOn, start, others, laps, c)
    requires forall lap, other :: goesOn(lap, other) ==> BuysOnce(lap)
    ensures OnCurve(c) && Replay(start, Moves(History(laps))) == Some(c) && Own(History(laps)) == |laps|
    decreases |laps|
  {
    if laps != [] {
      var n, last := |laps| - 1, laps[|laps| - 1];
      ChainReplays(goesOn, start, others, laps[..n], last.before);
      TradesConcat(start, History(laps[..n]), last.before, last.trades, c);
    }
  }

  lemma {:induction false} ChainKeeps(goesOn: (Lap, Interference) -> bool, at: (Reserves, nat) -> bool,
                                      start: Reserves, others: seq<Interference>, laps: seq<Lap>, c: Reserves)
    requires |laps| <= |others| && Chain(goesOn, start, others, laps, c) && Quiet(others)
    requires at(start, 0)
    requires forall lap, n: nat :: goesOn(lap, NOBODY) && at(lap.before, n) ==> at(lap.after, n + 1)
    ensures at(c, |laps|)
    decreases |laps|
  {
    if laps != [] {
      var n, last := |laps| - 1, laps[|laps| - 1];
      ChainKeeps(goesOn, at, start, others, laps[..n], last.before);
      assert others[n] == NOBODY;
    }
  }

  /** The history is legal, leads to the curve, and holds one own purchase per round. */
  lemma DrivenReplays(start: Reserves, feeBps: u16, others: seq<Interference>, laps: seq<Lap>, c: Reserves)
    requires OnCurve(start) && feeBps <= 1000 && |laps| <= |others| && Driven(start, feeBps, others, laps, c)
    ensures OnCurve(c) && Replay(start, Moves(History(laps))) == Some(c) && Own(History(laps)) == |laps|
  {
    forall lap, other | GoingOn(feeBps)(lap, other)
      ensures BuysOnce(lap)
    {
      GoingOnBuysOnce(lap.before, feeBps, other, lap.after, lap.trades);
    }
    ChainReplays(GoingOn(feeBps), start, others, laps, c);
  }

  ghost function Standing(start: Reserves, feeBps: u16): (Reserves, nat) -> bool {
    (c: Reserves, n: nat) => OnCurve(c) && AloneAt(start, feeBps, c, n)
  }

  lemma GoingOnKeepsStanding(start: Reserves, feeBps: u16)
    requires feeBps <= 1000
    ensures forall lap, n: nat :: GoingOn(feeBps)(lap, NOBODY) && Standing(start, feeBps)(lap.before, n) ==>
                               Standing(start, feeBps)(lap.after, n + 1)
  {
    forall lap, n: nat | GoingOn(feeBps)(lap, NOBODY) && Standing(start, feeBps)(lap.before, n)
      ensures Standing(start, feeBps)(lap.after, n + 1)
    {
      SoloGoesOn(start, feeBps, lap, n);
    }
  }

  /** Where an undisturbed loop stands after these rounds. */
  lemma DrivenAlone(start: Reserves, feeBps: u16, others: seq<Interference>, laps: seq<Lap>, c: Reserves)
    requires OnCurve(start) && feeBps <= 1000 && |laps| <= |others| && Driven(start, feeBps, others, laps, c)
    requires Quiet(others)
    ensures OnCurve(c) && AloneAt(start, feeBps, c, |laps|)
  {
    AloneAtStart(start, feeBps);
    GoingOnKeepsStanding(start, feeBps);
    ChainKeeps(GoingOn(feeBps), Standing(start, feeBps), start, others, laps, c);
  }

  /**
   * What the loop comes to whatever the others do: its history is legal and leads to the
   * curve, it holds one own purchase for each round that went on, and the loop stops safely.
   */
  lemma DrivenToReplays(start: Reserves, feeBps: u16, others: seq<Interference>, laps: seq<Lap>, last: Lap, stop: Stop)
    requires OnCurve(start) && feeBps <= 1000 && DrivenTo(start, feeBps, others, laps, last, stop)
    ensures var history := History(laps) + last.trades;
            && OnCurve(last.after) && Replay(start, Moves(history)) == Some(last.after)
            && Own(history) == |laps|
    ensures stop != RoundsUsedUp ==> StopsSafely(last.after, stop)
  {
    DrivenReplays(start, feeBps, others, laps, last.before);
    if stop == RoundsUsedUp {
      assert History(laps) + last.trades == History(laps);
    } else {
      EndingBuysNothing(last.before, feeBps, others[|laps|], last.after, last.trades, stop);
      TradesConcat(start, History(laps), last.before, last.trades, last.after);
    }
  }

  /** What it comes to when they do nothing. */
  lemma DrivenToAlone(start: Reserves, feeBps: u16, others: seq<Interference>, laps: seq<Lap>, last: Lap, stop: Stop)
    requires OnCurve(start) && feeBps <= 1000 && DrivenTo(start, feeBps, others, laps, last, stop)
    requires Quiet(others) && 41 < |others|
    ensures OnCurve(last.after) && StopsForCause(last.after, stop, feeBps)
    ensures start == FRESH && feeBps <= 100 ==> stop == ThresholdReached && |laps| == 9
  {
    DrivenAlone(start, feeBps, others, laps, last.before);
    assert |laps| < |others|;
    assert others[|laps|] == NOBODY;
    SoloEnds(start, last.before, feeBps, last.after, last.trades, stop, |laps|);
  }

  /** The loop, round by round: `laps` are the rounds that went on, `last` the one that ended it. */
  method Drive(start: Reserves, feeBps: u16, others: seq<Interference>)
    returns (c: Reserves, history: seq<Trade>, purchases: nat, stop: Stop, ghost laps: seq<Lap>, ghost last: Lap)
    requires OnCurve(start) && feeBps <= 1000
    ensures DrivenTo(start, feeBps, others, laps, last, stop)
    ensures c == last.after && history == History(laps) + last.trades && purchases == |laps|
  {
    c, history, purchases, laps := start, [], 0, [];
    for iter := 0 to |others|
      invariant purchases == iter == |laps| && OnCurve(c)
      invariant Driven(start, feeBps, others, laps, c) && history == History(laps)
    {
      var d, trades, ended := Round(c, feeBps, others[iter]);
      last := Lap(c, trades, d);
      c, history := d, history + trades;
      if ended.Some? {
        return c, history, purchases, ended.value, laps, last;
      }
      OneMoreLap(GoingOn(feeBps), start, others, laps, last);
      laps := laps + [last];
      purchases := purchases + 1;
    }
    stop, last := RoundsUsedUp, Lap(c, [], c);
  }

  /**
   * The whole loop, for every valid trade fee and whatever others trade in between. The chunk
   * is never too small and the quote never throws. With nobody else trading, rounds never run
   * out: the loop stops on the threshold exactly, on a nearly empty curve, because even the
   * smallest searched purchase overshoots, or because the fee outruns its slack. Alone on a
   * fresh curve, at a fee of up to 1%, it reaches the threshold exactly with nine purchases.
   */
  method DriveToThreshold(start: Reserves, feeBps: u16, others: seq<Interference>)
    returns (c: Reserves, history: seq<Trade>, purchases: nat, stop: Stop, ghost laps: seq<Lap>, ghost last: Lap)
    requires OnCurve(start) && feeBps <= 1000 && |others| == ROUNDS
    ensures OnCurve(c) && Replay(start, Moves(history)) == Some(c)
    ensures purchases == Own(history) == |laps|
    ensures DrivenTo(start, feeBps, others, laps, last, stop)
    ensures c == last.after && history == History(laps) + last.trades
    ensures stop == RoundsUsedUp ==> purchases == ROUNDS
    ensures stop != RoundsUsedUp ==> purchases < ROUNDS && StopsSafely(c, stop)
    ensures Quiet(others) ==> StopsForCause(c, stop, feeBps)
    ensures Quiet(others) && start == FRESH && feeBps <= 100 ==> stop == ThresholdReached && purchases == 9
  {
    c, history, purchases, stop, laps, last := Drive(start, feeBps, others);
    DrivenToReplays(start, feeBps, others, laps, last, stop);
    if Quiet(others) {
      DrivenToAlone(start, feeBps, others, laps, last, stop);
    }
  }

  lemma RoundKeepsCount(c: Reserves, picked: nat, chunk: u64, rounds: nat)
    requires OnCurve(c) && StillFullChunks(c, rounds)
    requires c.realSol < THRESHOLD && c.realToken > NEARLY_EMPTY
    requires PickedFor(c, picked) && chunk == Min(picked, c.realToken)
    requires Fits(c.virtualSol, c.virtualToken, c.realSol, picked)
    requires LegalMove(c, BuyTokens(chunk))
    ensures StillFullChunks(Play(c, BuyTokens(chunk)), rounds + 1) && rounds + 1 <= 41
  {
    if picked < CHUNK {
      LargestFitIsExact(c, picked);
    }
  }

  lemma FreshRound(c: Reserves, picked: nat, chunk: u64, rounds: nat)
    requires OnCurve(c) && FreshAfter(c, rounds)
    requires PickedFor(c, picked) && chunk == Min(picked, c.realToken)
    requires Fits(c.virtualSol, c.virtualToken, c.realSol, picked)
    requires LegalMove(c, BuyTokens(chunk))
    ensures var d := Play(c, BuyTokens(chunk));
            if rounds < 8 then FreshAfter(d, rounds + 1) else d.realSol == THRESHOLD
  {
    FreshChunks(c, rounds);
    MoveDrift(c, BuyTokens(chunk));
    if rounds == 8 {
      LargestFitIsExact(c, picked);
    }
  }
}
