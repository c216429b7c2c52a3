/** The event log as a record of the reserves: folding it gives the stored state back. */
module EventLog {
  import opened Wrappers
  import opened Types
  import opened Curve
  import opened Model
  import opened Effects
  import opened Invariants

  /** What a trade adds to real_sol, read off its event. */
  function SolDelta(e: Event): int {
    if !e.TradeExecuted? then 0 else if e.isBuy then e.solAmount else 0 - e.solAmount
  }

  /** Tokens a trade takes off the curve, read off its event. */
  function TokenDelta(e: Event): int {
    if !e.TradeExecuted? then 0 else if e.isBuy then e.tokenAmount else 0 - e.tokenAmount
  }

  /** Lamports bought in minus lamports sold out. */
  function NetSol(log: seq<Event>): int {
    if log == [] then 0 else NetSol(log[..|log| - 1]) + SolDelta(log[|log| - 1])
  }

  /** Tokens bought out minus tokens sold back. */
  function NetTokens(log: seq<Event>): int {
    if log == [] then 0 else NetTokens(log[..|log| - 1]) + TokenDelta(log[|log| - 1])
  }

  function GraduationFees(log: seq<Event>): nat {
    if log == [] then 0
    else GraduationFees(log[..|log| - 1]) + if log[|log| - 1].TokenGraduated? then log[|log| - 1].fee else 0
  }

  /** Each event reports what the fold of the log up to it gives. */
  predicate Faithful(log: seq<Event>) {
    log == [] ||
    (Faithful(log[..|log| - 1]) &&
     match log[|log| - 1]
     case TradeExecuted(_, _, _, _, fee, creator, dino, treasury, newRealSol, newRealToken) =>
       && newRealSol == NetSol(log)
       && newRealToken == ALLOCATION - NetTokens(log)
       && creator + dino + treasury == fee
     case TokenGraduated(_, finalSol, finalTokens, fee, dino, treasury, _) =>
       && finalSol + fee == NetSol(log)
       && finalTokens == GRADUATION_RESERVE
       && dino + treasury == fee
     case _ => true)
  }

  lemma FoldsAppend(log: seq<Event>, e: Event)
    ensures NetSol(log + [e]) == NetSol(log) + SolDelta(e)
    ensures NetTokens(log + [e]) == NetTokens(log) + TokenDelta(e)
    ensures GraduationFees(log + [e]) == GraduationFees(log) + if e.TokenGraduated? then e.fee else 0
    ensures !e.TradeExecuted? && !e.TokenGraduated? ==> Faithful(log + [e]) == Faithful(log)
  {
    assert (log + [e])[..|log + [e]| - 1] == log;
  }

  /** The stored reserves are the fold of the log. */
  predicate LogInv(w: World) {
    && Faithful(w.log)
    && match w.launch
       case None => NetSol(w.log) == 0 && NetTokens(w.log) == 0 && GraduationFees(w.log) == 0
       case Some(la) =>
         if !la.graduated then
           && la.curve.realSol == NetSol(w.log)
           && la.curve.realToken == ALLOCATION - NetTokens(w.log)
           && GraduationFees(w.log) == 0
         else NetSol(w.log) == GraduationFees(w.log) + la.graduationSol
  }

  lemma TradeKeepsLog(w: World, e: Event, next: World)
    requires LogInv(w) && Trading(w) && Trading(next) && e.TradeExecuted? && next.log == w.log + [e]
    requires var c, d := w.launch.value.curve, next.launch.value.curve;
             && e.newRealSol == d.realSol && e.newRealToken == d.realToken
             && d.realSol == c.realSol + SolDelta(e)
             && d.realToken == c.realToken - TokenDelta(e)
    requires e.creatorShare + e.dinoShare + e.treasuryShare == e.fee
    ensures LogInv(next)
  {
    FoldsAppend(w.log, e);
    assert (w.log + [e])[..|w.log + [e]| - 1] == w.log;
  }

  lemma GraduateKeepsLog(w: World)
    requires Inv(w) && LogInv(w) && GraduateStep(w).Success?
    ensures LogInv(GraduateStep(w).value)
  {
    InvReady(w);
    GraduateLeaves(w);
    var e := GraduateEvent(w.config.value, w.launch.value);
    FoldsAppend(w.log, e);
    assert (w.log + [e])[..|w.log + [e]| - 1] == w.log;
  }

  lemma BuyKeepsLog(w: World, buyer: Signer, t: u64, maxSolIn: u64)
    requires Inv(w) && LogInv(w) && BuyStep(w, buyer, t, maxSolIn).Success?
    ensures LogInv(BuyStep(w, buyer, t, maxSolIn).value)
  {
    InvReady(w);
    BuyLeaves(w, buyer, t, maxSolIn);
    var r := w.launch.value.curve;
    var e := BuyEvent(w.config.value, buyer, t, Cost(r, t), Play(r, BuyTokens(t)));
    TradeKeepsLog(w, e, BuyStep(w, buyer, t, maxSolIn).value);
  }

  lemma SellKeepsLog(w: World, seller: Signer, t: u64, minSolOut: u64)
    requires Inv(w) && LogInv(w) && SellStep(w, seller, t, minSolOut).Success?
    ensures LogInv(SellStep(w, seller, t, minSolOut).value)
  {
    InvReady(w);
    SellLeaves(w, seller, t, minSolOut);
    var r := w.launch.value.curve;
    var e := SellEvent(w.config.value, seller, t, Payout(r, t), Play(r, SellTokens(t)));
    TradeKeepsLog(w, e, SellStep(w, seller, t, minSolOut).value);
  }

  lemma QuietKeepsLog(w: World, next: World)
    requires LogInv(w) && QuietChange(w, next)
    ensures LogInv(next)
  {
    if next.log != w.log {
      var e :| IsConfigEvent(e) && next.log == w.log + [e];
      FoldsAppend(w.log, e);
    }
  }

  lemma CreateKeepsLog(w: World, creator: Signer)
    requires LogInv(w) && CreateTokenStep(w, creator).Success?
    ensures LogInv(CreateTokenStep(w, creator).value)
  {
    var next := CreateTokenStep(w, creator).value;
    assert next.log == w.log + [next.log[|w.log|]];
    FoldsAppend(w.log, next.log[|w.log|]);
  }

  lemma SealKeepsLog(w: World, authority: Signer, lbPair: Address)
    requires LogInv(w) && SealGraduationStep(w, authority, lbPair).Success?
    ensures LogInv(SealGraduationStep(w, authority, lbPair).value)
  {
    FoldsAppend(w.log, PoolSeeded(lbPair));
  }

  lemma NextKeepsLog(w: World, i: Instruction)
    requires Inv(w) && LogInv(w)
    ensures LogInv(Next(w, i))
  {
    if Step(w, i).Success? {
      match i
      case Buy(buyer, t, maxSolIn) => BuyKeepsLog(w, buyer, t, maxSolIn);
      case Sell(seller, t, minSolOut) => SellKeepsLog(w, seller, t, minSolOut);
      case Graduate => GraduateKeepsLog(w);
      case CreateToken(creator) => CreateKeepsLog(w, creator);
      case SealGraduation(authority, lbPair) => SealKeepsLog(w, authority, lbPair);
      case _ =>
        QuietSteps(w, i);
        QuietKeepsLog(w, Next(w, i));
    }
  }

  lemma {:induction false} RunKeepsLog(w: World, ix: seq<Instruction>)
    requires Inv(w) && LogInv(w)
    ensures LogInv(Run(w, ix))
  {
    if ix != [] {
      RunKeepsInv(w, ix[..|ix| - 1]);
      RunKeepsLog(w, ix[..|ix| - 1]);
      NextKeepsLog(Run(w, ix[..|ix| - 1]), ix[|ix| - 1]);
    }
  }

  /**
   * In every reachable world the log determines the curve twice over: as the fold of the
   * amounts it reports, and as the replay of the token amounts alone.
   */
  lemma LogDeterminesState(w: World)
    requires Reachable(w)
    ensures LogInv(w)
    ensures Trading(w) ==> Replay(FRESH, Trades(w.log)) == Some(w.launch.value.curve)
  {
    ReachableInv(w);
    var lamports, ix :| w == Run(Genesis(lamports), ix);
    RunKeepsLog(Genesis(lamports), ix);
  }
}
