/** Create, graduate, seal: each at most once, in that order, and what each freezes. */
module Lifecycle {
  import opened Types
  import opened Model
  import opened Invariants

  /** 0 before creation, then 1 trading, 2 graduated, 3 sealed. */
  function Phase(w: World): nat {
    if w.launch.None? then 0
    else if !w.launch.value.graduated then 1
    else if !w.launch.value.poolSeeded then 2
    else 3
  }

  predicate IsMilestone(e: Event) {
    e.TokenCreated? || e.TokenGraduated? || e.PoolSeeded?
  }

  /** The creations, graduations and seals of a log, oldest first. */
  function Milestones(log: seq<Event>): seq<Event> {
    if log == [] then []
    else Milestones(log[..|log| - 1]) + if IsMilestone(log[|log| - 1]) then [log[|log| - 1]] else []
  }

  lemma MilestonesAppend(log: seq<Event>, e: Event)
    ensures Milestones(log + [e]) == if IsMilestone(e) then Milestones(log) + [e] else Milestones(log)
  {
    assert (log + [e])[..|log + [e]| - 1] == log;
  }

  /**
   * The milestones of the log are one creation, then one graduation, then one seal, as far as
   * the phase has come, and each reports what the launch has stored.
   */
  predicate PhaseLogged(w: World) {
    var ms := Milestones(w.log);
    && |ms| == Phase(w)
    && (Phase(w) >= 1 ==> ms[0].TokenCreated? && ms[0].creator == w.launch.value.creator)
    && (Phase(w) >= 2 ==>
          && ms[1].TokenGraduated?
          && ms[1].creator == w.launch.value.creator
          && ms[1].finalSol == w.launch.value.graduationSol
          && ms[1].finalTokens == w.launch.value.graduationTokens)
    && (Phase(w) == 3 ==> ms[2] == PoolSeeded(w.launch.value.lbPair))
    && (Phase(w) == 1 ==> !w.launch.value.poolSeeded)
  }

  /** The phase never goes back, and after graduation everything is frozen. */
  predicate PhaseRun(w: World, later: World) {
    && Phase(w) <= Phase(later)
    && (w.launch.Some? ==> later.launch.Some? && later.launch.value.creator == w.launch.value.creator)
    && (Phase(w) >= 2 ==>
          && later.launch.value.curve == w.launch.value.curve
          && later.launch.value.graduationSol == w.launch.value.graduationSol
          && later.launch.value.graduationTokens == w.launch.value.graduationTokens
          && later.minted == w.minted
          && Trades(later.log) == Trades(w.log))
    && (Phase(w) == 3 ==> later.launch == w.launch)
  }

  lemma QuietLogs(w: World, next: World)
    requires QuietChange(w, next)
    ensures Milestones(next.log) == Milestones(w.log) && Trades(next.log) == Trades(w.log)
  {
    if next.log != w.log {
      var e :| IsConfigEvent(e) && next.log == w.log + [e];
      MilestonesAppend(w.log, e);
      TradesSame(w.log, e);
    }
  }

  lemma QuietPhase(w: World, next: World)
    requires PhaseLogged(w) && QuietChange(w, next)
    ensures PhaseLogged(next) && PhaseRun(w, next) && Phase(next) == Phase(w)
  {
    QuietLogs(w, next);
  }

  lemma CreatedPhase(w: World, next: World, e: Event)
    requires PhaseLogged(w) && w.launch.None? && Phase(next) == 1 && !next.launch.value.poolSeeded
    requires next.log == w.log + [e] && e.TokenCreated? && e.creator == next.launch.value.creator
    ensures PhaseLogged(next) && PhaseRun(w, next) && Phase(next) == 1
  {
    MilestonesAppend(w.log, e);
  }

  lemma TradedPhase(w: World, next: World, e: Event)
    requires PhaseLogged(w) && Phase(w) == 1 && next.launch.Some?
    requires next.launch.value == w.launch.value.(curve := next.launch.value.curve)
    requires next.log == w.log + [e] && e.TradeExecuted?
    ensures PhaseLogged(next) && PhaseRun(w, next) && Phase(next) == 1
  {
    MilestonesAppend(w.log, e);
  }

  lemma CreatePhase(w: World, creator: Signer)
    requires PhaseLogged(w) && CreateTokenStep(w, creator).Success?
    ensures PhaseLogged(CreateTokenStep(w, creator).value)
    ensures PhaseRun(w, CreateTokenStep(w, creator).value) && Phase(CreateTokenStep(w, creator).value) == 1
  {
    var next := CreateTokenStep(w, creator).value;
    CreatedPhase(w, next, next.log[|w.log|]);
  }

  lemma SealPhase(w: World, authority: Signer, lbPair: Address)
    requires PhaseLogged(w) && SealGraduationStep(w, authority, lbPair).Success?
    ensures PhaseLogged(SealGraduationStep(w, authority, lbPair).value)
    ensures PhaseRun(w, SealGraduationStep(w, authority, lbPair).value)
    ensures Phase(w) == 2 && Phase(SealGraduationStep(w, authority, lbPair).value) == 3
  {
    MilestonesAppend(w.log, PoolSeeded(lbPair));
    TradesSame(w.log, PoolSeeded(lbPair));
  }

  lemma GraduatePhase(w: World)
    requires PhaseLogged(w) && GraduateStep(w).Success?
    ensures PhaseLogged(GraduateStep(w).value)
    ensures PhaseRun(w, GraduateStep(w).value) && Phase(GraduateStep(w).value) == 2
  {
    var next := GraduateStep(w).value;
    MilestonesAppend(w.log, next.log[|w.log|]);
  }

  lemma BuyPhase(w: World, buyer: Signer, t: u64, maxSolIn: u64)
    requires PhaseLogged(w) && BuyStep(w, buyer, t, maxSolIn).Success?
    ensures PhaseLogged(BuyStep(w, buyer, t, maxSolIn).value)
    ensures PhaseRun(w, BuyStep(w, buyer, t, maxSolIn).value) && Phase(BuyStep(w, buyer, t, maxSolIn).value) == 1
  {
    var next := BuyStep(w, buyer, t, maxSolIn).value;
    TradedPhase(w, next, next.log[|w.log|]);
  }

  lemma SellPhase(w: World, seller: Signer, t: u64, minSolOut: u64)
    requires PhaseLogged(w) && SellStep(w, seller, t, minSolOut).Success?
    ensures PhaseLogged(SellStep(w, seller, t, minSolOut).value)
    ensures PhaseRun(w, SellStep(w, seller, t, minSolOut).value) && Phase(SellStep(w, seller, t, minSolOut).value) == 1
  {
    var next := SellStep(w, seller, t, minSolOut).value;
    TradedPhase(w, next, next.log[|w.log|]);
  }

  lemma NextPhase(w: World, i: Instruction)
    requires PhaseLogged(w)
    ensures PhaseLogged(Next(w, i)) && PhaseRun(w, Next(w, i)) && Phase(Next(w, i)) <= Phase(w) + 1
  {
    if Step(w, i).Success? {
      match i
      case Buy(buyer, t, maxSolIn) => BuyPhase(w, buyer, t, maxSolIn);
      case Sell(seller, t, minSolOut) => SellPhase(w, seller, t, minSolOut);
      case Graduate => GraduatePhase(w);
      case CreateToken(creator) => CreatePhase(w, creator);
      case SealGraduation(authority, lbPair) => SealPhase(w, authority, lbPair);
      case _ =>
        QuietSteps(w, i);
        QuietPhase(w, Next(w, i));
    }
  }

  lemma {:induction false} RunPhases(w: World, ix: seq<Instruction>)
    requires PhaseLogged(w)
    ensures PhaseLogged(Run(w, ix)) && PhaseRun(w, Run(w, ix))
  {
    if ix != [] {
      RunPhases(w, ix[..|ix| - 1]);
      NextPhase(Run(w, ix[..|ix| - 1]), ix[|ix| - 1]);
    }
  }

  /** The phase fixes the minted supply and whether a pool address is recorded. */
  lemma PhaseFixesSupplyAndPool(w: World)
    requires Reachable(w)
    ensures PhaseLogged(w)
    ensures w.minted == (match Phase(w) case 0 => 0 case 1 => 800_000_000_000_000 case _ => 1_000_000_000_000_000)
    ensures w.launch.Some? ==> (Phase(w) == 3 <==> w.launch.value.lbPair != Default)
    ensures Phase(w) >= 2 ==> w.launch.value.graduationTokens == 200_000_000_000_000
                              && w.launch.value.curve.realSol == 0 && w.launch.value.curve.realToken == 0
  {
    ReachableInv(w);
    var lamports, ix :| w == Run(Genesis(lamports), ix);
    RunPhases(Genesis(lamports), ix);
  }
}
