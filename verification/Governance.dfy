/** Who may move the launch and its configuration, and which limits that keeps. */
module Governance {
  import opened Wrappers
  import opened Types
  import opened Quotes
  import opened Curve
  import opened Ledgers
  import opened Model
  import opened Effects
  import opened Invariants
  import opened Lifecycle

  // ---------- who changes the configuration ----------

  /** No configured wallet is the zero key or the system program. */
  predicate WalletsUsable(w: World) {
    w.config.Some? ==>
      && UsableWallet(w.config.value.dinoWallet)
      && UsableWallet(w.config.value.treasuryWallet)
      && UsableWallet(w.config.value.graduationAuthority)
  }

  lemma NextKeepsWallets(w: World, i: Instruction)
    requires Inv(w) && WalletsUsable(w)
    ensures WalletsUsable(Next(w, i))
  {
    if Step(w, i).Success? && !i.InitializeConfig? && !i.UpdateConfig? && !i.SetPaused? {
      OnlyConfigStepsTouchConfig(w, i);
    }
  }

  /** Only an update or a pause by the current administrator changes an existing configuration. */
  lemma OnlyConfigStepsTouchConfig(w: World, i: Instruction)
    ensures w.config.Some? && Next(w, i).config != w.config ==>
              (i.UpdateConfig? || i.SetPaused?) && i.admin == w.config.value.admin
    ensures Next(w, i).config != w.config ==> i.InitializeConfig? || i.UpdateConfig? || i.SetPaused?
  {
    match i
    case Buy(buyer, t, maxSolIn) => BuyFrame(w, buyer, t, maxSolIn);
    case Sell(seller, t, minSolOut) => SellFrame(w, seller, t, minSolOut);
    case _ =>
  }

  lemma BuyFrame(w: World, buyer: Signer, t: u64, maxSolIn: u64)
    ensures BuyStep(w, buyer, t, maxSolIn).Success? ==>
              var next := BuyStep(w, buyer, t, maxSolIn).value; next.config == w.config && w.log <= next.log
  {}

  lemma SellFrame(w: World, seller: Signer, t: u64, minSolOut: u64)
    ensures SellStep(w, seller, t, minSolOut).Success? ==>
              var next := SellStep(w, seller, t, minSolOut).value; next.config == w.config && w.log <= next.log
  {}

  lemma {:induction false} RunKeepsWallets(w: World, ix: seq<Instruction>)
    requires Inv(w) && WalletsUsable(w)
    ensures WalletsUsable(Run(w, ix))
  {
    if ix != [] {
      RunKeepsInv(w, ix[..|ix| - 1]);
      RunKeepsWallets(w, ix[..|ix| - 1]);
      NextKeepsWallets(Run(w, ix[..|ix| - 1]), ix[|ix| - 1]);
    }
  }

  /**
   * Whatever updates a run contains, its configuration stays within the documented limits,
   * although an update compares new wallets with the zero key only.
   */
  lemma ReachableConfig(w: World)
    requires Reachable(w) && w.config.Some?
    ensures var c := w.config.value;
            && c.tradeFeeBps <= 1000
            && c.creatorBps + c.dinoBps + c.treasuryBps == 10_000
            && c.creationDinoBps <= 10_000 && c.graduationDinoBps <= 10_000
            && 0 < c.threshold <= 5_000_000_000
            && UsableWallet(c.dinoWallet) && UsableWallet(c.treasuryWallet) && UsableWallet(c.graduationAuthority)
  {
    ReachableInv(w);
    var lamports, ix :| w == Run(Genesis(lamports), ix);
    RunKeepsWallets(Genesis(lamports), ix);
  }

  // ---------- what the configuration instructions do ----------

  /** The limits a configuration must keep, number by number. */
  predicate InLimits(tradeFee: nat, creator: nat, dino: nat, treasury: nat, creationDino: nat, graduationDino: nat,
                     threshold: nat)
  {
    && tradeFee <= 1000
    && creator + dino + treasury == 10_000
    && creationDino <= 10_000 && graduationDino <= 10_000
    && 0 < threshold <= 5_000_000_000
  }

  /** Which limit is reported when one is not kept. */
  function LimitError(tradeFee: nat, creator: nat, dino: nat, treasury: nat, creationDino: nat, graduationDino: nat,
                      threshold: nat): (e: Error)
    requires !InLimits(tradeFee, creator, dino, treasury, creationDino, graduationDino, threshold)
    ensures e == FeeBpsTooHigh <==> tradeFee > 1000
    ensures e == BetaCapExceeded ==> threshold > 5_000_000_000
    ensures e == InvalidThreshold ==> threshold == 0
  {
    if tradeFee > 1000 then FeeBpsTooHigh
    else if creator + dino + treasury != 10_000 || creationDino > 10_000 || graduationDino > 10_000
    then InvalidFeeSplit
    else if threshold == 0 then InvalidThreshold
    else BetaCapExceeded
  }

  predicate InitInLimits(p: InitParams) {
    InLimits(p.tradeFeeBps, p.creatorBps, p.dinoBps, p.treasuryBps, p.creationDinoBps, p.graduationDinoBps, p.threshold)
  }

  /** Initialisation happens once, with usable wallets and numbers in their limits, and stores what it was given. */
  lemma InitializeExact(w: World, admin: Signer, p: InitParams)
    ensures var q := Step(w, InitializeConfig(admin, p));
            && (q.Success? <==>
                  && w.config.None?
                  && p.dinoWallet != Default && p.treasuryWallet != Default && p.graduationAuthority != Default
                  && InitInLimits(p))
            && (q.Success? ==>
                  && q.value == w.(config := q.value.config,
                                   log := w.log + [ConfigInitialized(admin, p.dinoWallet, p.treasuryWallet)])
                  && q.value.config.Some?
                  && StoredAsGiven(q.value.config.value, admin, p))
            && (q.Failure? ==>
                  q.error == if w.config.Some? then AccountAlreadyInUse
                             else if InitInLimits(p) || p.dinoWallet == Default || p.treasuryWallet == Default
                                     || p.graduationAuthority == Default
                             then InvalidWallet
                             else LimitError(p.tradeFeeBps, p.creatorBps, p.dinoBps, p.treasuryBps, p.creationDinoBps,
                                             p.graduationDinoBps, p.threshold))
  {}

  predicate StoredAsGiven(c: Config, admin: Address, p: InitParams) {
    && c.admin == admin && !c.paused
    && c.dinoWallet == p.dinoWallet && c.treasuryWallet == p.treasuryWallet
    && c.graduationAuthority == p.graduationAuthority
    && c.tradeFeeBps == p.tradeFeeBps
    && c.creatorBps == p.creatorBps && c.dinoBps == p.dinoBps && c.treasuryBps == p.treasuryBps
    && c.creationFee == p.creationFee && c.creationDinoBps == p.creationDinoBps
    && c.graduationFee == p.graduationFee && c.graduationDinoBps == p.graduationDinoBps
    && c.threshold == p.threshold
  }

  /** A field after an update: the given value where one was given, its old one where none was. */
  predicate Takes<T(==)>(given: Option<T>, before: T, after: T) {
    (given.Some? ==> after == given.value) && (given.None? ==> after == before)
  }

  predicate TakesAll(u: UpdateParams, c: Config, d: Config) {
    && Takes(u.newAdmin, c.admin, d.admin)
    && Takes(u.dinoWallet, c.dinoWallet, d.dinoWallet)
    && Takes(u.treasuryWallet, c.treasuryWallet, d.treasuryWallet)
    && Takes(u.graduationAuthority, c.graduationAuthority, d.graduationAuthority)
    && Takes(u.tradeFeeBps, c.tradeFeeBps, d.tradeFeeBps)
    && Takes(u.creatorBps, c.creatorBps, d.creatorBps)
    && Takes(u.dinoBps, c.dinoBps, d.dinoBps)
    && Takes(u.treasuryBps, c.treasuryBps, d.treasuryBps)
    && Takes(u.creationFee, c.creationFee, d.creationFee)
    && Takes(u.creationDinoBps, c.creationDinoBps, d.creationDinoBps)
    && Takes(u.graduationFee, c.graduationFee, d.graduationFee)
    && Takes(u.graduationDinoBps, c.graduationDinoBps, d.graduationDinoBps)
    && Takes(u.threshold, c.threshold, d.threshold)
    && c.paused == d.paused
  }

  predicate GivesZeroWallet(u: UpdateParams) {
    u.dinoWallet == Some(Default) || u.treasuryWallet == Some(Default) || u.graduationAuthority == Some(Default)
  }

  predicate ConfigInLimits(d: Config) {
    InLimits(d.tradeFeeBps, d.creatorBps, d.dinoBps, d.treasuryBps, d.creationDinoBps, d.graduationDinoBps, d.threshold)
  }

  /**
   * For the configuration `d` that an update asks for: the update goes through exactly when
   * its signer is the administrator, it gives no zero wallet and `d` keeps the limits, and
   * then `d` is stored. In reachable worlds the graduation authority is never zero before.
   */
  lemma UpdateExact(w: World, admin: Signer, u: UpdateParams, d: Config)
    requires w.config.Some? ==> TakesAll(u, w.config.value, d)
    ensures var q := Step(w, UpdateConfig(admin, u));
            && (q.Success? <==>
                  && w.config.Some? && admin == w.config.value.admin
                  && !GivesZeroWallet(u) && d.graduationAuthority != Default
                  && ConfigInLimits(d))
            && (q.Success? ==> q.value == w.(config := Some(d), log := w.log + [ConfigUpdated(admin)]))
            && (q.Failure? ==>
                  q.error == if w.config.None? then AccountNotInitialized
                             else if admin != w.config.value.admin then Unauthorized
                             else if ConfigInLimits(d) || GivesZeroWallet(u) then InvalidWallet
                             else LimitError(d.tradeFeeBps, d.creatorBps, d.dinoBps, d.treasuryBps, d.creationDinoBps,
                                             d.graduationDinoBps, d.threshold))
  {}

  /** Every update asks for exactly one configuration. */
  lemma UpdateAsksForOne(u: UpdateParams, c: Config)
    ensures exists d :: TakesAll(u, c, d)
    ensures forall d, e :: TakesAll(u, c, d) && TakesAll(u, c, e) ==> d == e
  {
    assert TakesAll(u, c, Updated(c, u));
  }

  /** Pausing and unpausing is the administrator's, works in either direction at any time, and changes nothing else. */
  lemma SetPausedExact(w: World, admin: Signer, paused: bool)
    ensures var q := Step(w, SetPaused(admin, paused));
            && (q.Success? <==> w.config.Some? && admin == w.config.value.admin)
            && (q.Success? ==> q.value == w.(config := Some(w.config.value.(paused := paused))))
            && (q.Failure? ==> q.error == if w.config.None? then AccountNotInitialized else Unauthorized)
  {}

  // ---------- who creates, and what creation needs ----------

  /** What a creator must hold: the fee; one who is the DINO wallet gets its share back before paying the rest. */
  function CreationNeeds(c: Config, creator: Address): nat
    requires c.creationDinoBps <= 10_000
  {
    var dino := Share(c.creationFee, c.creationDinoBps);
    ShareBounds(c.creationFee, c.creationDinoBps);
    if creator == c.dinoWallet then Max(dino, c.creationFee - dino) else c.creationFee
  }

  lemma NeededOfTwo(ps: seq<Payment>, payer: Address)
    requires |ps| == 2
    ensures Needed(ps, payer) ==
            if ps[0].to == payer then Max(ps[0].amount, ps[1].amount) else ps[0].amount + ps[1].amount
  {
    var b := ps[1..];
    assert b[1..] == [];
    assert Needed(b, payer) == ps[1].amount;
  }

  /** Anyone can create the launch, once, while unpaused, with the creation fee at hand. */
  lemma CreateExact(w: World, creator: Signer)
    requires ConfigInv(w)
    ensures var q := Step(w, CreateToken(creator));
            && (q.Success? <==>
                  && w.config.Some? && w.launch.None? && !w.config.value.paused
                  && CreationNeeds(w.config.value, creator) <= Balance(w.lamports, creator))
            && (q.Success? ==> IsCreated(w, creator, q.value))
            && (q.Failure? ==>
                  q.error == if w.config.None? then AccountNotInitialized
                             else if w.launch.Some? then AccountAlreadyInUse
                             else if w.config.value.paused then Paused
                             else InsufficientFunds)
  {
    if w.config.Some? && w.launch.None? && !w.config.value.paused {
      var c := w.config.value;
      var dino := Share(c.creationFee, c.creationDinoBps);
      SplitTwoWayExact(c.creationFee, c.creationDinoBps);
      var ps := TwoShares(creator, c, dino, c.creationFee - dino);
      PayAllIff(w.lamports, ps, creator);
      PayAllFailure(w.lamports, ps);
      NeededOfTwo(ps, creator);
    }
  }

  /** Creation adds a fresh launch by its creator, its whole allocation and its event; lamports aside, nothing else. */
  predicate IsCreated(w: World, creator: Address, next: World)
    requires w.config.Some? && w.config.value.creationDinoBps <= 10_000
  {
    var c := w.config.value;
    var dino := Share(c.creationFee, c.creationDinoBps);
    ShareBounds(c.creationFee, c.creationDinoBps);
    && next == w.(launch := next.launch, lamports := next.lamports, tokens := next.tokens, minted := next.minted,
                  log := w.log + [TokenCreated(creator, c.creationFee, dino, c.creationFee - dino)])
    && next.launch == Some(Launch(creator, Reserves(0, 800_000_000_000_000, 30_000_000_000, 1_236_363_636_000_000, 0),
                                  false, false, Default, 0, 0))
    && next.minted == w.minted + 800_000_000_000_000
    && next.tokens == w.tokens[LaunchPda := Balance(w.tokens, LaunchPda) + 800_000_000_000_000]
  }

  // ---------- who moves the launch on ----------

  /**
   * Sealing goes through exactly once, after graduation, while unpaused, signed by the
   * configured authority and with a nonzero pool, which it stores and logs.
   */
  lemma SealExact(w: World, authority: Signer, lbPair: Address)
    requires Reachable(w)
    ensures w.launch.Some? ==> w.config.Some?
    ensures var q := Step(w, SealGraduation(authority, lbPair));
            && (q.Success? <==>
                  && Phase(w) == 2 && !w.config.value.paused
                  && authority == w.config.value.graduationAuthority && lbPair != Default)
            && (q.Success? ==>
                  && Phase(q.value) == 3
                  && q.value == w.(launch := Some(w.launch.value.(poolSeeded := true, lbPair := lbPair)),
                                   log := w.log + [PoolSeeded(lbPair)]))
            && (q.Failure? ==>
                  q.error == if Phase(w) == 0 then AccountNotInitialized
                             else if authority != w.config.value.graduationAuthority then Unauthorized
                             else if w.config.value.paused then Paused
                             else if Phase(w) == 1 then NotGraduated
                             else if Phase(w) == 3 then PoolAlreadySeeded
                             else InvalidPoolAddress)
  {
    PhaseFixesSupplyAndPool(w);
    ReachableInv(w);
  }

  /** What it takes to end each phase. */
  predicate Advances(w: World, i: Instruction)
    requires ConfigInv(w)
  {
    && w.config.Some? && !w.config.value.paused
    && var c := w.config.value;
       match Phase(w)
       case 0 => i.CreateToken? && CreationNeeds(c, i.creator) <= Balance(w.lamports, i.creator)
       case 1 => i.Graduate? && Max(c.threshold, c.graduationFee) <= w.launch.value.curve.realSol
       case 2 => i.SealGraduation? && i.authority == c.graduationAuthority && i.lbPair != Default
       case _ => false
  }

  /** Each phase of a reachable world ends through one instruction only, and exactly under its own condition. */
  lemma WhoAdvancesPhase(w: World, i: Instruction)
    requires Reachable(w)
    ensures ConfigInv(w)
    ensures Phase(Next(w, i)) == if Advances(w, i) then Phase(w) + 1 else Phase(w)
    ensures Advances(w, i) && Phase(w) == 0 ==> Next(w, i).launch.value.creator == i.creator
    ensures Advances(w, i) && Phase(w) == 2 ==> Next(w, i).launch.value.lbPair == i.lbPair
  {
    PhaseFixesSupplyAndPool(w);
    ReachableInv(w);
    match i
    case Buy(buyer, t, maxSolIn) => if Step(w, i).Success? { BuyPhase(w, buyer, t, maxSolIn); }
    case Sell(seller, t, minSolOut) => if Step(w, i).Success? { SellPhase(w, seller, t, minSolOut); }
    case CreateToken(creator) => CreateAdvances(w, creator);
    case Graduate => GraduateAdvances(w);
    case SealGraduation(authority, lbPair) => SealExact(w, authority, lbPair);
    case _ => QuietSteps(w, i);
  }

  lemma CreateAdvances(w: World, creator: Signer)
    requires Inv(w)
    ensures CreateTokenStep(w, creator).Success? <==> Phase(w) == 0 && Advances(w, CreateToken(creator))
    ensures CreateTokenStep(w, creator).Success? ==>
              var next := CreateTokenStep(w, creator).value;
              Phase(next) == 1 && next.launch.value.creator == creator
  {
    CreateExact(w, creator);
  }

  lemma GraduateAdvances(w: World)
    requires Inv(w)
    ensures GraduateStep(w).Success? <==> Phase(w) == 1 && Advances(w, Graduate)
    ensures GraduateStep(w).Success? ==> Phase(GraduateStep(w).value) == 2
  {
    if Trading(w) {
      InvReady(w);
      GraduateExact(w);
      if GraduateStep(w).Success? {
        GraduateLeaves(w);
      }
    }
  }

  /** Before creation and after graduation every trade and every graduation is refused, for this reason. */
  lemma ClosedToTrade(w: World, i: Instruction)
    requires Reachable(w) && Phase(w) != 1 && (i.Buy? || i.Sell? || i.Graduate?)
    ensures w.launch.Some? ==> w.config.Some?
    ensures Step(w, i) == Failure(if w.launch.None? then AccountNotInitialized
                                  else if w.config.value.paused then Paused
                                  else AlreadyGraduated)
  {
    ReachableInv(w);
  }

  // ---------- what anyone can do beside the program ----------

  /** Anyone can send the lamports he has, and nothing else changes. */
  lemma SendLamportsExact(w: World, from: Signer, to: Address, amount: nat, a: Address)
    ensures var q := Step(w, SendLamports(from, to, amount));
            && (q.Success? <==> amount <= Balance(w.lamports, from))
            && (q.Success? ==>
                  && q.value == w.(lamports := q.value.lamports)
                  && Balance(q.value.lamports, a) == Balance(w.lamports, a)
                     + (if a == to then amount else 0) - (if a == from then amount else 0))
  {}

  /** The same for tokens. */
  lemma SendTokensExact(w: World, from: Signer, to: Address, amount: nat, a: Address)
    ensures var q := Step(w, SendTokens(from, to, amount));
            && (q.Success? <==> amount <= Balance(w.tokens, from))
            && (q.Success? ==>
                  && q.value == w.(tokens := q.value.tokens)
                  && Balance(q.value.tokens, a) == Balance(w.tokens, a)
                     + (if a == to then amount else 0) - (if a == from then amount else 0))
  {}
}
