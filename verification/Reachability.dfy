/**
 * Every legal sequence of trades happens in some run, so what the curve can do, the program
 * can do. The concrete runs in which the code departs from its documentation follow.
 */
module Reachability {
  import opened Wrappers
  import opened Types
  import opened Quotes
  import opened Curve
  import opened Ledgers
  import opened Model
  import opened Effects
  import opened Invariants
  import opened Lifecycle
  import opened Governance
  import opened Theorems

  // ---------- one trader's run ----------

  const TRADER: Signer := Wallet(0)
  const TERMS := InitParams(Wallet(1), Wallet(2), Wallet(3), 0, 5000, 3000, 2000, 0, 0, 0, 0, MAX_REAL_SOL)
  const FUNDED := Genesis(map[TRADER := MAX_REAL_SOL])
  const SETUP := [InitializeConfig(TRADER, TERMS), CreateToken(TRADER)]

  function TraderMakes(m: Move): Instruction {
    match m
    case BuyTokens(t) => Buy(TRADER, t, U64_MAX)
    case SellTokens(t) => Sell(TRADER, t, 0)
  }

  /** A launch without fees on which one trader makes the given trades. */
  function Script(ms: seq<Move>): seq<Instruction> {
    if ms == [] then SETUP else Script(ms[..|ms| - 1]) + [TraderMakes(ms[|ms| - 1])]
  }

  /** The trader holds the tokens in circulation and the lamports that are not in the curve. */
  ghost predicate Played(w: World, c: Reserves, ms: seq<Move>) {
    && Reachable(w) && Trading(w)
    && w.config == Some(Initialized(TRADER, TERMS))
    && w.launch.value.curve == c
    && Trades(w.log) == ms
    && Balance(w.lamports, TRADER) + c.realSol == MAX_REAL_SOL
    && Balance(w.tokens, TRADER) == c.sold
  }

  lemma ReachableRun(lamports: Ledger, ix: seq<Instruction>)
    ensures Reachable(Run(Genesis(lamports), ix))
  {}

  lemma RunOneMore(w: World, ix: seq<Instruction>, i: Instruction)
    ensures Run(w, ix + [i]) == Next(Run(w, ix), i)
  {
    assert (ix + [i])[..|ix + [i]| - 1] == ix;
  }

  lemma Configured()
    ensures Next(FUNDED, InitializeConfig(TRADER, TERMS)) ==
            FUNDED.(config := Some(Initialized(TRADER, TERMS)),
                    log := [ConfigInitialized(TRADER, TERMS.dinoWallet, TERMS.treasuryWallet)])
  {}

  lemma Created(w: World)
    requires w.config == Some(Initialized(TRADER, TERMS)) && w.launch.None?
    ensures Next(w, CreateToken(TRADER)) ==
            w.(launch := Some(Launch(TRADER, FRESH, false, false, Default, 0, 0)),
               tokens := Deposit(w.tokens, LaunchPda, ALLOCATION),
               minted := w.minted + ALLOCATION,
               log := w.log + [TokenCreated(TRADER, 0, 0, 0)])
  {
    var c := w.config.value;
    assert TwoShares(TRADER, c, 0, 0)[1..] == [Payment(TRADER, c.treasuryWallet, 0)];
    assert PayAll(w.lamports, TwoShares(TRADER, c, 0, 0)) == Success(w.lamports);
  }

  lemma SetupPlayed()
    ensures Played(Run(FUNDED, SETUP), FRESH, [])
  {
    var configured := Next(FUNDED, InitializeConfig(TRADER, TERMS));
    Configured();
    Created(configured);
    RunOneMore(FUNDED, [], InitializeConfig(TRADER, TERMS));
    RunOneMore(FUNDED, [InitializeConfig(TRADER, TERMS)], CreateToken(TRADER));
    assert SETUP == [InitializeConfig(TRADER, TERMS)] + [CreateToken(TRADER)];
    ReachableRun(map[TRADER := MAX_REAL_SOL], SETUP);
    TradesSame([], configured.log[0]);
    assert configured.log == [] + [configured.log[0]];
    TradesSame(configured.log, TokenCreated(TRADER, 0, 0, 0));
  }

  /** Without a trade fee nobody earns one. */
  lemma NoFees(w: World, amount: u64)
    requires ConfigInv(w) && w.config == Some(Initialized(TRADER, TERMS))
    ensures TradeFee(w.config.value, amount) == 0
    ensures forall creator, a :: FeeIncome(w.config.value, creator, 0, a) == 0
  {}

  lemma PlayedReady(w: World, c: Reserves, ms: seq<Move>)
    requires Played(w, c, ms)
    ensures Ready(w)
  {
    ReachableInv(w);
    InvReady(w);
  }

  /** One trade that moved the trader's balances as it moved the curve keeps the game going. */
  lemma OneMorePlayed(w: World, c: Reserves, ms: seq<Move>, m: Move, e: Event, next: World)
    requires Played(w, c, ms) && OnCurve(c) && LegalMove(c, m) && Reachable(next)
    requires next == w.(launch := Some(w.launch.value.(curve := Play(c, m))),
                        lamports := next.lamports, tokens := next.tokens, log := w.log + [e])
    requires TradesOf(e) == [m]
    requires Balance(next.lamports, TRADER) + Play(c, m).realSol == Balance(w.lamports, TRADER) + c.realSol
    requires Balance(next.tokens, TRADER) - Play(c, m).sold == Balance(w.tokens, TRADER) - c.sold
    ensures Played(next, Play(c, m), ms + [m])
  {
    TradesAppend(w.log, e);
  }

  lemma BuyAnswered(w: World, c: Reserves, ms: seq<Move>, t: u64)
    requires Played(w, c, ms) && OnCurve(c) && LegalMove(c, BuyTokens(t)) && Ready(w)
    ensures BuyStep(w, TRADER, t, U64_MAX).Success?
  {
    NoFees(w, Cost(c, t));
    BuyNeedsInWords(w.config.value, w.launch.value.creator, TRADER, Cost(c, t));
    BuyExact(w, TRADER, t, U64_MAX);
  }

  lemma BuyMovesLamports(w: World, c: Reserves, ms: seq<Move>, t: u64)
    requires Played(w, c, ms) && Ready(w) && BuyStep(w, TRADER, t, U64_MAX).Success? && LegalMove(c, BuyTokens(t))
    ensures Balance(BuyStep(w, TRADER, t, U64_MAX).value.lamports, TRADER) == Balance(w.lamports, TRADER) - Cost(c, t)
  {
    BuyBalances(w, TRADER, t, U64_MAX, TRADER);
    NoFees(w, Cost(c, t));
  }

  lemma BuyPlayed(w: World, c: Reserves, ms: seq<Move>, t: u64, next: World)
    requires Played(w, c, ms) && Ready(w) && LegalMove(c, BuyTokens(t))
    requires Reachable(next) && BuyStep(w, TRADER, t, U64_MAX) == Success(next)
    ensures Played(next, Play(c, BuyTokens(t)), ms + [BuyTokens(t)])
  {
    BuyLeaves(w, TRADER, t, U64_MAX);
    BuyMovesLamports(w, c, ms, t);
    OneMorePlayed(w, c, ms, BuyTokens(t),
                  BuyEvent(w.config.value, TRADER, t, Cost(c, t), Play(c, BuyTokens(t))), next);
  }

  lemma SellAnswered(w: World, c: Reserves, ms: seq<Move>, t: u64)
    requires Played(w, c, ms) && OnCurve(c) && LegalMove(c, SellTokens(t)) && Ready(w)
    ensures SellStep(w, TRADER, t, 0).Success?
  {
    SellExact(w, TRADER, t, 0);
  }

  lemma SellMovesLamports(w: World, c: Reserves, ms: seq<Move>, t: u64)
    requires Played(w, c, ms) && Ready(w) && SellStep(w, TRADER, t, 0).Success?
    ensures Balance(SellStep(w, TRADER, t, 0).value.lamports, TRADER) == Balance(w.lamports, TRADER) + Payout(c, t)
  {
    SellBalances(w, TRADER, t, 0, TRADER);
    NoFees(w, Payout(c, t));
  }

  lemma SellPlayed(w: World, c: Reserves, ms: seq<Move>, t: u64, next: World)
    requires Played(w, c, ms) && Ready(w) && LegalMove(c, SellTokens(t))
    requires Reachable(next) && SellStep(w, TRADER, t, 0) == Success(next)
    ensures Played(next, Play(c, SellTokens(t)), ms + [SellTokens(t)])
  {
    SellLeaves(w, TRADER, t, 0);
    SellMovesLamports(w, c, ms, t);
    OneMorePlayed(w, c, ms, SellTokens(t),
                  SellEvent(w.config.value, TRADER, t, Payout(c, t), Play(c, SellTokens(t))), next);
  }

  /** An illegal trade is refused. */
  lemma MoveRefused(w: World, c: Reserves, ms: seq<Move>, m: Move)
    requires Played(w, c, ms) && OnCurve(c) && !LegalMove(c, m)
    ensures Next(w, TraderMakes(m)) == w
  {
    PlayedReady(w, c, ms);
    match m
    case BuyTokens(t) => BuyExact(w, TRADER, t, U64_MAX);
    case SellTokens(t) => SellExact(w, TRADER, t, 0);
  }

  lemma MovePlayed(w: World, c: Reserves, ms: seq<Move>, m: Move)
    requires Played(w, c, ms) && OnCurve(c) && LegalMove(c, m) && Reachable(Next(w, TraderMakes(m)))
    ensures Played(Next(w, TraderMakes(m)), Play(c, m), ms + [m])
  {
    PlayedReady(w, c, ms);
    match m
    case BuyTokens(t) =>
      BuyAnswered(w, c, ms, t);
      BuyPlayed(w, c, ms, t, Next(w, TraderMakes(m)));
    case SellTokens(t) =>
      SellAnswered(w, c, ms, t);
      SellPlayed(w, c, ms, t, Next(w, TraderMakes(m)));
  }

  /** The program accepts of an attempted sequence of trades exactly the legal ones, and they have their effect. */
  lemma {:induction false} ScriptAttempts(ms: seq<Move>)
    ensures Played(Run(FUNDED, Script(ms)), Attempt(FRESH, ms), Accepted(FRESH, ms))
  {
    if ms == [] {
      SetupPlayed();
    } else {
      var p, m := ms[..|ms| - 1], ms[|ms| - 1];
      var w, c := Run(FUNDED, Script(p)), Attempt(FRESH, p);
      ScriptAttempts(p);
      RunOneMore(FUNDED, Script(p), TraderMakes(m));
      ReachableRun(map[TRADER := MAX_REAL_SOL], Script(ms));
      if LegalMove(c, m) {
        ReplayOneMore(FRESH, Accepted(FRESH, p), m);
        MovePlayed(w, c, Accepted(FRESH, p), m);
      } else {
        MoveRefused(w, c, Accepted(FRESH, p), m);
      }
    }
  }

  /** So the scripted run of a legal sequence makes exactly its trades. */
  lemma ScriptPlays(ms: seq<Move>)
    requires Replay(FRESH, ms).Some?
    ensures Played(Run(FUNDED, Script(ms)), Replay(FRESH, ms).value, ms)
  {
    AllAcceptedIff(FRESH, ms);
    ScriptAttempts(ms);
  }

  /** The curves of reachable trading worlds are exactly the curves that legal trades lead to from a fresh one. */
  lemma ReachableCurvesAreReplays(c: Reserves)
    ensures (exists w :: Reachable(w) && Trading(w) && w.launch.value.curve == c)
            <==> (exists ms :: Replay(FRESH, ms) == Some(c))
  {
    if w :| Reachable(w) && Trading(w) && w.launch.value.curve == c {
      ReachableInv(w);
      assert Replay(FRESH, Trades(w.log)) == Some(c);
    }
    if ms :| Replay(FRESH, ms) == Some(c) {
      ScriptPlays(ms);
    }
  }

  // ---------- to the end of the lifecycle ----------

  lemma NextReachable(w: World, i: Instruction)
    requires Reachable(w)
    ensures Reachable(Next(w, i))
  {
    var lamports, ix :| w == Run(Genesis(lamports), ix);
    RunOneMore(Genesis(lamports), ix, i);
    ReachableRun(lamports, ix + [i]);
  }

  /** Once graduation goes through, the configured authority can seal the launch with any pool. */
  lemma SealingFollows(w: World, lbPair: Address)
    requires Reachable(w) && Graduates(w) && w.config.value.graduationAuthority.Wallet? && lbPair != Default
    ensures var sealed := Next(Next(w, Graduate), SealGraduation(w.config.value.graduationAuthority, lbPair));
            Reachable(sealed) && Phase(sealed) == 3 && sealed.launch.value.lbPair == lbPair
  {
    ReachableInv(w);
    InvReady(w);
    GraduateLeaves(w);
    var graduated := Next(w, Graduate);
    NextReachable(w, Graduate);
    var i := SealGraduation(w.config.value.graduationAuthority, lbPair);
    NextReachable(graduated, i);
    WhoAdvancesPhase(graduated, i);
  }

  /** Some run of the program goes all the way: created, sold to the cap, graduated and sealed. */
  lemma SealedIsReached(lbPair: Address)
    requires lbPair != Default
    ensures exists w :: Reachable(w) && Phase(w) == 3 && w.launch.value.lbPair == lbPair
  {
    SetupPlayed();
    SealedFrom(Run(FUNDED, SETUP), lbPair);
  }

  lemma SealedFrom(w: World, lbPair: Address)
    requires Played(w, FRESH, []) && lbPair != Default
    ensures exists w :: Reachable(w) && Phase(w) == 3 && w.launch.value.lbPair == lbPair
  {
    CanGraduate(w);
    var t :| GraduatesAfterBuy(w, TRADER, t);
    var capped := CapBought(w, t);
    SealedAfter(capped, lbPair);
  }

  lemma CapBought(w: World, t: u64) returns (capped: World)
    requires Reachable(w) && GraduatesAfterBuy(w, TRADER, t)
    ensures Reachable(capped) && Graduates(capped) && capped.config == w.config
  {
    NextReachable(w, Buy(TRADER, t, U64_MAX));
    BuyFrame(w, TRADER, t, U64_MAX);
    capped := BuyStep(w, TRADER, t, U64_MAX).value;
  }

  lemma SealedAfter(w: World, lbPair: Address)
    requires Reachable(w) && Graduates(w) && w.config == Some(Initialized(TRADER, TERMS)) && lbPair != Default
    ensures exists w :: Reachable(w) && Phase(w) == 3 && w.launch.value.lbPair == lbPair
  {
    SealingFollows(w, lbPair);
  }

  lemma CanGraduate(w: World)
    requires Played(w, FRESH, [])
    ensures exists t :: GraduatesAfterBuy(w, TRADER, t)
  {
    assert GapCost(w) == MAX_REAL_SOL;
    GraduationStaysPossible(w, TRADER);
    assert !Graduates(w);
  }

  // ---------- where the documentation is departed from ----------

  lemma OneMove(m: Move)
    requires LegalMove(FRESH, m)
    ensures Replay(FRESH, [m]) == Some(Play(FRESH, m))
  {
    assert [m][..|[m]| - 1] == [];
  }

  /** After one purchase of one base unit, selling it back pays a lamport where the documented floor is none. */
  lemma PayoutAboveFloorIsReached()
    ensures var w := Run(FUNDED, Script([BuyTokens(1)]));
            && Reachable(w) && Trading(w) && OnCurve(w.launch.value.curve)
            && SellStep(w, TRADER, 1, 1).Success?
            && FloorPayout(X(w.launch.value.curve), Y(w.launch.value.curve), 1) == 0
  {
    SellCanPayMoreThanFloor();
    OneMove(BuyTokens(1));
    ScriptPlays([BuyTokens(1)]);
    var w := Run(FUNDED, Script([BuyTokens(1)]));
    ReachableInv(w);
    InvReady(w);
    NoFees(w, 1);
    SellExact(w, TRADER, 1, 1);
  }

  /** Two base units cost two lamports bought one by one, and one lamport bought together. */
  lemma SplittingCostsMoreIsReached()
    ensures var apart := Run(FUNDED, Script([BuyTokens(1), BuyTokens(1)]));
            var together := Run(FUNDED, Script([BuyTokens(2)]));
            && Reachable(apart) && Trading(apart) && apart.launch.value.curve.realSol == 2
            && Reachable(together) && Trading(together) && together.launch.value.curve.realSol == 1
            && apart.launch.value.curve.sold == together.launch.value.curve.sold == 2
  {
    SplittingCanCostMore();
    OneMove(BuyTokens(1));
    OneMove(BuyTokens(2));
    assert [BuyTokens(1), BuyTokens(1)][..1] == [BuyTokens(1)];
    ScriptPlays([BuyTokens(1), BuyTokens(1)]);
    ScriptPlays([BuyTokens(2)]);
  }

  /** Buying one base unit and selling it back leaves tokens_sold at zero, one behind the lifetime total. */
  lemma SoldBehindLifetimeIsReached()
    ensures var w := Run(FUNDED, Script([BuyTokens(1), SellTokens(1)]));
            Reachable(w) && Trading(w) && w.launch.value.curve.sold == 0 && Lifetime(Trades(w.log)) == 1
  {
    SellCanPayMoreThanFloor();
    OneMove(BuyTokens(1));
    BuyThenSellRestores(FRESH, 1);
    assert [BuyTokens(1), SellTokens(1)][..1] == [BuyTokens(1)];
    ScriptPlays([BuyTokens(1), SellTokens(1)]);
    assert Lifetime([BuyTokens(1)]) == 1;
  }
}
