/** What the whole program guarantees, over every run and every reachable world. */
module Theorems {
  import opened Wrappers
  import opened Types
  import opened Quotes
  import opened Curve
  import opened Ledgers
  import opened Model
  import opened Effects
  import opened Invariants
  import opened Lifecycle
  import Governance

  // ---------- no dead end in arithmetic ----------

  /** No instruction ever fails in arithmetic from a reachable world, whatever its arguments. */
  lemma NoArithmeticFailure(w: World, i: Instruction)
    requires Reachable(w)
    ensures Step(w, i).Failure? ==> !IsMathError(Step(w, i).error)
  {
    ReachableInv(w);
    match i
    case Buy(buyer, t, maxSolIn) => BuyNeverFailsInArithmetic(w, buyer, t, maxSolIn);
    case Sell(seller, t, minSolOut) => SellNeverFailsInArithmetic(w, seller, t, minSolOut);
    case Graduate => GraduateNeverFailsInArithmetic(w);
    case CreateToken(creator) => CreateNeverFailsInArithmetic(w, creator);
    case _ => OthersNeverFailInArithmetic(w, i);
  }

  lemma OthersNeverFailInArithmetic(w: World, i: Instruction)
    requires !i.Buy? && !i.Sell? && !i.Graduate? && !i.CreateToken?
    ensures Step(w, i).Failure? ==> !IsMathError(Step(w, i).error)
  {}

  lemma BuyNeverFailsInArithmetic(w: World, buyer: Signer, t: u64, maxSolIn: u64)
    requires Inv(w)
    ensures BuyStep(w, buyer, t, maxSolIn).Failure? ==> !IsMathError(BuyStep(w, buyer, t, maxSolIn).error)
  {
    if Trading(w) {
      InvReady(w);
      BuyExact(w, buyer, t, maxSolIn);
    }
  }

  lemma SellNeverFailsInArithmetic(w: World, seller: Signer, t: u64, minSolOut: u64)
    requires Inv(w)
    ensures SellStep(w, seller, t, minSolOut).Failure? ==> !IsMathError(SellStep(w, seller, t, minSolOut).error)
  {
    if Trading(w) {
      InvReady(w);
      SellExact(w, seller, t, minSolOut);
    }
  }

  lemma GraduateNeverFailsInArithmetic(w: World)
    requires Inv(w)
    ensures GraduateStep(w).Failure? ==> !IsMathError(GraduateStep(w).error)
  {
    if Trading(w) {
      InvReady(w);
      GraduateExact(w);
    }
  }

  lemma CreateNeverFailsInArithmetic(w: World, creator: Signer)
    requires ConfigInv(w)
    ensures CreateTokenStep(w, creator).Failure? ==> !IsMathError(CreateTokenStep(w, creator).error)
  {
    if w.config.Some? {
      var c := w.config.value;
      SplitTwoWayExact(c.creationFee, c.creationDinoBps);
      PayAllFailure(w.lamports, TwoShares(creator, c, Share(c.creationFee, c.creationDinoBps),
                                          c.creationFee - Share(c.creationFee, c.creationDinoBps)));
    }
  }

  /** In every reachable trading world a holder can sell what he holds, and no sell saturates tokens_sold. */
  lemma HoldersCanAlwaysSell(w: World, seller: Signer, t: u64)
    requires Reachable(w) && Trading(w) && !w.config.value.paused
    ensures SellStep(w, seller, t, 0).Success? <==> 0 < t <= Balance(w.tokens, seller)
    ensures t <= Balance(w.tokens, seller) ==> t <= w.launch.value.curve.sold
  {
    ReachableInv(w);
    InvReady(w);
    SellExact(w, seller, t, 0);
  }

  // ---------- the invariant in its own words ----------

  /** The bookkeeping of every reachable trading world. */
  lemma TradingBookkeeping(w: World)
    requires Reachable(w) && Trading(w)
    ensures var r := w.launch.value.curve;
            && r.virtualSol == 30_000_000_000
            && r.virtualToken - r.realToken == 436_363_636_000_000
            && r.realToken + r.sold == 800_000_000_000_000
            && r.realSol <= 5_000_000_000
            && r.realSol <= Balance(w.lamports, Vault)
            && r.realToken <= Balance(w.tokens, LaunchPda)
            && Total(w.tokens) - Balance(w.tokens, LaunchPda) <= r.sold
    ensures 0 < w.config.value.threshold <= 5_000_000_000
  {
    ReachableInv(w);
  }

  // ---------- lamports ----------

  /** No instruction creates or destroys a lamport, whoever the parties are. */
  lemma StepKeepsLamports(w: World, i: Instruction)
    ensures Total(Next(w, i).lamports) == Total(w.lamports)
  {
    if Step(w, i).Success? {
      match i
      case CreateToken(creator) =>
        var c := w.config.value;
        var shares := SplitTwoWay(c.creationFee, c.creationDinoBps).value;
        PayAllKeepsTotal(w.lamports, TwoShares(creator, c, shares.0, shares.1));
      case Buy(buyer, t, maxSolIn) => BuyKeepsLamports(w, buyer, t, maxSolIn);
      case Sell(seller, t, minSolOut) => SellKeepsLamports(w, seller, t, minSolOut);
      case Graduate => GraduateKeepsLamports(w, w.config.value, w.launch.value);
      case SendLamports(from, to, amount) => TransferKeepsTotal(w.lamports, from, to, amount);
      case _ =>
    }
  }

  lemma SettleBuyKeepsLamports(w: World, c: Config, la: Launch, buyer: Signer, t: u64, maxSolIn: u64, cost: u64)
    requires SettleBuy(w, c, la, buyer, t, maxSolIn, cost).Success?
    ensures Total(SettleBuy(w, c, la, buyer, t, maxSolIn, cost).value.lamports) == Total(w.lamports)
  {
    var shares := SplitThreeWay(CheckedShare(cost, c.tradeFeeBps).value, c.creatorBps, c.dinoBps, c.treasuryBps).value;
    TransferKeepsTotal(w.lamports, buyer, Vault, cost);
    PayAllKeepsTotal(Transfer(w.lamports, buyer, Vault, cost).value, ThreeShares(buyer, la.creator, c, shares));
  }

  lemma BuyKeepsLamports(w: World, buyer: Signer, t: u64, maxSolIn: u64)
    requires BuyStep(w, buyer, t, maxSolIn).Success?
    ensures Total(BuyStep(w, buyer, t, maxSolIn).value.lamports) == Total(w.lamports)
  {
    var r := w.launch.value.curve;
    var cost := SolInForTokensOut(r.virtualSol, r.virtualToken, r.realSol, r.realToken, t).value;
    SettleBuyKeepsLamports(w, w.config.value, w.launch.value, buyer, t, maxSolIn, cost);
  }

  lemma CompleteSellKeepsLamports(w: World, c: Config, la: Launch, seller: Signer, t: u64, gross: u64, fee: u64,
                                  shares: (u64, u64, u64))
    requires fee <= gross && CompleteSell(w, c, la, seller, t, gross, fee, shares).Success?
    ensures Total(CompleteSell(w, c, la, seller, t, gross, fee, shares).value.lamports) == Total(w.lamports)
  {
    TransferKeepsTotal(w.lamports, Vault, seller, gross - fee);
    PayAllKeepsTotal(Transfer(w.lamports, Vault, seller, gross - fee).value,
                     ThreeShares(Vault, la.creator, c, shares));
  }

  lemma SettleSellKeepsLamports(w: World, c: Config, la: Launch, seller: Signer, t: u64, minSolOut: u64, gross: u64)
    requires SettleSell(w, c, la, seller, t, minSolOut, gross).Success?
    ensures Total(SettleSell(w, c, la, seller, t, minSolOut, gross).value.lamports) == Total(w.lamports)
  {
    var fee := CheckedShare(gross, c.tradeFeeBps).value;
    var shares := SplitThreeWay(fee, c.creatorBps, c.dinoBps, c.treasuryBps).value;
    CompleteSellKeepsLamports(w, c, la, seller, t, gross, fee, shares);
  }

  lemma SellKeepsLamports(w: World, seller: Signer, t: u64, minSolOut: u64)
    requires SellStep(w, seller, t, minSolOut).Success?
    ensures Total(SellStep(w, seller, t, minSolOut).value.lamports) == Total(w.lamports)
  {
    var r := w.launch.value.curve;
    var gross := SolOutForTokensIn(r.virtualSol, r.virtualToken, r.realSol, t).value;
    SettleSellKeepsLamports(w, w.config.value, w.launch.value, seller, t, minSolOut, gross);
  }

  lemma GraduateKeepsLamports(w: World, c: Config, la: Launch)
    requires c.graduationFee <= la.curve.realSol && SettleGraduation(w, c, la).Success?
    ensures Total(SettleGraduation(w, c, la).value.lamports) == Total(w.lamports)
  {
    var shares := SplitTwoWay(c.graduationFee, c.graduationDinoBps).value;
    var fees := TwoShares(Vault, c, shares.0, shares.1);
    PayAllKeepsTotal(w.lamports, fees);
    TransferKeepsTotal(PayAll(w.lamports, fees).value, Vault, c.graduationAuthority,
                       la.curve.realSol - c.graduationFee);
  }

  lemma {:induction false} RunKeepsLamports(w: World, ix: seq<Instruction>)
    ensures Total(Run(w, ix).lamports) == Total(w.lamports)
  {
    if ix != [] {
      RunKeepsLamports(w, ix[..|ix| - 1]);
      StepKeepsLamports(Run(w, ix[..|ix| - 1]), ix[|ix| - 1]);
    }
  }

  /** What the three fee recipients together give one address; recipients may coincide. */
  function FeeIncome(c: Config, creator: Address, fee: u64, a: Address): nat
    requires Validate(c).Success?
  {
    var shares := FeeShares(c, fee);
    (if a == creator then shares.0 else 0)
    + (if a == c.dinoWallet then shares.1 else 0)
    + (if a == c.treasuryWallet then shares.2 else 0)
  }

  /** Every balance after a buy. */
  lemma BuyBalances(w: World, buyer: Signer, t: u64, maxSolIn: u64, a: Address)
    requires Ready(w) && BuyStep(w, buyer, t, maxSolIn).Success?
    ensures var c, la := w.config.value, w.launch.value;
            t <= la.curve.realToken
            && var cost := Cost(la.curve, t);
               var fee := TradeFee(c, cost);
               && cost + fee <= maxSolIn
               && Balance(BuyStep(w, buyer, t, maxSolIn).value.lamports, a)
                  == Balance(w.lamports, a) + FeeIncome(c, la.creator, fee, a)
                     + (if a == Vault then cost else 0) - (if a == buyer then cost + fee else 0)
  {
    BuyLeaves(w, buyer, t, maxSolIn);
    var c, la := w.config.value, w.launch.value;
    var ps := BuyPayments(c, la.creator, buyer, Cost(la.curve, t));
    PayAllBalances(w.lamports, ps, a);
    NetIsGains(ps, a);
  }

  /** Every balance after a sell. */
  lemma SellBalances(w: World, seller: Signer, t: u64, minSolOut: u64, a: Address)
    requires Ready(w) && SellStep(w, seller, t, minSolOut).Success?
    ensures var c, la := w.config.value, w.launch.value;
            var gross := Payout(la.curve, t);
            var fee := TradeFee(c, gross);
            && minSolOut <= gross - fee
            && Balance(SellStep(w, seller, t, minSolOut).value.lamports, a)
               == Balance(w.lamports, a) + FeeIncome(c, la.creator, fee, a)
                  + (if a == seller then gross - fee else 0) - (if a == Vault then gross else 0)
  {
    SellLeaves(w, seller, t, minSolOut);
    var c, la := w.config.value, w.launch.value;
    var ps := SellPayments(c, la.creator, seller, Payout(la.curve, t));
    PayAllBalances(w.lamports, ps, a);
    NetIsGains(ps, a);
  }

  /** What creating the launch leaves behind: a fresh curve, its allocation, and the creation fee paid. */
  lemma CreateBalances(w: World, creator: Signer, a: Address)
    requires Inv(w) && CreateTokenStep(w, creator).Success?
    ensures var c, next := w.config.value, CreateTokenStep(w, creator).value;
            var dino := Share(c.creationFee, c.creationDinoBps);
            && Trading(next) && next.launch.value.creator == creator && next.launch.value.curve == FRESH
            && Balance(next.lamports, a)
               == Balance(w.lamports, a)
                  + (if a == c.dinoWallet then dino else 0)
                  + (if a == c.treasuryWallet then c.creationFee - dino else 0)
                  - (if a == creator then c.creationFee else 0)
            && Balance(next.tokens, a) == (if a == LaunchPda then ALLOCATION else 0)
  {
    var c := w.config.value;
    SplitTwoWayExact(c.creationFee, c.creationDinoBps);
    var dino := Share(c.creationFee, c.creationDinoBps);
    var ps := TwoShares(creator, c, dino, c.creationFee - dino);
    PayAllBalances(w.lamports, ps, a);
    NetOfTwo(ps, a);
    BalanceWithinTotal(w.tokens, a);
    BalanceWithinTotal(w.tokens, LaunchPda);
  }

  lemma NetOfTwo(ps: seq<Payment>, a: Address)
    requires |ps| == 2
    ensures Net(ps, a) == Gain(ps[0], a) + Gain(ps[1], a)
  {
    var b := ps[1..];
    assert b[1..] == [];
    assert Net(b, a) == Gain(ps[1], a);
  }

  lemma BalanceWithinTotal(l: Ledger, a: Address)
    ensures Balance(l, a) <= Total(l)
  {
    TotalUpdate(l, a, 0);
  }

  /** Every balance after graduation, lamports and tokens. */
  lemma GraduateBalances(w: World, a: Address)
    requires Ready(w) && GraduateStep(w).Success?
    ensures var c, r, next := w.config.value, w.launch.value.curve, GraduateStep(w).value;
            var dino := Share(c.graduationFee, c.graduationDinoBps);
            && Balance(next.lamports, a)
               == Balance(w.lamports, a)
                  + (if a == c.dinoWallet then dino else 0)
                  + (if a == c.treasuryWallet then c.graduationFee - dino else 0)
                  + (if a == c.graduationAuthority then r.realSol - c.graduationFee else 0)
                  - (if a == Vault then r.realSol else 0)
            && Balance(next.tokens, a)
               == Balance(w.tokens, a) + (if a == c.graduationAuthority then GRADUATION_RESERVE else 0)
  {
    GraduateLeaves(w);
    var c, r := w.config.value, w.launch.value.curve;
    SplitTwoWayExact(c.graduationFee, c.graduationDinoBps);
    var ps := GraduationPayments(c, r.realSol);
    PayAllBalances(w.lamports, ps, a);
    NetIsGains(ps, a);
  }

  // ---------- the vault ----------

  /** Lamports in the vault beyond real_sol. */
  function VaultExcess(w: World): int
    requires Trading(w)
  {
    Balance(w.lamports, Vault) - w.launch.value.curve.realSol
  }

  /** Someone other than the curve itself may be paying the vault. */
  predicate PaysVault(w: World, i: Instruction)
    requires Trading(w)
  {
    || (i.SendLamports? && i.to == Vault)
    || w.launch.value.creator == Vault
    || w.config.value.dinoWallet == Vault
    || w.config.value.treasuryWallet == Vault
  }

  /** The excess never shrinks while trading, and stays put unless someone else pays the vault. */
  lemma VaultExcessKept(w: World, i: Instruction)
    requires Ready(w) && Trading(Next(w, i))
    ensures VaultExcess(w) <= VaultExcess(Next(w, i))
    ensures !PaysVault(w, i) ==> VaultExcess(w) == VaultExcess(Next(w, i))
  {
    if Step(w, i).Success? {
      match i
      case Buy(buyer, t, maxSolIn) =>
        BuyLeaves(w, buyer, t, maxSolIn);
        BuyBalances(w, buyer, t, maxSolIn, Vault);
      case Sell(seller, t, minSolOut) =>
        SellLeaves(w, seller, t, minSolOut);
        SellBalances(w, seller, t, minSolOut, Vault);
      case _ =>
    }
  }

  /** Over the run, nobody but trades pays the vault. */
  ghost predicate OnlyTradesPayVault(w: World, ix: seq<Instruction>) {
    ix == [] ||
    (var before := Run(w, ix[..|ix| - 1]);
     && OnlyTradesPayVault(w, ix[..|ix| - 1])
     && (Trading(before) ==> !PaysVault(before, ix[|ix| - 1])))
  }

  /** The vault then holds real_sol and whatever it held beside it from the start, to the lamport. */
  lemma {:induction false} RunKeepsVaultExact(w: World, ix: seq<Instruction>)
    requires Reachable(w) && Trading(w) && Trading(Run(w, ix)) && OnlyTradesPayVault(w, ix)
    ensures VaultExcess(Run(w, ix)) == VaultExcess(w)
  {
    ReachableInv(w);
    if ix != [] {
      var p := ix[..|ix| - 1];
      var before := Run(w, p);
      RunKeepsInv(w, p);
      PhaseFixesSupplyAndPool(w);
      RunPhases(w, p);
      NextPhase(before, ix[|ix| - 1]);
      InvReady(before);
      RunKeepsVaultExact(w, p);
      VaultExcessKept(before, ix[|ix| - 1]);
    }
  }

  // ---------- buying and selling back ----------

  /** The most a sell of t right after buying t can ask for: the quote less one fee. */
  function BuyBackLimit(w: World, t: u64): nat
    requires Ready(w) && t <= w.launch.value.curve.realToken
  {
    var cost := Cost(w.launch.value.curve, t);
    cost - TradeFee(w.config.value, cost)
  }

  /** Selling back what was just bought succeeds and restores the launch and every token balance. */
  lemma BuyThenSellRestoresLaunch(w: World, trader: Signer, t: u64, maxSolIn: u64, minSolOut: u64, a: Address)
    requires Inv(w) && Ready(w) && BuyStep(w, trader, t, maxSolIn).Success?
    requires t <= w.launch.value.curve.realToken && minSolOut <= BuyBackLimit(w, t)
    ensures var bought := BuyStep(w, trader, t, maxSolIn).value;
            var q := SellStep(bought, trader, t, minSolOut);
            && Inv(bought) && Ready(bought)
            && q.Success?
            && q.value.launch == w.launch && q.value.config == w.config == bought.config
            && bought.launch == Some(w.launch.value.(curve := bought.launch.value.curve))
            && OnCurve(bought.launch.value.curve)
            && Payout(bought.launch.value.curve, t) == Cost(w.launch.value.curve, t)
            && Balance(q.value.tokens, a) == Balance(w.tokens, a)
  {
    BuyExact(w, trader, t, maxSolIn);
    BuyKeepsInv(w, trader, t, maxSolIn);
    InvReady(BuyStep(w, trader, t, maxSolIn).value);
    BuyThenSellRestores(w.launch.value.curve, t);
    SellExact(BuyStep(w, trader, t, maxSolIn).value, trader, t, minSolOut);
  }

  /**
   * After a buy of t and a sell of t under the same configuration the trader is down exactly
   * two fees and the three recipients have received exactly that; no other balance differs.
   */
  lemma ExactInverse(w: World, trader: Signer, t: u64, maxSolIn: u64, minSolOut: u64, a: Address)
    requires Inv(w) && Ready(w) && BuyStep(w, trader, t, maxSolIn).Success?
    requires t <= w.launch.value.curve.realToken && minSolOut <= BuyBackLimit(w, t)
    ensures var c, la := w.config.value, w.launch.value;
            var q := SellStep(BuyStep(w, trader, t, maxSolIn).value, trader, t, minSolOut);
            var fee := TradeFee(c, Cost(la.curve, t));
            && q.Success?
            && q.value.launch == w.launch && q.value.config == w.config
            && Balance(q.value.tokens, a) == Balance(w.tokens, a)
            && Balance(q.value.lamports, a)
               == Balance(w.lamports, a) + 2 * FeeIncome(c, la.creator, fee, a) - (if a == trader then 2 * fee else 0)
  {
    BuyThenSellRestoresLaunch(w, trader, t, maxSolIn, minSolOut, a);
    BuyBalances(w, trader, t, maxSolIn, a);
    SellBalances(BuyStep(w, trader, t, maxSolIn).value, trader, t, minSolOut, a);
  }

  // ---------- drift and shortfall ----------

  /** The product after any run, by the number of buys and sells the log records. */
  lemma RunDrift(w: World)
    requires Reachable(w) && Trading(w)
    ensures FRESH_PRODUCT - Sells(Trades(w.log)) * (VIRTUAL_TOKENS - 1)
         <= Product(w.launch.value.curve)
         <= FRESH_PRODUCT + Buys(Trades(w.log)) * (VIRTUAL_TOKENS - 1)
  {
    ReachableInv(w);
    FreshDrift(Trades(w.log));
  }

  lemma SellPaysPayout(w: World, seller: Signer, t: u64, minSolOut: u64)
    requires Ready(w) && SellStep(w, seller, t, minSolOut).Success?
    ensures var r, next := w.launch.value.curve, SellStep(w, seller, t, minSolOut).value;
            && 0 < t <= r.sold
            && Trading(next)
            && next.launch.value.curve == Play(r, SellTokens(t))
            && r.realSol - next.launch.value.curve.realSol == Payout(r, t)
  {
    SellExact(w, seller, t, minSolOut);
  }

  /** The real_sol cap costs any seller at most one lamport per earlier sell, and nothing before the first. */
  lemma RunShortfall(w: World, seller: Signer, t: u64, minSolOut: u64)
    requires Inv(w) && Trading(w) && SellStep(w, seller, t, minSolOut).Success?
    ensures var r, next := w.launch.value.curve, SellStep(w, seller, t, minSolOut).value;
            var paid := r.realSol - next.launch.value.curve.realSol;
            RawPayout(r, t) - Sells(Trades(w.log)) <= paid <= RawPayout(r, t)
  {
    InvReady(w);
    SellPaysPayout(w, seller, t, minSolOut);
    ShortfallBounded(Trades(w.log), t);
  }

  // ---------- two moments of one run ----------

  lemma NextExtendsLog(w: World, i: Instruction)
    ensures w.log <= Next(w, i).log
  {
    match i
    case Buy(buyer, t, maxSolIn) => Governance.BuyFrame(w, buyer, t, maxSolIn);
    case Sell(seller, t, minSolOut) => Governance.SellFrame(w, seller, t, minSolOut);
    case _ =>
  }

  lemma {:induction false} RunExtendsLog(w: World, ix: seq<Instruction>)
    ensures w.log <= Run(w, ix).log
  {
    if ix != [] {
      RunExtendsLog(w, ix[..|ix| - 1]);
      NextExtendsLog(Run(w, ix[..|ix| - 1]), ix[|ix| - 1]);
    }
  }

  lemma {:induction false} TradesOfPrefix(a: seq<Event>, b: seq<Event>)
    requires a <= b
    ensures Trades(a) <= Trades(b)
    decreases b
  {
    if a == b {
    } else {
      TradesOfPrefix(a, b[..|b| - 1]);
    }
  }

  /** The trades executed between two moments. */
  function TradesBetween(w: World, later: World): seq<Move>
    requires Trades(w.log) <= Trades(later.log)
  {
    Trades(later.log)[|Trades(w.log)|..]
  }

  /** Between two trading moments of a run, the later curve is the earlier one with the trades replayed. */
  lemma RunReplays(w: World, ix: seq<Instruction>)
    requires Reachable(w) && Trading(w) && Trading(Run(w, ix))
    ensures Trades(w.log) <= Trades(Run(w, ix).log)
    ensures OnCurve(w.launch.value.curve)
    ensures Replay(w.launch.value.curve, TradesBetween(w, Run(w, ix))) == Some(Run(w, ix).launch.value.curve)
  {
    ReachableInv(w);
    RunKeepsInv(w, ix);
    RunExtendsLog(w, ix);
    TradesOfPrefix(w.log, Run(w, ix).log);
    ReplayConcat(FRESH, Trades(w.log), TradesBetween(w, Run(w, ix)));
    assert Trades(w.log) + TradesBetween(w, Run(w, ix)) == Trades(Run(w, ix).log);
  }

  /** A run between equal tokens_sold lowers real_sol by less than three lamports per sell in it. */
  lemma RunClosedLoop(w: World, ix: seq<Instruction>)
    requires Reachable(w) && Trading(w) && Trading(Run(w, ix))
    requires Run(w, ix).launch.value.curve.sold == w.launch.value.curve.sold
    ensures Trades(w.log) <= Trades(Run(w, ix).log)
    ensures var drop := w.launch.value.curve.realSol - Run(w, ix).launch.value.curve.realSol;
            var s := Sells(TradesBetween(w, Run(w, ix)));
            if s == 0 then drop <= 0 else drop < 3 * s
  {
    RunReplays(w, ix);
    ClosedLoop(w.launch.value.curve, TradesBetween(w, Run(w, ix)));
  }

  /** A run that buys and then sells back everything at once never lowers real_sol. */
  lemma RunBuysThenOneSell(w: World, ix: seq<Instruction>, buys: seq<Move>, t: u64)
    requires Reachable(w) && Trading(w) && Trading(Run(w, ix))
    requires Run(w, ix).launch.value.curve.sold == w.launch.value.curve.sold
    requires Buys(buys) == |buys| && Trades(Run(w, ix).log) == Trades(w.log) + buys + [SellTokens(t)]
    ensures w.launch.value.curve.realSol <= Run(w, ix).launch.value.curve.realSol
  {
    RunReplays(w, ix);
    assert TradesBetween(w, Run(w, ix)) == buys + [SellTokens(t)];
    BuysThenOneSell(w.launch.value.curve, buys, t);
  }

  /**
   * A run that only sells pays out together at least the payout of one sell of the total and
   * at most one lamport more for each sell after the first, whoever sells and whatever else
   * happens in between.
   */
  lemma RunSplitSells(w: World, ix: seq<Instruction>)
    requires Reachable(w) && Trading(w) && Trading(Run(w, ix))
    ensures Trades(w.log) <= Trades(Run(w, ix).log)
    ensures var ms := TradesBetween(w, Run(w, ix));
            ms != [] && Sells(ms) == |ms| ==>
              PayAboutOneSell(w.launch.value.curve, Run(w, ix).launch.value.curve, |ms|)
  {
    RunReplays(w, ix);
    var ms := TradesBetween(w, Run(w, ix));
    if ms != [] && Sells(ms) == |ms| {
      SellsPay(w.launch.value.curve, ms, Run(w, ix).launch.value.curve);
    }
  }

  /**
   * A run that only buys costs together at least the cost of one buy of the total and at
   * most three lamports more for each buy after the first.
   */
  lemma RunSplitBuys(w: World, ix: seq<Instruction>)
    requires Reachable(w) && Trading(w) && Trading(Run(w, ix))
    ensures Trades(w.log) <= Trades(Run(w, ix).log)
    ensures var ms := TradesBetween(w, Run(w, ix));
            ms != [] && Buys(ms) == |ms| ==>
              CostAboutOneBuy(w.launch.value.curve, Run(w, ix).launch.value.curve, |ms|)
  {
    RunReplays(w, ix);
    var ms := TradesBetween(w, Run(w, ix));
    if ms != [] && Buys(ms) == |ms| {
      SplitBuys(w.launch.value.curve, ms);
    }
  }

  /**
   * Exactly when a run that only buys costs together what one buy of the total costs: the
   * product before its last buy must not have outgrown the multiple of the final virtual
   * tokens that the single buy rounds up to.
   */
  lemma RunSplitBuysCostTheSameIff(w: World, ix: seq<Instruction>)
    requires Reachable(w) && Trading(w) && Trading(Run(w, ix))
    ensures Trades(w.log) <= Trades(Run(w, ix).log) && OnCurve(w.launch.value.curve)
    ensures var ms := TradesBetween(w, Run(w, ix));
            var c, d := w.launch.value.curve, Run(w, ix).launch.value.curve;
            ms != [] && Buys(ms) == |ms| ==> (CostExactlyOneBuy(c, d) <==> LastPieceWithinRoom(c, ms, d))
  {
    RunReplays(w, ix);
    var ms := TradesBetween(w, Run(w, ix));
    if ms != [] && Buys(ms) == |ms| {
      SplitBuysCostTheSameIff(w.launch.value.curve, ms, Run(w, ix).launch.value.curve);
    }
  }

  /** In every reachable trading world tokens_sold is the lifetime total exactly as long as nobody has sold. */
  lemma RunSoldIsLifetimeIff(w: World)
    requires Reachable(w) && Trading(w)
    ensures w.launch.value.curve.sold <= Lifetime(Trades(w.log))
    ensures w.launch.value.curve.sold == Lifetime(Trades(w.log)) <==> Sells(Trades(w.log)) == 0
  {
    ReachableInv(w);
    SoldIsLifetimeIff(Trades(w.log));
  }

  // ---------- after graduation ----------

  /** The unsold tokens stay with the launch after graduation. */
  lemma UnsoldTokensStay(w: World)
    requires Reachable(w) && Phase(w) >= 2
    ensures ALLOCATION - w.launch.value.curve.sold <= Balance(w.tokens, LaunchPda)
  {
    ReachableInv(w);
  }

  lemma HoldingsStep(w: World, i: Instruction)
    requires Phase(w) >= 2
    ensures Balance(w.tokens, LaunchPda) <= Balance(Next(w, i).tokens, LaunchPda)
    ensures Balance(w.lamports, Vault) <= Balance(Next(w, i).lamports, Vault)
  {}

  /** From graduation on, neither the launch's tokens nor the vault's lamports ever fall. */
  lemma {:induction false} HoldingsNeverFall(w: World, ix: seq<Instruction>)
    requires PhaseLogged(w) && Phase(w) >= 2
    ensures Balance(w.tokens, LaunchPda) <= Balance(Run(w, ix).tokens, LaunchPda)
    ensures Balance(w.lamports, Vault) <= Balance(Run(w, ix).lamports, Vault)
  {
    if ix != [] {
      var p := ix[..|ix| - 1];
      HoldingsNeverFall(w, p);
      RunPhases(w, p);
      HoldingsStep(Run(w, p), ix[|ix| - 1]);
    }
  }

  // ---------- liveness of graduation ----------

  /** The beta cap is reached and graduation is accepted. */
  predicate Graduates(w: World) {
    Trading(w) && w.launch.value.curve.realSol == MAX_REAL_SOL && GraduateStep(w).Success?
  }

  /** Lamports a curve is short of the beta cap. */
  function Gap(c: Reserves): u64 {
    if c.realSol <= MAX_REAL_SOL then MAX_REAL_SOL - c.realSol else 0
  }

  /** What a buyer needs to close that gap: the lamports and their fee. */
  function GapCost(w: World): nat
    requires Trading(w)
  {
    Gap(w.launch.value.curve) + Share(Gap(w.launch.value.curve), w.config.value.tradeFeeBps)
  }

  /** One accepted buy takes the world to graduation. */
  ghost predicate GraduatesAfterBuy(w: World, buyer: Signer, t: u64) {
    BuyStep(w, buyer, t, U64_MAX).Success? && Graduates(BuyStep(w, buyer, t, U64_MAX).value)
  }

  /**
   * From every trading world of every run with at most SELLS_TOLERATED sells (over 1.76e10),
   * an unpaused launch is at most one buy away from graduating, for any buyer who holds the
   * missing lamports and their fee, exactly when its graduation fee is within the cap.
   */
  lemma GraduationStaysPossible(w: World, buyer: Signer)
    requires Reachable(w) && Trading(w) && !w.config.value.paused
    requires Sells(Trades(w.log)) <= SELLS_TOLERATED
    requires Balance(w.lamports, buyer) >= GapCost(w)
    ensures Graduates(w) || (exists t :: GraduatesAfterBuy(w, buyer, t))
            <==> w.config.value.graduationFee <= MAX_REAL_SOL
  {
    ReachableInv(w);
    InvReady(w);
    if w.config.value.graduationFee <= MAX_REAL_SOL {
      CapStaysReachable(Trades(w.log));
      if w.launch.value.curve.realSol == MAX_REAL_SOL {
        GraduateExact(w);
      } else {
        var t :| LandsOnCap(w.launch.value.curve, t);
        BuyToCapGraduates(w, buyer, t);
        assert GraduatesAfterBuy(w, buyer, t);
      }
    } else {
      FeeAboveCapBlocksGraduation(w);
      forall t | GraduatesAfterBuy(w, buyer, t)
        ensures false
      {
        BuyKeepsInv(w, buyer, t, U64_MAX);
        BuyLeaves(w, buyer, t, U64_MAX);
        FeeAboveCapBlocksGraduation(BuyStep(w, buyer, t, U64_MAX).value);
      }
    }
  }

  /** A graduation fee above the cap, which validation allows, blocks graduation in every trading world. */
  lemma FeeAboveCapBlocksGraduation(w: World)
    requires Inv(w) && Trading(w) && w.config.value.graduationFee > MAX_REAL_SOL
    ensures GraduateStep(w).Failure?
  {
    InvReady(w);
    GraduateExact(w);
  }

  lemma BuyToCapGraduates(w: World, buyer: Signer, t: u64)
    requires Inv(w) && Ready(w) && !w.config.value.paused
    requires w.config.value.graduationFee <= MAX_REAL_SOL
    requires LandsOnCap(w.launch.value.curve, t)
    requires Balance(w.lamports, buyer) >= GapCost(w)
    ensures BuyStep(w, buyer, t, U64_MAX).Success? && Graduates(BuyStep(w, buyer, t, U64_MAX).value)
  {
    var c, la := w.config.value, w.launch.value;
    var cost := Cost(la.curve, t);
    var ps := BuyPayments(c, la.creator, buyer, cost);
    AmountOfFour(ps);
    NeededIsAmount(ps, buyer);
    BuyExact(w, buyer, t, U64_MAX);
    BuyKeepsInv(w, buyer, t, U64_MAX);
    InvReady(BuyStep(w, buyer, t, U64_MAX).value);
    GraduateExact(BuyStep(w, buyer, t, U64_MAX).value);
  }
}
