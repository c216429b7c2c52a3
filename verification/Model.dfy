/**
 * The program as a transition function over values: what each instruction does to the
 * configuration, the launch, both ledgers and the event log, and when it is rejected.
 */
module Model {
  import opened Wrappers
  import opened Types
  import opened Quotes
  import opened Curve
  import opened Ledgers

  // ---------- state ----------

  datatype Config = Config(
    admin: Address,
    dinoWallet: Address,
    treasuryWallet: Address,
    graduationAuthority: Address,
    tradeFeeBps: u16,
    creatorBps: u16,
    dinoBps: u16,
    treasuryBps: u16,
    creationFee: u64,
    creationDinoBps: u16,
    graduationFee: u64,
    graduationDinoBps: u16,
    threshold: u64,
    paused: bool)

  datatype Launch = Launch(
    creator: Address,
    curve: Reserves,
    graduated: bool,
    poolSeeded: bool,
    lbPair: Address,
    graduationSol: u64,
    graduationTokens: u64)

  datatype Event =
    | ConfigInitialized(admin: Address, dinoWallet: Address, treasuryWallet: Address)
    | ConfigUpdated(admin: Address)
    | TokenCreated(creator: Address, creationFee: u64, dinoShare: u64, treasuryShare: u64)
    | TradeExecuted(trader: Address, isBuy: bool, solAmount: u64, tokenAmount: u64, fee: u64,
                    creatorShare: u64, dinoShare: u64, treasuryShare: u64,
                    newRealSol: u64, newRealToken: u64)
    | TokenGraduated(creator: Address, finalSol: u64, finalTokens: u64, fee: u64,
                     dinoShare: u64, treasuryShare: u64, authority: Address)
    | PoolSeeded(lbPair: Address)

  /** `minted` counts the launch's tokens ever minted; `tokens` holds their owners. */
  datatype World = World(
    config: Option<Config>,
    launch: Option<Launch>,
    lamports: Ledger,
    tokens: Ledger,
    minted: nat,
    log: seq<Event>)

  // ---------- instructions ----------

  datatype InitParams = InitParams(
    dinoWallet: Address,
    treasuryWallet: Address,
    graduationAuthority: Address,
    tradeFeeBps: u16,
    creatorBps: u16,
    dinoBps: u16,
    treasuryBps: u16,
    creationFee: u64,
    creationDinoBps: u16,
    graduationFee: u64,
    graduationDinoBps: u16,
    threshold: u64)

  datatype UpdateParams = UpdateParams(
    newAdmin: Option<Address>,
    dinoWallet: Option<Address>,
    treasuryWallet: Option<Address>,
    graduationAuthority: Option<Address>,
    tradeFeeBps: Option<u16>,
    creatorBps: Option<u16>,
    dinoBps: Option<u16>,
    treasuryBps: Option<u16>,
    creationFee: Option<u64>,
    creationDinoBps: Option<u16>,
    graduationFee: Option<u64>,
    graduationDinoBps: Option<u16>,
    threshold: Option<u64>)

  /** The program's instructions, then what anyone can do beside it. */
  datatype Instruction =
    | InitializeConfig(admin: Signer, init: InitParams)
    | UpdateConfig(admin: Signer, update: UpdateParams)
    | SetPaused(admin: Signer, paused: bool)
    | CreateToken(creator: Signer)
    | Buy(buyer: Signer, tokensOut: u64, maxSolIn: u64)
    | Sell(seller: Signer, tokensIn: u64, minSolOut: u64)
    | Graduate
    | SealGraduation(authority: Signer, lbPair: Address)
    | SendLamports(from: Signer, to: Address, amount: nat)
    | SendTokens(from: Signer, to: Address, amount: nat)

  // ---------- configuration ----------

  function Validate(c: Config): Result<(), Error> {
    if c.tradeFeeBps > 1000 then Failure(FeeBpsTooHigh)
    else if c.creatorBps + c.dinoBps + c.treasuryBps != 10_000 then Failure(InvalidFeeSplit)
    else if c.creationDinoBps > 10_000 || c.graduationDinoBps > 10_000 then Failure(InvalidFeeSplit)
    else if c.threshold == 0 then Failure(InvalidThreshold)
    else if c.threshold > MAX_REAL_SOL then Failure(BetaCapExceeded)
    else if c.graduationAuthority == Default then Failure(InvalidWallet)
    else Success(())
  }

  predicate UsableWallet(a: Address) {
    a != Default && a != SYSTEM_PROGRAM
  }

  function Initialized(admin: Address, p: InitParams): Config {
    Config(admin, p.dinoWallet, p.treasuryWallet, p.graduationAuthority,
           p.tradeFeeBps, p.creatorBps, p.dinoBps, p.treasuryBps,
           p.creationFee, p.creationDinoBps, p.graduationFee, p.graduationDinoBps,
           p.threshold, false)
  }

  function Updated(c: Config, u: UpdateParams): Config {
    Config(u.newAdmin.GetOr(c.admin), u.dinoWallet.GetOr(c.dinoWallet),
           u.treasuryWallet.GetOr(c.treasuryWallet), u.graduationAuthority.GetOr(c.graduationAuthority),
           u.tradeFeeBps.GetOr(c.tradeFeeBps), u.creatorBps.GetOr(c.creatorBps),
           u.dinoBps.GetOr(c.dinoBps), u.treasuryBps.GetOr(c.treasuryBps),
           u.creationFee.GetOr(c.creationFee), u.creationDinoBps.GetOr(c.creationDinoBps),
           u.graduationFee.GetOr(c.graduationFee), u.graduationDinoBps.GetOr(c.graduationDinoBps),
           u.threshold.GetOr(c.threshold), c.paused)
  }

  function InitializeConfigStep(w: World, admin: Signer, p: InitParams): Result<World, Error> {
    if w.config.Some? then Failure(AccountAlreadyInUse)
    else if !UsableWallet(p.dinoWallet) || !UsableWallet(p.treasuryWallet) || !UsableWallet(p.graduationAuthority)
    then Failure(InvalidWallet)
    else
      var c := Initialized(admin, p);
      var _ :- Validate(c);
      Success(w.(config := Some(c), log := w.log + [ConfigInitialized(admin, p.dinoWallet, p.treasuryWallet)]))
  }

  function UpdateConfigStep(w: World, admin: Signer, u: UpdateParams): Result<World, Error> {
    if w.config.None? then Failure(AccountNotInitialized)
    else if w.config.value.admin != admin then Failure(Unauthorized)
    else if u.dinoWallet == Some(Default) || u.treasuryWallet == Some(Default) || u.graduationAuthority == Some(Default)
    then Failure(InvalidWallet)
    else
      var c := Updated(w.config.value, u);
      var _ :- Validate(c);
      Success(w.(config := Some(c), log := w.log + [ConfigUpdated(admin)]))
  }

  function SetPausedStep(w: World, admin: Signer, paused: bool): Result<World, Error> {
    if w.config.None? then Failure(AccountNotInitialized)
    else if w.config.value.admin != admin then Failure(Unauthorized)
    else Success(w.(config := Some(w.config.value.(paused := paused))))
  }

  // ---------- launch ----------

  function TwoShares(from: Address, c: Config, dino: nat, treasury: nat): seq<Payment> {
    [Payment(from, c.dinoWallet, dino), Payment(from, c.treasuryWallet, treasury)]
  }

  function ThreeShares(from: Address, creator: Address, c: Config, shares: (u64, u64, u64)): seq<Payment> {
    [Payment(from, creator, shares.0)] + TwoShares(from, c, shares.1, shares.2)
  }

  function CreateTokenStep(w: World, creator: Signer): Result<World, Error> {
    if w.config.None? then Failure(AccountNotInitialized)
    else if w.launch.Some? then Failure(AccountAlreadyInUse)
    else
      var c := w.config.value;
      if c.paused then Failure(Paused)
      else
        var shares :- SplitTwoWay(c.creationFee, c.creationDinoBps);
        var lamports :- PayAll(w.lamports, TwoShares(creator, c, shares.0, shares.1));
        Success(w.(
          launch := Some(Launch(creator, FRESH, false, false, Default, 0, 0)),
          lamports := lamports,
          tokens := Deposit(w.tokens, LaunchPda, ALLOCATION),
          minted := w.minted + ALLOCATION,
          log := w.log + [TokenCreated(creator, c.creationFee, shares.0, shares.1)]))
  }

  function BuyStep(w: World, buyer: Signer, tokensOut: u64, maxSolIn: u64): Result<World, Error> {
    if w.config.None? || w.launch.None? then Failure(AccountNotInitialized)
    else
      var r := w.launch.value.curve;
      if w.config.value.paused then Failure(Paused)
      else if w.launch.value.graduated then Failure(AlreadyGraduated)
      else if tokensOut == 0 then Failure(ZeroBuyAmount)
      else
        var cost :- SolInForTokensOut(r.virtualSol, r.virtualToken, r.realSol, r.realToken, tokensOut);
        SettleBuy(w, w.config.value, w.launch.value, buyer, tokensOut, maxSolIn, cost)
  }

  /** The part of a buy that follows the quote. */
  function SettleBuy(w: World, c: Config, la: Launch, buyer: Signer, tokensOut: u64, maxSolIn: u64, cost: u64)
    : Result<World, Error>
  {
    var fee :- CheckedShare(cost, c.tradeFeeBps);
    var total :- CheckedAdd64(cost, fee);
    if total > maxSolIn then Failure(SlippageExceeded)
    else
      var deposited :- Transfer(w.lamports, buyer, Vault, cost);
      var shares :- SplitThreeWay(fee, c.creatorBps, c.dinoBps, c.treasuryBps);
      var lamports :- PayAll(deposited, ThreeShares(buyer, la.creator, c, shares));
      var tokens :- Transfer(w.tokens, LaunchPda, buyer, tokensOut);
      var curve :- ReservesAfterBuy(la.curve, cost, tokensOut);
      Success(w.(
        launch := Some(la.(curve := curve)),
        lamports := lamports,
        tokens := tokens,
        log := w.log + [TradeExecuted(buyer, true, cost, tokensOut, fee,
                                      shares.0, shares.1, shares.2, curve.realSol, curve.realToken)]))
  }

  /** The reserve update that ends a buy, with the cap check inside it. */
  function ReservesAfterBuy(r: Reserves, cost: u64, tokensOut: u64): Result<Reserves, Error> {
    var realSol :- CheckedAdd64(r.realSol, cost);
    if realSol > MAX_REAL_SOL then Failure(BetaCapExceeded)
    else
      var realToken :- CheckedSub64(r.realToken, tokensOut);
      var virtualToken :- CheckedSub64(r.virtualToken, tokensOut);
      var sold :- CheckedAdd64(r.sold, tokensOut);
      Success(Reserves(realSol, realToken, r.virtualSol, virtualToken, sold))
  }

  function SellStep(w: World, seller: Signer, tokensIn: u64, minSolOut: u64): Result<World, Error> {
    if w.config.None? || w.launch.None? then Failure(AccountNotInitialized)
    else
      var r := w.launch.value.curve;
      if w.config.value.paused then Failure(Paused)
      else if w.launch.value.graduated then Failure(AlreadyGraduated)
      else if tokensIn == 0 then Failure(ZeroSellAmount)
      else
        var gross :- SolOutForTokensIn(r.virtualSol, r.virtualToken, r.realSol, tokensIn);
        SettleSell(w, w.config.value, w.launch.value, seller, tokensIn, minSolOut, gross)
  }

  /** The part of a sell that follows the quote. */
  function SettleSell(w: World, c: Config, la: Launch, seller: Signer, tokensIn: u64, minSolOut: u64, gross: u64)
    : Result<World, Error>
  {
    if gross > la.curve.realSol then Failure(InsufficientReserves)
    else
      var fee :- CheckedShare(gross, c.tradeFeeBps);
      var net :- CheckedSub64(gross, fee);
      if net < minSolOut then Failure(InsufficientSolOut)
      else
        var shares :- SplitThreeWay(fee, c.creatorBps, c.dinoBps, c.treasuryBps);
        CompleteSell(w, c, la, seller, tokensIn, gross, fee, shares)
  }

  /** The transfers and the reserve update of a sell whose amounts are settled. */
  function CompleteSell(w: World, c: Config, la: Launch, seller: Signer, tokensIn: u64, gross: u64, fee: u64,
                        shares: (u64, u64, u64)): Result<World, Error>
    requires fee <= gross
  {
    var tokens :- Transfer(w.tokens, seller, LaunchPda, tokensIn);
    var paid :- Transfer(w.lamports, Vault, seller, gross - fee);
    var lamports :- PayAll(paid, ThreeShares(Vault, la.creator, c, shares));
    var curve :- ReservesAfterSell(la.curve, gross, tokensIn);
    Success(w.(
      launch := Some(la.(curve := curve)),
      lamports := lamports,
      tokens := tokens,
      log := w.log + [TradeExecuted(seller, false, gross, tokensIn, fee,
                                    shares.0, shares.1, shares.2, curve.realSol, curve.realToken)]))
  }

  /** The reserve update that ends a sell; tokens_sold saturates at zero. */
  function ReservesAfterSell(r: Reserves, gross: u64, tokensIn: u64): Result<Reserves, Error> {
    var realSol :- CheckedSub64(r.realSol, gross);
    var realToken :- CheckedAdd64(r.realToken, tokensIn);
    var virtualToken :- CheckedAdd64(r.virtualToken, tokensIn);
    var sold := if tokensIn <= r.sold then r.sold - tokensIn else 0;
    Success(Reserves(realSol, realToken, r.virtualSol, virtualToken, sold))
  }

  function GraduateStep(w: World): Result<World, Error> {
    if w.config.None? || w.launch.None? then Failure(AccountNotInitialized)
    else
      var c, la := w.config.value, w.launch.value;
      if c.paused then Failure(Paused)
      else if la.graduated then Failure(AlreadyGraduated)
      else if la.curve.realSol < c.threshold then Failure(NotReadyToGraduate)
      else if la.curve.realSol < c.graduationFee then Failure(InsufficientReserves)
      else SettleGraduation(w, c, la)
  }

  /** The payments, the reserve mint and the hand-off of a graduation that may proceed. */
  function SettleGraduation(w: World, c: Config, la: Launch): Result<World, Error>
    requires c.graduationFee <= la.curve.realSol
  {
    var fee := c.graduationFee;
    var shares :- SplitTwoWay(fee, c.graduationDinoBps);
    var feePaid :- PayAll(w.lamports, TwoShares(Vault, c, shares.0, shares.1));
    CompleteGraduation(w.(lamports := feePaid), c, la, shares)
  }

  /** The reserve mint and the hand-off, with the fee already paid. */
  function CompleteGraduation(w: World, c: Config, la: Launch, shares: (u64, u64)): Result<World, Error>
    requires c.graduationFee <= la.curve.realSol
  {
    var remaining := la.curve.realSol - c.graduationFee;
    var lamports :- Transfer(w.lamports, Vault, c.graduationAuthority, remaining);
    Success(w.(
      launch := Some(Launch(la.creator, la.curve.(realSol := 0, realToken := 0), true, false, Default,
                            remaining, GRADUATION_RESERVE)),
      lamports := lamports,
      tokens := Deposit(w.tokens, c.graduationAuthority, GRADUATION_RESERVE),
      minted := w.minted + GRADUATION_RESERVE,
      log := w.log + [TokenGraduated(la.creator, remaining, GRADUATION_RESERVE, c.graduationFee,
                                     shares.0, shares.1, c.graduationAuthority)]))
  }

  function SealGraduationStep(w: World, authority: Signer, lbPair: Address): Result<World, Error> {
    if w.config.None? || w.launch.None? then Failure(AccountNotInitialized)
    else
      var c, la := w.config.value, w.launch.value;
      if authority != c.graduationAuthority then Failure(Unauthorized)
      else if c.paused then Failure(Paused)
      else if !la.graduated then Failure(NotGraduated)
      else if la.poolSeeded then Failure(PoolAlreadySeeded)
      else if lbPair == Default then Failure(InvalidPoolAddress)
      else Success(w.(launch := Some(la.(poolSeeded := true, lbPair := lbPair)),
                      log := w.log + [PoolSeeded(lbPair)]))
  }

  function SendLamportsStep(w: World, from: Signer, to: Address, amount: nat): Result<World, Error> {
    var lamports :- Transfer(w.lamports, from, to, amount);
    Success(w.(lamports := lamports))
  }

  function SendTokensStep(w: World, from: Signer, to: Address, amount: nat): Result<World, Error> {
    var tokens :- Transfer(w.tokens, from, to, amount);
    Success(w.(tokens := tokens))
  }

  // ---------- runs ----------

  function Step(w: World, i: Instruction): Result<World, Error> {
    match i
    case InitializeConfig(admin, p) => InitializeConfigStep(w, admin, p)
    case UpdateConfig(admin, u) => UpdateConfigStep(w, admin, u)
    case SetPaused(admin, paused) => SetPausedStep(w, admin, paused)
    case CreateToken(creator) => CreateTokenStep(w, creator)
    case Buy(buyer, tokensOut, maxSolIn) => BuyStep(w, buyer, tokensOut, maxSolIn)
    case Sell(seller, tokensIn, minSolOut) => SellStep(w, seller, tokensIn, minSolOut)
    case Graduate => GraduateStep(w)
    case SealGraduation(authority, lbPair) => SealGraduationStep(w, authority, lbPair)
    case SendLamports(from, to, amount) => SendLamportsStep(w, from, to, amount)
    case SendTokens(from, to, amount) => SendTokensStep(w, from, to, amount)
  }

  /** Transactions are taken to be atomic: a rejected instruction changes nothing. */
  function Next(w: World, i: Instruction): World {
    match Step(w, i)
    case Success(next) => next
    case Failure(_) => w
  }

  function Run(w: World, ix: seq<Instruction>): World {
    if ix == [] then w else Next(Run(w, ix[..|ix| - 1]), ix[|ix| - 1])
  }

  /** Before the program has run: some lamports, nothing else. */
  function Genesis(lamports: Ledger): World {
    World(None, None, lamports, map[], 0, [])
  }

  ghost predicate Reachable(w: World) {
    exists lamports, ix :: w == Run(Genesis(lamports), ix)
  }

  // ---------- reading the log ----------

  /** The trades recorded in a log, oldest first. */
  function Trades(log: seq<Event>): seq<Move> {
    if log == [] then []
    else
      Trades(log[..|log| - 1]) +
      match log[|log| - 1]
      case TradeExecuted(_, isBuy, _, tokens, _, _, _, _, _, _) =>
        [if isBuy then BuyTokens(tokens) else SellTokens(tokens)]
      case _ => []
  }
}
