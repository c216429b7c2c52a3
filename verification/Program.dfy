/**
 * The program as it runs: accounts whose fields the handlers overwrite one by one, and the
 * ledgers their transfers move. Every handler is proved against its step function, also where
 * it fails half way. As in the runtime, a failed transaction is rolled back as a whole.
 */
module Program {
  import opened Wrappers
  import opened Types
  import opened Quotes
  import opened Curve
  import opened Ledgers
  import opened Model

  type Outcome = Result<(), Error>

  /** How a handler reports against its step function; after a failure the state may be half changed. */
  predicate Matches(r: Outcome, step: Result<World, Error>, now: World) {
    match r
    case Success(_) => step == Success(now)
    case Failure(e) => step == Failure(e)
  }

  class ConfigAccount {
    var admin: Address
    var dinoWallet: Address
    var treasuryWallet: Address
    var graduationAuthority: Address
    var tradeFeeBps: u16
    var creatorBps: u16
    var dinoBps: u16
    var treasuryBps: u16
    var creationFee: u64
    var creationDinoBps: u16
    var graduationFee: u64
    var graduationDinoBps: u16
    var threshold: u64
    var paused: bool

    constructor (admin: Address, p: InitParams)
      ensures this.admin == admin && !paused
      ensures dinoWallet == p.dinoWallet && treasuryWallet == p.treasuryWallet
      ensures graduationAuthority == p.graduationAuthority
      ensures tradeFeeBps == p.tradeFeeBps
      ensures creatorBps == p.creatorBps && dinoBps == p.dinoBps && treasuryBps == p.treasuryBps
      ensures creationFee == p.creationFee && creationDinoBps == p.creationDinoBps
      ensures graduationFee == p.graduationFee && graduationDinoBps == p.graduationDinoBps
      ensures threshold == p.threshold
    {
      this.admin := admin;
      dinoWallet := p.dinoWallet;
      treasuryWallet := p.treasuryWallet;
      graduationAuthority := p.graduationAuthority;
      tradeFeeBps := p.tradeFeeBps;
      creatorBps := p.creatorBps;
      dinoBps := p.dinoBps;
      treasuryBps := p.treasuryBps;
      creationFee := p.creationFee;
      creationDinoBps := p.creationDinoBps;
      graduationFee := p.graduationFee;
      graduationDinoBps := p.graduationDinoBps;
      threshold := p.threshold;
      paused := false;
    }

    function Value(): Config
      reads this
    {
      Config(admin, dinoWallet, treasuryWallet, graduationAuthority,
             tradeFeeBps, creatorBps, dinoBps, treasuryBps,
             creationFee, creationDinoBps, graduationFee, graduationDinoBps, threshold, paused)
    }

    method SetWallets(u: UpdateParams) returns (r: Outcome)
      modifies this
      ensures r.Failure? <==> u.dinoWallet == Some(Default) || u.treasuryWallet == Some(Default)
                              || u.graduationAuthority == Some(Default)
      ensures r.Failure? ==> r.error == InvalidWallet
      ensures r.Success? ==>
                Value() == old(Value()).(
                  admin := u.newAdmin.GetOr(old(admin)),
                  dinoWallet := u.dinoWallet.GetOr(old(dinoWallet)),
                  treasuryWallet := u.treasuryWallet.GetOr(old(treasuryWallet)),
                  graduationAuthority := u.graduationAuthority.GetOr(old(graduationAuthority)))
    {
      if u.newAdmin.Some? { admin := u.newAdmin.value; }
      if u.dinoWallet.Some? {
        if u.dinoWallet.value == Default { return Failure(InvalidWallet); }
        dinoWallet := u.dinoWallet.value;
      }
      if u.treasuryWallet.Some? {
        if u.treasuryWallet.value == Default { return Failure(InvalidWallet); }
        treasuryWallet := u.treasuryWallet.value;
      }
      if u.graduationAuthority.Some? {
        if u.graduationAuthority.value == Default { return Failure(InvalidWallet); }
        graduationAuthority := u.graduationAuthority.value;
      }
      return Success(());
    }

    method SetTradeFees(u: UpdateParams)
      modifies this
      ensures Value() == old(Value()).(
                tradeFeeBps := u.tradeFeeBps.GetOr(old(tradeFeeBps)),
                creatorBps := u.creatorBps.GetOr(old(creatorBps)),
                dinoBps := u.dinoBps.GetOr(old(dinoBps)),
                treasuryBps := u.treasuryBps.GetOr(old(treasuryBps)))
    {
      if u.tradeFeeBps.Some? { tradeFeeBps := u.tradeFeeBps.value; }
      if u.creatorBps.Some? { creatorBps := u.creatorBps.value; }
      if u.dinoBps.Some? { dinoBps := u.dinoBps.value; }
      if u.treasuryBps.Some? { treasuryBps := u.treasuryBps.value; }
    }

    method SetLaunchTerms(u: UpdateParams)
      modifies this
      ensures Value() == old(Value()).(
                creationFee := u.creationFee.GetOr(old(creationFee)),
                creationDinoBps := u.creationDinoBps.GetOr(old(creationDinoBps)),
                graduationFee := u.graduationFee.GetOr(old(graduationFee)),
                graduationDinoBps := u.graduationDinoBps.GetOr(old(graduationDinoBps)),
                threshold := u.threshold.GetOr(old(threshold)))
    {
      if u.creationFee.Some? { creationFee := u.creationFee.value; }
      if u.creationDinoBps.Some? { creationDinoBps := u.creationDinoBps.value; }
      if u.graduationFee.Some? { graduationFee := u.graduationFee.value; }
      if u.graduationDinoBps.Some? { graduationDinoBps := u.graduationDinoBps.value; }
      if u.threshold.Some? { threshold := u.threshold.value; }
    }

    method Restore(c: Config)
      modifies this
      ensures Value() == c
    {
      admin, dinoWallet, treasuryWallet := c.admin, c.dinoWallet, c.treasuryWallet;
      graduationAuthority := c.graduationAuthority;
      paused := c.paused;
      RestoreTerms(c);
    }

    method RestoreTerms(c: Config)
      modifies this
      ensures Value() == c.(admin := old(admin), dinoWallet := old(dinoWallet), treasuryWallet := old(treasuryWallet),
                            graduationAuthority := old(graduationAuthority), paused := old(paused))
    {
      tradeFeeBps, creatorBps, dinoBps, treasuryBps := c.tradeFeeBps, c.creatorBps, c.dinoBps, c.treasuryBps;
      creationFee, creationDinoBps := c.creationFee, c.creationDinoBps;
      graduationFee, graduationDinoBps := c.graduationFee, c.graduationDinoBps;
      threshold := c.threshold;
    }
  }

  class LaunchAccount {
    var creator: Address
    var realSol: u64
    var realToken: u64
    var virtualSol: u64
    var virtualToken: u64
    var sold: u64
    var graduated: bool
    var poolSeeded: bool
    var lbPair: Address
    var graduationSol: u64
    var graduationTokens: u64

    constructor (creator: Address)
      ensures Value() == Launch(creator, FRESH, false, false, Default, 0, 0)
    {
      this.creator := creator;
      realSol := 0;
      realToken := ALLOCATION;
      virtualSol := VIRTUAL_SOL;
      virtualToken := VIRTUAL_TOKENS;
      sold := 0;
      graduated := false;
      poolSeeded := false;
      lbPair := Default;
      graduationSol := 0;
      graduationTokens := 0;
    }

    function Value(): Launch
      reads this
    {
      Launch(creator, Reserves(realSol, realToken, virtualSol, virtualToken, sold),
             graduated, poolSeeded, lbPair, graduationSol, graduationTokens)
    }

    /** The reserve update that ends a buy; the cap is checked after real_sol has been overwritten. */
    method ApplyBuy(cost: u64, tokensOut: u64) returns (r: Outcome)
      modifies this
      ensures match ReservesAfterBuy(old(Value()).curve, cost, tokensOut)
              case Success(curve) => r.Success? && Value() == old(Value()).(curve := curve)
              case Failure(e) => r == Failure(e)
    {
      var newRealSol :- CheckedAdd64(realSol, cost);
      realSol := newRealSol;
      if realSol > MAX_REAL_SOL { return Failure(BetaCapExceeded); }
      var newRealToken :- CheckedSub64(realToken, tokensOut);
      realToken := newRealToken;
      var newVirtualToken :- CheckedSub64(virtualToken, tokensOut);
      virtualToken := newVirtualToken;
      var newSold :- CheckedAdd64(sold, tokensOut);
      sold := newSold;
      return Success(());
    }

    method ApplySell(gross: u64, tokensIn: u64) returns (r: Outcome)
      modifies this
      ensures match ReservesAfterSell(old(Value()).curve, gross, tokensIn)
              case Success(curve) => r.Success? && Value() == old(Value()).(curve := curve)
              case Failure(e) => r == Failure(e)
    {
      var newRealSol :- CheckedSub64(realSol, gross);
      realSol := newRealSol;
      var newRealToken :- CheckedAdd64(realToken, tokensIn);
      realToken := newRealToken;
      var newVirtualToken :- CheckedAdd64(virtualToken, tokensIn);
      virtualToken := newVirtualToken;
      sold := if tokensIn <= sold then sold - tokensIn else 0;
      return Success(());
    }

    /** Marks the launch graduated, records the hand-off and empties the real reserves. */
    method Close(remaining: u64)
      modifies this
      ensures Value() == Launch(old(creator), old(Value()).curve.(realSol := 0, realToken := 0), true, false, Default,
                                remaining, GRADUATION_RESERVE)
    {
      graduated := true;
      poolSeeded := false;
      lbPair := Default;
      graduationSol := remaining;
      graduationTokens := GRADUATION_RESERVE;
      realSol := 0;
      realToken := 0;
    }

    method Restore(la: Launch)
      modifies this
      ensures Value() == la
    {
      creator := la.creator;
      realSol, realToken := la.curve.realSol, la.curve.realToken;
      virtualSol, virtualToken, sold := la.curve.virtualSol, la.curve.virtualToken, la.curve.sold;
      graduated, poolSeeded, lbPair := la.graduated, la.poolSeeded, la.lbPair;
      graduationSol, graduationTokens := la.graduationSol, la.graduationTokens;
    }
  }

  class Chain {
    /** Null until the account has been created. */
    var config: ConfigAccount?
    var launch: LaunchAccount?
    var lamports: Ledger
    var tokens: Ledger
    var minted: nat
    var log: seq<Event>

    constructor (funds: Ledger)
      ensures View() == Genesis(funds)
      ensures config == null && launch == null
    {
      config, launch := null, null;
      lamports, tokens, minted, log := funds, map[], 0, [];
    }

    function View(): World
      reads this, config, launch
    {
      World(if config == null then None else Some(config.Value()),
            if launch == null then None else Some(launch.Value()),
            lamports, tokens, minted, log)
    }

    // ---------- transfers ----------

    method SystemTransfer(from: Address, to: Address, amount: nat) returns (r: Outcome)
      modifies this`lamports
      ensures match Transfer(old(lamports), from, to, amount)
              case Success(l) => r == Success(()) && lamports == l
              case Failure(e) => r == Failure(e) && lamports == old(lamports)
    {
      var moved :- Transfer(lamports, from, to, amount);
      lamports := moved;
      return Success(());
    }

    method TokenTransfer(from: Address, to: Address, amount: nat) returns (r: Outcome)
      modifies this`tokens
      ensures match Transfer(old(tokens), from, to, amount)
              case Success(l) => r == Success(()) && tokens == l
              case Failure(e) => r == Failure(e) && tokens == old(tokens)
    {
      var moved :- Transfer(tokens, from, to, amount);
      tokens := moved;
      return Success(());
    }

    method MintTo(to: Address, amount: nat)
      modifies this`tokens, this`minted
      ensures tokens == Deposit(old(tokens), to, amount) && minted == old(minted) + amount
    {
      tokens := tokens[to := Balance(tokens, to) + amount];
      minted := minted + amount;
    }

    /** The DINO and treasury transfers that end every fee payment; empty shares are skipped. */
    method PayTwo(from: Address, dino: nat, treasury: nat) returns (r: Outcome)
      requires config != null
      modifies this`lamports
      ensures match PayAll(old(lamports), TwoShares(from, config.Value(), dino, treasury))
              case Success(l) => r == Success(()) && lamports == l
              case Failure(e) => r == Failure(e)
    {
      PayTwoUnfolds(lamports, TwoShares(from, config.Value(), dino, treasury));
      if dino > 0 {
        var _ :- SystemTransfer(from, config.dinoWallet, dino);
      }
      if treasury > 0 {
        var _ :- SystemTransfer(from, config.treasuryWallet, treasury);
      }
      return Success(());
    }

    method PayThree(from: Address, creator: Address, shares: (u64, u64, u64)) returns (r: Outcome)
      requires config != null
      modifies this`lamports
      ensures match PayAll(old(lamports), ThreeShares(from, creator, config.Value(), shares))
              case Success(l) => r == Success(()) && lamports == l
              case Failure(e) => r == Failure(e)
    {
      PayFirst(lamports, Payment(from, creator, shares.0), TwoShares(from, config.Value(), shares.1, shares.2));
      FirstFailure(lamports, Payment(from, creator, shares.0), TwoShares(from, config.Value(), shares.1, shares.2));
      if shares.0 > 0 {
        var _ :- SystemTransfer(from, creator, shares.0);
      }
      r := PayTwo(from, shares.1, shares.2);
    }

    // ---------- configuration handlers ----------

    method HandleInitializeConfig(admin: Signer, p: InitParams) returns (r: Outcome)
      requires config == null
      modifies this
      ensures launch == old(launch) && (config == null || fresh(config))
      ensures Matches(r, InitializeConfigStep(old(View()), admin, p), View())
    {
      if !UsableWallet(p.dinoWallet) || !UsableWallet(p.treasuryWallet) || !UsableWallet(p.graduationAuthority) {
        return Failure(InvalidWallet);
      }
      config := new ConfigAccount(admin, p);
      var _ :- Validate(config.Value());
      log := log + [ConfigInitialized(config.admin, config.dinoWallet, config.treasuryWallet)];
      return Success(());
    }

    method HandleUpdateConfig(admin: Signer, u: UpdateParams) returns (r: Outcome)
      requires config != null
      modifies this`log, config
      ensures Matches(r, UpdateConfigStep(old(View()), admin, u), View())
    {
      if config.admin != admin { return Failure(Unauthorized); }
      var _ :- config.SetWallets(u);
      config.SetTradeFees(u);
      config.SetLaunchTerms(u);
      var _ :- Validate(config.Value());
      log := log + [ConfigUpdated(admin)];
      return Success(());
    }

    method HandleSetPaused(admin: Signer, paused: bool) returns (r: Outcome)
      requires config != null
      modifies config
      ensures Matches(r, SetPausedStep(old(View()), admin, paused), View())
    {
      if config.admin != admin { return Failure(Unauthorized); }
      config.paused := paused;
      return Success(());
    }

    // ---------- launch handlers ----------

    method HandleCreateToken(creator: Signer) returns (r: Outcome)
      requires config != null && launch == null
      modifies this
      ensures config == old(config) && (launch == null || fresh(launch))
      ensures Matches(r, CreateTokenStep(old(View()), creator), View())
    {
      if config.paused { return Failure(Paused); }
      var shares :- SplitTwoWay(config.creationFee, config.creationDinoBps);
      var _ :- PayTwo(creator, shares.0, shares.1);
      MintTo(LaunchPda, ALLOCATION);
      launch := new LaunchAccount(creator);
      log := log + [TokenCreated(launch.creator, config.creationFee, shares.0, shares.1)];
      return Success(());
    }

    method HandleBuy(buyer: Signer, tokensOut: u64, maxSolIn: u64) returns (r: Outcome)
      requires config != null && launch != null
      modifies this`lamports, this`tokens, this`log, launch
      ensures Matches(r, BuyStep(old(View()), buyer, tokensOut, maxSolIn), View())
    {
      if config.paused { return Failure(Paused); }
      if launch.graduated { return Failure(AlreadyGraduated); }
      if tokensOut == 0 { return Failure(ZeroBuyAmount); }
      var cost :- SolInForTokensOut(launch.virtualSol, launch.virtualToken,
                                    launch.realSol, launch.realToken, tokensOut);
      var fee :- CheckedShare(cost, config.tradeFeeBps);
      var total :- CheckedAdd64(cost, fee);
      if total > maxSolIn { return Failure(SlippageExceeded); }
      var _ :- SystemTransfer(buyer, Vault, cost);
      var shares :- SplitThreeWay(fee, config.creatorBps, config.dinoBps, config.treasuryBps);
      var _ :- PayThree(buyer, launch.creator, shares);
      var _ :- TokenTransfer(LaunchPda, buyer, tokensOut);
      var _ :- launch.ApplyBuy(cost, tokensOut);
      log := log + [TradeExecuted(buyer, true, cost, tokensOut, fee, shares.0, shares.1, shares.2,
                                  launch.realSol, launch.realToken)];
      return Success(());
    }

    method HandleSell(seller: Signer, tokensIn: u64, minSolOut: u64) returns (r: Outcome)
      requires config != null && launch != null
      modifies this`lamports, this`tokens, this`log, launch
      ensures Matches(r, SellStep(old(View()), seller, tokensIn, minSolOut), View())
    {
      if config.paused { return Failure(Paused); }
      if launch.graduated { return Failure(AlreadyGraduated); }
      if tokensIn == 0 { return Failure(ZeroSellAmount); }
      var gross :- SolOutForTokensIn(launch.virtualSol, launch.virtualToken, launch.realSol, tokensIn);
      if gross > launch.realSol { return Failure(InsufficientReserves); }
      var fee :- CheckedShare(gross, config.tradeFeeBps);
      var net :- CheckedSub64(gross, fee);
      if net < minSolOut { return Failure(InsufficientSolOut); }
      var shares :- SplitThreeWay(fee, config.creatorBps, config.dinoBps, config.treasuryBps);
      var _ :- TokenTransfer(seller, LaunchPda, tokensIn);
      if net > 0 {
        var _ :- SystemTransfer(Vault, seller, net);
      }
      var _ :- PayThree(Vault, launch.creator, shares);
      var _ :- launch.ApplySell(gross, tokensIn);
      log := log + [TradeExecuted(seller, false, gross, tokensIn, fee, shares.0, shares.1, shares.2,
                                  launch.realSol, launch.realToken)];
      return Success(());
    }

    method HandleGraduate() returns (r: Outcome)
      requires config != null && launch != null
      modifies this`lamports, this`tokens, this`minted, this`log, launch
      ensures Matches(r, GraduateStep(old(View())), View())
    {
      if config.paused { return Failure(Paused); }
      if launch.graduated { return Failure(AlreadyGraduated); }
      if launch.realSol < config.threshold { return Failure(NotReadyToGraduate); }
      if launch.realSol < config.graduationFee { return Failure(InsufficientReserves); }
      r := HandOver();
    }

    /** Hands what the fee left in the vault to the graduation authority. */
    method PayRemaining(remaining: nat) returns (r: Outcome)
      requires config != null
      modifies this`lamports
      ensures match Transfer(old(lamports), Vault, config.graduationAuthority, remaining)
              case Success(l) => r == Success(()) && lamports == l
              case Failure(e) => r == Failure(e)
    {
      if remaining > 0 {
        var _ :- SystemTransfer(Vault, config.graduationAuthority, remaining);
      }
      return Success(());
    }

    /** The second half of graduation, once its guards have passed. */
    method HandOver() returns (r: Outcome)
      requires config != null && launch != null && config.graduationFee <= launch.realSol
      modifies this`lamports, this`tokens, this`minted, this`log, launch
      ensures Matches(r, SettleGraduation(old(View()), old(config.Value()), old(launch.Value())), View())
    {
      var fee := config.graduationFee;
      var shares :- SplitTwoWay(fee, config.graduationDinoBps);
      var _ :- PayTwo(Vault, shares.0, shares.1);
      r := CompleteHandOver(shares);
    }

    method CompleteHandOver(shares: (u64, u64)) returns (r: Outcome)
      requires config != null && launch != null && config.graduationFee <= launch.realSol
      modifies this`lamports, this`tokens, this`minted, this`log, launch
      ensures Matches(r, CompleteGraduation(old(View()), old(config.Value()), old(launch.Value()), shares), View())
    {
      var fee := config.graduationFee;
      MintTo(config.graduationAuthority, GRADUATION_RESERVE);
      var remaining := if fee <= launch.realSol then launch.realSol - fee else 0;
      var _ :- PayRemaining(remaining);
      launch.Close(remaining);
      log := log + [TokenGraduated(launch.creator, remaining, GRADUATION_RESERVE, fee,
                                   shares.0, shares.1, config.graduationAuthority)];
      return Success(());
    }

    method HandleSealGraduation(authority: Signer, lbPair: Address) returns (r: Outcome)
      requires config != null && launch != null
      modifies this`log, launch
      ensures Matches(r, SealGraduationStep(old(View()), authority, lbPair), View())
    {
      if authority != config.graduationAuthority { return Failure(Unauthorized); }
      if config.paused { return Failure(Paused); }
      if !launch.graduated { return Failure(NotGraduated); }
      if launch.poolSeeded { return Failure(PoolAlreadySeeded); }
      if lbPair == Default { return Failure(InvalidPoolAddress); }
      launch.poolSeeded := true;
      launch.lbPair := lbPair;
      log := log + [PoolSeeded(lbPair)];
      return Success(());
    }

    // ---------- transactions ----------

    /** Loads the accounts an instruction names and runs its handler. */
    method Dispatch(i: Instruction) returns (r: Outcome)
      modifies this, config, launch
      ensures config == old(config) || fresh(config)
      ensures launch == old(launch) || fresh(launch)
      ensures Matches(r, Step(old(View()), i), View())
    {
      match i
      case InitializeConfig(admin, p) =>
        if config != null { return Failure(AccountAlreadyInUse); }
        r := HandleInitializeConfig(admin, p);
      case UpdateConfig(admin, u) =>
        if config == null { return Failure(AccountNotInitialized); }
        r := HandleUpdateConfig(admin, u);
      case SetPaused(admin, paused) =>
        if config == null { return Failure(AccountNotInitialized); }
        r := HandleSetPaused(admin, paused);
      case CreateToken(creator) =>
        if config == null { return Failure(AccountNotInitialized); }
        if launch != null { return Failure(AccountAlreadyInUse); }
        r := HandleCreateToken(creator);
      case Buy(buyer, tokensOut, maxSolIn) =>
        if config == null || launch == null { return Failure(AccountNotInitialized); }
        r := HandleBuy(buyer, tokensOut, maxSolIn);
      case Sell(seller, tokensIn, minSolOut) =>
        if config == null || launch == null { return Failure(AccountNotInitialized); }
        r := HandleSell(seller, tokensIn, minSolOut);
      case Graduate =>
        if config == null || launch == null { return Failure(AccountNotInitialized); }
        r := HandleGraduate();
      case SealGraduation(authority, lbPair) =>
        if config == null || launch == null { return Failure(AccountNotInitialized); }
        r := HandleSealGraduation(authority, lbPair);
      case SendLamports(from, to, amount) =>
        r := SystemTransfer(from, to, amount);
      case SendTokens(from, to, amount) =>
        r := TokenTransfer(from, to, amount);
    }

    /** One transaction: a failing handler's partial changes are rolled back. */
    method Execute(i: Instruction) returns (r: Outcome)
      modifies this, config, launch
      ensures config == old(config) || fresh(config)
      ensures launch == old(launch) || fresh(launch)
      ensures View() == Next(old(View()), i)
      ensures match Step(old(View()), i)
              case Success(_) => r.Success?
              case Failure(e) => r == Failure(e)
    {
      var saved, savedConfig, savedLaunch := View(), config, launch;
      r := Dispatch(i);
      if r.Failure? {
        RollBack(saved, savedConfig, savedLaunch);
      }
    }

    /** The runtime's rule for a failed transaction: every account is as it was. */
    method RollBack(saved: World, savedConfig: ConfigAccount?, savedLaunch: LaunchAccount?)
      requires saved.config.Some? <==> savedConfig != null
      requires saved.launch.Some? <==> savedLaunch != null
      modifies this, savedConfig, savedLaunch
      ensures config == savedConfig && launch == savedLaunch && View() == saved
    {
      config, launch := savedConfig, savedLaunch;
      lamports, tokens, minted, log := saved.lamports, saved.tokens, saved.minted, saved.log;
      if config != null { config.Restore(saved.config.value); }
      if launch != null { launch.Restore(saved.launch.value); }
    }

    /** A whole run. */
    method ExecuteAll(ix: seq<Instruction>)
      modifies this, config, launch
      ensures View() == Run(old(View()), ix)
    {
      for n := 0 to |ix|
        invariant config == old(config) || fresh(config)
        invariant launch == old(launch) || fresh(launch)
        invariant View() == Run(old(View()), ix[..n])
      {
        var _ := Execute(ix[n]);
        assert ix[..n + 1][..n] == ix[..n];
      }
      assert ix[..|ix|] == ix;
    }
  }

  /** Every world the running program gets into is one the theorems speak about. */
  method RunFromGenesis(funds: Ledger, ix: seq<Instruction>) returns (chain: Chain)
    ensures chain.View() == Run(Genesis(funds), ix)
    ensures Reachable(chain.View())
  {
    chain := new Chain(funds);
    chain.ExecuteAll(ix);
  }

  lemma PayTwoUnfolds(l: Ledger, ps: seq<Payment>)
    requires |ps| == 2
    ensures PayAll(l, ps) ==
            match Transfer(l, ps[0].from, ps[0].to, ps[0].amount)
            case Failure(e) => Failure(e)
            case Success(m) => Transfer(m, ps[1].from, ps[1].to, ps[1].amount)
  {
    assert ps == [ps[0]] + [ps[1]];
    PayLast(l, [ps[0]], ps[1]);
    PayLast(l, [], ps[0]);
    assert [] + [ps[0]] == [ps[0]];
  }

  lemma FirstFailure(l: Ledger, p: Payment, ps: seq<Payment>)
    ensures Transfer(l, p.from, p.to, p.amount).Failure? ==>
              PayAll(l, [p] + ps) == Failure(Transfer(l, p.from, p.to, p.amount).error)
  {}
}
