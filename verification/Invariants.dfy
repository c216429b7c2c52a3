/** Every instruction keeps the launch invariant, so every run does. */
module Invariants {
  import opened Wrappers
  import opened Types
  import opened Curve
  import opened Ledgers
  import opened Model
  import opened Effects

  function TradesOf(e: Event): seq<Move> {
    if e.TradeExecuted? then [if e.isBuy then BuyTokens(e.tokenAmount) else SellTokens(e.tokenAmount)] else []
  }

  lemma TradesAppend(log: seq<Event>, e: Event)
    ensures Trades(log + [e]) == Trades(log) + TradesOf(e)
  {
    assert (log + [e])[..|log + [e]| - 1] == log;
  }

  lemma TradesSame(log: seq<Event>, e: Event)
    requires !e.TradeExecuted?
    ensures Trades(log + [e]) == Trades(log)
  {
    TradesAppend(log, e);
    assert Trades(log) + [] == Trades(log);
  }

  predicate IsConfigEvent(e: Event) {
    e.ConfigInitialized? || e.ConfigUpdated?
  }

  /** A change that leaves the launch alone and logs at most a configuration event. */
  ghost predicate QuietChange(w: World, next: World) {
    && next.launch == w.launch && next.minted == w.minted
    && (next.log == w.log || exists e :: IsConfigEvent(e) && next.log == w.log + [e])
  }

  predicate IsQuiet(i: Instruction) {
    i.InitializeConfig? || i.UpdateConfig? || i.SetPaused? || i.SendLamports? || i.SendTokens?
  }

  lemma QuietSteps(w: World, i: Instruction)
    requires IsQuiet(i)
    ensures QuietChange(w, Next(w, i))
  {
    if |Next(w, i).log| > |w.log| {
      assert Next(w, i).log == w.log + [Next(w, i).log[|w.log|]];
    }
  }

  /** What one payment adds to a balance. */
  function Gain(p: Payment, a: Address): int {
    (if p.to == a then p.amount else 0) - (if p.from == a then p.amount else 0)
  }

  lemma NetIsGains(ps: seq<Payment>, a: Address)
    ensures |ps| == 3 ==> Net(ps, a) == Gain(ps[0], a) + Gain(ps[1], a) + Gain(ps[2], a)
    ensures |ps| == 4 ==> Net(ps, a) == Gain(ps[0], a) + Gain(ps[1], a) + Gain(ps[2], a) + Gain(ps[3], a)
  {
    if |ps| == 3 {
      var b, c := ps[1..], ps[2..];
      assert b[1..] == c && c[1..] == [];
      assert Net(c, a) == Gain(ps[2], a);
      assert Net(b, a) == Gain(ps[1], a) + Net(c, a);
    } else if |ps| == 4 {
      var b, c, d := ps[1..], ps[2..], ps[3..];
      assert b[1..] == c && c[1..] == d && d[1..] == [];
      assert Net(d, a) == Gain(ps[3], a);
      assert Net(c, a) == Gain(ps[2], a) + Net(d, a);
      assert Net(b, a) == Gain(ps[1], a) + Net(c, a);
    }
  }

  // ---------- one instruction ----------

  /** A step that leaves launch, ledgers and recorded trades alone, under a valid configuration. */
  lemma UntouchedLaunchKeepsInv(w: World, next: World)
    requires Inv(w) && next == w.(config := next.config, log := next.log)
    requires next.config.Some? && Validate(next.config.value).Success?
    requires Trades(next.log) == Trades(w.log)
    ensures Inv(next)
  {}

  lemma ConfigStepsKeepInv(w: World, i: Instruction)
    requires Inv(w) && Step(w, i).Success?
    requires i.InitializeConfig? || i.UpdateConfig? || i.SetPaused?
    ensures Inv(Next(w, i))
    ensures Next(w, i) == w.(config := Next(w, i).config, log := Next(w, i).log)
    ensures Trades(Next(w, i).log) == Trades(w.log)
  {
    match i
    case InitializeConfig(admin, p) =>
      TradesSame(w.log, ConfigInitialized(admin, p.dinoWallet, p.treasuryWallet));
      UntouchedLaunchKeepsInv(w, Next(w, i));
    case UpdateConfig(admin, _) =>
      TradesSame(w.log, ConfigUpdated(admin));
      UntouchedLaunchKeepsInv(w, Next(w, i));
    case SetPaused(_, _) =>
      UntouchedLaunchKeepsInv(w, Next(w, i));
  }

  lemma CreateKeepsInv(w: World, creator: Signer)
    requires Inv(w) && CreateTokenStep(w, creator).Success?
    ensures Inv(CreateTokenStep(w, creator).value)
  {
    var next := CreateTokenStep(w, creator).value;
    TradesSame(w.log, next.log[|w.log|]);
    TotalUpdate(w.tokens, LaunchPda, Balance(w.tokens, LaunchPda) + ALLOCATION);
  }

  lemma BuyKeepsInv(w: World, buyer: Signer, t: u64, maxSolIn: u64)
    requires Inv(w) && BuyStep(w, buyer, t, maxSolIn).Success?
    ensures Inv(BuyStep(w, buyer, t, maxSolIn).value)
  {
    InvReady(w);
    BuyLeaves(w, buyer, t, maxSolIn);
    var c, la := w.config.value, w.launch.value;
    var cost := Cost(la.curve, t);
    var ps := BuyPayments(c, la.creator, buyer, cost);
    PayAllBalances(w.lamports, ps, Vault);
    NetIsGains(ps, Vault);
    TransferKeepsTotal(w.tokens, LaunchPda, buyer, t);
    TradesAppend(w.log, BuyEvent(c, buyer, t, cost, Play(la.curve, BuyTokens(t))));
    ReplayOneMore(FRESH, Trades(w.log), BuyTokens(t));
  }

  lemma SellKeepsInv(w: World, seller: Signer, t: u64, minSolOut: u64)
    requires Inv(w) && SellStep(w, seller, t, minSolOut).Success?
    ensures Inv(SellStep(w, seller, t, minSolOut).value)
  {
    InvReady(w);
    SellLeaves(w, seller, t, minSolOut);
    var c, la := w.config.value, w.launch.value;
    var gross := Payout(la.curve, t);
    var ps := SellPayments(c, la.creator, seller, gross);
    PayAllBalances(w.lamports, ps, Vault);
    NetIsGains(ps, Vault);
    TransferKeepsTotal(w.tokens, seller, LaunchPda, t);
    TradesAppend(w.log, SellEvent(c, seller, t, gross, Play(la.curve, SellTokens(t))));
    ReplayOneMore(FRESH, Trades(w.log), SellTokens(t));
  }

  lemma GraduateKeepsInv(w: World)
    requires Inv(w) && GraduateStep(w).Success?
    ensures Inv(GraduateStep(w).value)
  {
    InvReady(w);
    GraduateLeaves(w);
    var c := w.config.value;
    var authority := c.graduationAuthority;
    TotalUpdate(w.tokens, authority, Balance(w.tokens, authority) + GRADUATION_RESERVE);
    TradesSame(w.log, GraduateEvent(c, w.launch.value));
    CloseKeepsInv(w, GraduateStep(w).value);
  }

  lemma CloseKeepsInv(w: World, next: World)
    requires Inv(w) && Trading(w) && GraduateAccepted(w)
    requires next.config == w.config && next.launch == Some(Closed(w.config.value, w.launch.value))
    requires Trades(next.log) == Trades(w.log)
    requires next.minted == w.minted + GRADUATION_RESERVE == Total(next.tokens)
    requires Balance(w.tokens, LaunchPda) <= Balance(next.tokens, LaunchPda)
    ensures Inv(next)
  {}

  lemma SealKeepsInv(w: World, authority: Signer, lbPair: Address)
    requires Inv(w) && SealGraduationStep(w, authority, lbPair).Success?
    ensures Inv(SealGraduationStep(w, authority, lbPair).value)
  {
    TradesSame(w.log, PoolSeeded(lbPair));
  }

  lemma SendLamportsKeepsInv(w: World, from: Signer, to: Address, amount: nat)
    requires Inv(w) && SendLamportsStep(w, from, to, amount).Success?
    ensures Inv(SendLamportsStep(w, from, to, amount).value)
  {}

  lemma SendTokensKeepsInv(w: World, from: Signer, to: Address, amount: nat)
    requires Inv(w) && SendTokensStep(w, from, to, amount).Success?
    ensures Inv(SendTokensStep(w, from, to, amount).value)
  {
    TransferKeepsTotal(w.tokens, from, to, amount);
  }

  lemma NextKeepsInv(w: World, i: Instruction)
    requires Inv(w)
    ensures Inv(Next(w, i))
  {
    if Step(w, i).Success? {
      match i
      case CreateToken(creator) => CreateKeepsInv(w, creator);
      case Buy(buyer, t, maxSolIn) => BuyKeepsInv(w, buyer, t, maxSolIn);
      case Sell(seller, t, minSolOut) => SellKeepsInv(w, seller, t, minSolOut);
      case Graduate => GraduateKeepsInv(w);
      case InitializeConfig(_, _) => ConfigStepsKeepInv(w, i);
      case UpdateConfig(_, _) => ConfigStepsKeepInv(w, i);
      case SetPaused(_, _) => ConfigStepsKeepInv(w, i);
      case SealGraduation(authority, lbPair) => SealKeepsInv(w, authority, lbPair);
      case SendLamports(from, to, amount) => SendLamportsKeepsInv(w, from, to, amount);
      case SendTokens(from, to, amount) => SendTokensKeepsInv(w, from, to, amount);
    }
  }

  // ---------- runs ----------

  lemma {:induction false} RunKeepsInv(w: World, ix: seq<Instruction>)
    requires Inv(w)
    ensures Inv(Run(w, ix))
  {
    if ix != [] {
      RunKeepsInv(w, ix[..|ix| - 1]);
      NextKeepsInv(Run(w, ix[..|ix| - 1]), ix[|ix| - 1]);
    }
  }

  /** Every world any run of the program can reach satisfies the launch invariant. */
  lemma ReachableInv(w: World)
    requires Reachable(w)
    ensures Inv(w)
  {
    var lamports, ix :| w == Run(Genesis(lamports), ix);
    RunKeepsInv(Genesis(lamports), ix);
  }
}
