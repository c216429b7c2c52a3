/**
 * The state every run stays in, and the three trading instructions in closed form there:
 * exactly when each is accepted and exactly what it then leaves behind.
 */
module Effects {
  import opened Wrappers
  import opened Types
  import opened Quotes
  import opened Curve
  import opened Ledgers
  import opened Model

  predicate ConfigInv(w: World) {
    && (w.launch.Some? ==> w.config.Some?)
    && (w.config.Some? ==> Validate(w.config.value).Success?)
  }

  /** The launch exists and has not graduated. */
  predicate Trading(w: World) {
    w.config.Some? && w.launch.Some? && !w.launch.value.graduated
  }

  /** Bookkeeping of a trading launch against both ledgers. */
  ghost predicate TradingInv(w: World)
    requires Trading(w)
  {
    var la := w.launch.value;
    && OnCurve(la.curve)
    && Replay(FRESH, Trades(w.log)) == Some(la.curve)
    && la.curve.realSol <= Balance(w.lamports, Vault)
    && la.curve.realToken <= Balance(w.tokens, LaunchPda)
    && w.minted == ALLOCATION
    && !la.poolSeeded && la.lbPair == Default && la.graduationSol == 0 && la.graduationTokens == 0
  }

  /** A graduated launch keeps its last curve, with both real reserves zeroed, and its unsold tokens. */
  ghost predicate GraduatedInv(w: World)
    requires w.launch.Some?
  {
    var la, last := w.launch.value, Replay(FRESH, Trades(w.log));
    && last.Some?
    && la.curve == last.value.(realSol := 0, realToken := 0)
    && la.graduationSol <= last.value.realSol
    && last.value.realToken <= Balance(w.tokens, LaunchPda)
    && w.minted == ALLOCATION + GRADUATION_RESERVE
    && la.graduationTokens == GRADUATION_RESERVE
    && (la.poolSeeded <==> la.lbPair != Default)
  }

  ghost predicate Inv(w: World) {
    && ConfigInv(w)
    && Total(w.tokens) == w.minted
    && if w.launch.None? then w.minted == 0 && Trades(w.log) == []
       else if Trading(w) then TradingInv(w)
       else GraduatedInv(w)
  }

  /** Nobody outside the launch can hold more than what was sold. */
  lemma HoldersWithinSold(w: World, a: Address)
    requires Inv(w) && Trading(w) && a != LaunchPda
    ensures Balance(w.tokens, a) <= w.launch.value.curve.sold
  {
    TwoBalancesWithinTotal(w.tokens, a, LaunchPda);
  }

  /** What the trade handlers rely on; every trading world of every run provides it. */
  ghost predicate Ready(w: World) {
    && Trading(w) && ConfigInv(w)
    && var r := w.launch.value.curve;
       && OnCurve(r)
       && r.realSol <= Balance(w.lamports, Vault)
       && r.realToken <= Balance(w.tokens, LaunchPda)
       && forall a :: a != LaunchPda ==> Balance(w.tokens, a) <= r.sold
  }

  lemma InvReady(w: World)
    requires Inv(w) && Trading(w)
    ensures Ready(w)
  {
    forall a | a != LaunchPda
      ensures Balance(w.tokens, a) <= w.launch.value.curve.sold
    {
      HoldersWithinSold(w, a);
    }
  }

  // ---------- fees ----------

  function FeeShares(c: Config, fee: u64): (s: (u64, u64, u64))
    requires Validate(c).Success?
    ensures s.0 + s.1 + s.2 == fee
  {
    SplitThreeWayExact(fee, c.creatorBps, c.dinoBps, c.treasuryBps);
    SplitThreeWay(fee, c.creatorBps, c.dinoBps, c.treasuryBps).value
  }

  lemma FeeSharesAreTheSplit(c: Config, fee: u64)
    requires Validate(c).Success?
    ensures SplitThreeWay(fee, c.creatorBps, c.dinoBps, c.treasuryBps) == Success(FeeShares(c, fee))
  {
    SplitThreeWayExact(fee, c.creatorBps, c.dinoBps, c.treasuryBps);
  }

  lemma TradeFeeIsChecked(c: Config, amount: u64)
    requires Validate(c).Success?
    ensures CheckedShare(amount, c.tradeFeeBps) == Success(TradeFee(c, amount))
  {
    CheckedShareExact(amount, c.tradeFeeBps);
  }

  function TradeFee(c: Config, amount: u64): (fee: u64)
    requires Validate(c).Success?
    ensures fee <= amount
  {
    ShareBounds(amount, c.tradeFeeBps);
    Share(amount, c.tradeFeeBps)
  }

  // ---------- buy ----------

  function BuyPayments(c: Config, creator: Address, buyer: Address, cost: u64): seq<Payment>
    requires Validate(c).Success?
  {
    [Payment(buyer, Vault, cost)] + ThreeShares(buyer, creator, c, FeeShares(c, TradeFee(c, cost)))
  }

  ghost predicate BuyAccepted(w: World, buyer: Signer, t: u64, maxSolIn: u64)
    requires Ready(w)
  {
    var c, la := w.config.value, w.launch.value;
    && !c.paused
    && LegalMove(la.curve, BuyTokens(t))
    && CanPayForBuy(w, buyer, maxSolIn, Cost(la.curve, t))
  }

  /** What the buyer must hold: the cost and fee, less what he as a recipient gets back in time. */
  function BuyNeeds(c: Config, creator: Address, buyer: Address, cost: u64): nat
    requires Validate(c).Success?
  {
    Needed(BuyPayments(c, creator, buyer, cost), buyer)
  }

  /**
   * A buyer who receives no fee needs exactly cost and fee; one who receives some needs no
   * more than that and no less than the cost, and one who receives all of it needs the cost
   * and the largest share.
   */
  lemma BuyNeedsInWords(c: Config, creator: Address, buyer: Signer, cost: u64)
    requires Validate(c).Success?
    ensures var fee, shares := TradeFee(c, cost), FeeShares(c, TradeFee(c, cost));
            var needs := BuyNeeds(c, creator, buyer, cost);
            && cost <= needs <= cost + fee
            && (buyer != creator && buyer != c.dinoWallet && buyer != c.treasuryWallet ==> needs == cost + fee)
            && (buyer == creator == c.dinoWallet == c.treasuryWallet ==>
                  needs == cost + Max(shares.0, Max(shares.1, shares.2)))
  {
    var ps := BuyPayments(c, creator, buyer, cost);
    AmountOfFour(ps);
    NeededIsAmount(ps, buyer);
    NeededOfFour(ps, buyer);
  }

  lemma BuyPaymentsGoThroughIff(w: World, buyer: Signer, cost: u64)
    requires ConfigInv(w) && Trading(w)
    ensures var c, la := w.config.value, w.launch.value;
            PayAll(w.lamports, BuyPayments(c, la.creator, buyer, cost)).Success?
            <==> BuyNeeds(c, la.creator, buyer, cost) <= Balance(w.lamports, buyer)
  {
    PayAllIff(w.lamports, BuyPayments(w.config.value, w.launch.value.creator, buyer, cost), buyer);
  }

  predicate CanPayForBuy(w: World, buyer: Signer, maxSolIn: u64, cost: u64)
    requires ConfigInv(w) && Trading(w)
  {
    var c, la := w.config.value, w.launch.value;
    && cost + TradeFee(c, cost) <= maxSolIn
    && BuyNeeds(c, la.creator, buyer, cost) <= Balance(w.lamports, buyer)
  }

  function BuyEvent(c: Config, buyer: Address, t: u64, cost: u64, curve: Reserves): Event
    requires Validate(c).Success?
  {
    var shares := FeeShares(c, TradeFee(c, cost));
    TradeExecuted(buyer, true, cost, t, TradeFee(c, cost), shares.0, shares.1, shares.2,
                  curve.realSol, curve.realToken)
  }

  /** The world once `cost` has been paid for t tokens and the reserves have become `curve`. */
  function Bought(w: World, buyer: Signer, t: u64, cost: u64, curve: Reserves): World
    requires ConfigInv(w) && Trading(w) && t <= Balance(w.tokens, LaunchPda)
    requires PayAll(w.lamports, BuyPayments(w.config.value, w.launch.value.creator, buyer, cost)).Success?
  {
    var c, la := w.config.value, w.launch.value;
    w.(launch := Some(la.(curve := curve)),
       lamports := PayAll(w.lamports, BuyPayments(c, la.creator, buyer, cost)).value,
       tokens := Transfer(w.tokens, LaunchPda, buyer, t).value,
       log := w.log + [BuyEvent(c, buyer, t, cost, curve)])
  }

  ghost function AfterBuy(w: World, buyer: Signer, t: u64, maxSolIn: u64): World
    requires Ready(w) && BuyAccepted(w, buyer, t, maxSolIn)
  {
    var curve := w.launch.value.curve;
    BuyPaymentsGoThroughIff(w, buyer, Cost(curve, t));
    Bought(w, buyer, t, Cost(curve, t), Play(curve, BuyTokens(t)))
  }

  /** Why a quoted buy is refused. Money moves before the cap is looked at. */
  function PaymentRefusal(w: World, buyer: Signer, maxSolIn: u64, cost: u64): Error
    requires ConfigInv(w) && Trading(w)
  {
    var c, la := w.config.value, w.launch.value;
    if cost + TradeFee(c, cost) > maxSolIn then SlippageExceeded
    else if Balance(w.lamports, buyer) < BuyNeeds(c, la.creator, buyer, cost) then InsufficientFunds
    else BetaCapExceeded
  }

  ghost function BuyRefusal(w: World, buyer: Signer, t: u64, maxSolIn: u64): Error
    requires Ready(w) && !BuyAccepted(w, buyer, t, maxSolIn)
  {
    var r := w.launch.value.curve;
    if w.config.value.paused then Paused
    else if t == 0 then ZeroBuyAmount
    else if t > r.realToken then InsufficientReserves
    else PaymentRefusal(w, buyer, maxSolIn, Cost(r, t))
  }

  lemma SettleBuyExact(w: World, buyer: Signer, t: u64, maxSolIn: u64, cost: u64)
    requires ConfigInv(w) && Trading(w) && OnCurve(w.launch.value.curve)
    requires 0 < t <= w.launch.value.curve.realToken <= Balance(w.tokens, LaunchPda)
    requires cost <= 100_000_000_000
    ensures CanPayForBuy(w, buyer, maxSolIn, cost) ==>
              PayAll(w.lamports, BuyPayments(w.config.value, w.launch.value.creator, buyer, cost)).Success?
    ensures var c, la := w.config.value, w.launch.value;
            var r := la.curve;
            var q := SettleBuy(w, c, la, buyer, t, maxSolIn, cost);
            if CanPayForBuy(w, buyer, maxSolIn, cost) && r.realSol + cost <= MAX_REAL_SOL
            then q == Success(Bought(w, buyer, t, cost,
                       Reserves(r.realSol + cost, r.realToken - t, r.virtualSol, r.virtualToken - t, r.sold + t)))
            else q == Failure(PaymentRefusal(w, buyer, maxSolIn, cost))
  {
    var c, la := w.config.value, w.launch.value;
    var fee := TradeFee(c, cost);
    TradeFeeIsChecked(c, cost);
    FeeSharesAreTheSplit(c, fee);
    var shares := ThreeShares(buyer, la.creator, c, FeeShares(c, fee));
    PayFirst(w.lamports, Payment(buyer, Vault, cost), shares);
    PayAllFailure(w.lamports, BuyPayments(c, la.creator, buyer, cost));
    BuyPaymentsGoThroughIff(w, buyer, cost);
  }

  /**
   * A buy is accepted exactly under these conditions, has exactly this effect, and is
   * otherwise refused for exactly this reason, never an arithmetic one.
   */
  lemma BuyExact(w: World, buyer: Signer, t: u64, maxSolIn: u64)
    requires Ready(w)
    ensures BuyStep(w, buyer, t, maxSolIn) ==
            if BuyAccepted(w, buyer, t, maxSolIn) then Success(AfterBuy(w, buyer, t, maxSolIn))
            else Failure(BuyRefusal(w, buyer, t, maxSolIn))
  {
    var r := w.launch.value.curve;
    if !w.config.value.paused && 0 < t <= r.realToken {
      BuyQuoteIsCost(r, t);
      SettleBuyExact(w, buyer, t, maxSolIn, Cost(r, t));
    }
  }

  /** An accepted buy, told by what it leaves behind. */
  lemma BuyLeaves(w: World, buyer: Signer, t: u64, maxSolIn: u64)
    requires Ready(w) && BuyStep(w, buyer, t, maxSolIn).Success?
    ensures LegalMove(w.launch.value.curve, BuyTokens(t))
    ensures var c, la, next := w.config.value, w.launch.value, BuyStep(w, buyer, t, maxSolIn).value;
            var cost, curve := Cost(la.curve, t), Play(la.curve, BuyTokens(t));
            && cost + TradeFee(c, cost) <= maxSolIn
            && PayAll(w.lamports, BuyPayments(c, la.creator, buyer, cost)) == Success(next.lamports)
            && Transfer(w.tokens, LaunchPda, buyer, t) == Success(next.tokens)
            && next == w.(launch := Some(la.(curve := curve)), lamports := next.lamports, tokens := next.tokens,
                          log := w.log + [BuyEvent(c, buyer, t, cost, curve)])
  {
    BuyExact(w, buyer, t, maxSolIn);
  }

  // ---------- sell ----------

  function SellPayments(c: Config, creator: Address, seller: Address, gross: u64): seq<Payment>
    requires Validate(c).Success?
  {
    [Payment(Vault, seller, gross - TradeFee(c, gross))]
    + ThreeShares(Vault, creator, c, FeeShares(c, TradeFee(c, gross)))
  }

  ghost predicate SellAccepted(w: World, seller: Signer, t: u64, minSolOut: u64)
    requires Ready(w)
  {
    var c, la := w.config.value, w.launch.value;
    && !c.paused
    && 0 < t <= Balance(w.tokens, seller)
    && var gross := Payout(la.curve, t);
       minSolOut <= gross - TradeFee(c, gross)
  }

  ghost function SellRefusal(w: World, seller: Signer, t: u64, minSolOut: u64): Error
    requires Ready(w) && !SellAccepted(w, seller, t, minSolOut)
  {
    var c, gross := w.config.value, Payout(w.launch.value.curve, t);
    if c.paused then Paused
    else if t == 0 then ZeroSellAmount
    else if minSolOut > gross - TradeFee(c, gross) then InsufficientSolOut
    else InsufficientFunds
  }

  lemma VaultCanPaySell(w: World, seller: Signer, t: u64)
    requires Ready(w)
    ensures var c, la := w.config.value, w.launch.value;
            var ps := SellPayments(c, la.creator, seller, Payout(la.curve, t));
            Amount(ps) == Payout(la.curve, t) && PayAll(w.lamports, ps).Success?
  {
    var c, la := w.config.value, w.launch.value;
    var gross := Payout(la.curve, t);
    var ps := SellPayments(c, la.creator, seller, gross);
    AmountOfFour(ps);
    PayAllSolvent(w.lamports, ps, Vault);
  }

  function SellEvent(c: Config, seller: Address, t: u64, gross: u64, curve: Reserves): Event
    requires Validate(c).Success?
  {
    var shares := FeeShares(c, TradeFee(c, gross));
    TradeExecuted(seller, false, gross, t, TradeFee(c, gross), shares.0, shares.1, shares.2,
                  curve.realSol, curve.realToken)
  }

  /** The world once t tokens have been sold for `gross` and the reserves have become `curve`. */
  function Sold(w: World, seller: Signer, t: u64, gross: u64, curve: Reserves): World
    requires ConfigInv(w) && Trading(w) && t <= Balance(w.tokens, seller)
    requires PayAll(w.lamports, SellPayments(w.config.value, w.launch.value.creator, seller, gross)).Success?
  {
    var c, la := w.config.value, w.launch.value;
    w.(launch := Some(la.(curve := curve)),
       lamports := PayAll(w.lamports, SellPayments(c, la.creator, seller, gross)).value,
       tokens := Transfer(w.tokens, seller, LaunchPda, t).value,
       log := w.log + [SellEvent(c, seller, t, gross, curve)])
  }

  ghost function AfterSell(w: World, seller: Signer, t: u64, minSolOut: u64): World
    requires Ready(w) && SellAccepted(w, seller, t, minSolOut)
  {
    VaultCanPaySell(w, seller, t);
    var curve := w.launch.value.curve;
    Sold(w, seller, t, Payout(curve, t), Play(curve, SellTokens(t)))
  }

  lemma CompleteSellExact(w: World, seller: Signer, t: u64, gross: u64)
    requires ConfigInv(w) && Trading(w) && OnCurve(w.launch.value.curve)
    requires 0 < t && gross <= w.launch.value.curve.realSol
    requires Balance(w.tokens, seller) <= w.launch.value.curve.sold
    requires PayAll(w.lamports, SellPayments(w.config.value, w.launch.value.creator, seller, gross)).Success?
    ensures var c, la := w.config.value, w.launch.value;
            var r, fee := la.curve, TradeFee(c, gross);
            CompleteSell(w, c, la, seller, t, gross, fee, FeeShares(c, fee)) ==
            if t <= Balance(w.tokens, seller)
            then Success(Sold(w, seller, t, gross,
                   Reserves(r.realSol - gross, r.realToken + t, r.virtualSol, r.virtualToken + t, r.sold - t)))
            else Failure(InsufficientFunds)
  {
    var c, la := w.config.value, w.launch.value;
    var fee := TradeFee(c, gross);
    PayFirst(w.lamports, Payment(Vault, seller, gross - fee),
             ThreeShares(Vault, la.creator, c, FeeShares(c, fee)));
  }

  lemma SettleSellExact(w: World, seller: Signer, t: u64, minSolOut: u64, gross: u64)
    requires ConfigInv(w) && Trading(w) && OnCurve(w.launch.value.curve)
    requires 0 < t && gross <= w.launch.value.curve.realSol
    requires Balance(w.tokens, seller) <= w.launch.value.curve.sold
    requires PayAll(w.lamports, SellPayments(w.config.value, w.launch.value.creator, seller, gross)).Success?
    ensures var c, la := w.config.value, w.launch.value;
            var r := la.curve;
            var q := SettleSell(w, c, la, seller, t, minSolOut, gross);
            if minSolOut > gross - TradeFee(c, gross) then q == Failure(InsufficientSolOut)
            else if t > Balance(w.tokens, seller) then q == Failure(InsufficientFunds)
            else q == Success(Sold(w, seller, t, gross,
                       Reserves(r.realSol - gross, r.realToken + t, r.virtualSol, r.virtualToken + t, r.sold - t)))
  {
    var c := w.config.value;
    var fee := TradeFee(c, gross);
    TradeFeeIsChecked(c, gross);
    FeeSharesAreTheSplit(c, fee);
    CompleteSellExact(w, seller, t, gross);
  }

  lemma SellIsSettled(w: World, seller: Signer, t: u64, minSolOut: u64)
    requires Ready(w) && !w.config.value.paused && 0 < t
    ensures SellStep(w, seller, t, minSolOut)
         == SettleSell(w, w.config.value, w.launch.value, seller, t, minSolOut, Payout(w.launch.value.curve, t))
  {
    SellQuoteExists(w.launch.value.curve, t);
  }

  lemma AcceptedSellSettles(w: World, seller: Signer, t: u64, minSolOut: u64)
    requires Ready(w) && SellAccepted(w, seller, t, minSolOut)
    ensures var c, la := w.config.value, w.launch.value;
            SettleSell(w, c, la, seller, t, minSolOut, Payout(la.curve, t))
            == Success(AfterSell(w, seller, t, minSolOut))
  {
    VaultCanPaySell(w, seller, t);
    SettleSellExact(w, seller, t, minSolOut, Payout(w.launch.value.curve, t));
  }

  lemma RefusedSellSettles(w: World, seller: Signer, t: u64, minSolOut: u64)
    requires Ready(w) && 0 < t && !w.config.value.paused && !SellAccepted(w, seller, t, minSolOut)
    ensures var c, la := w.config.value, w.launch.value;
            SettleSell(w, c, la, seller, t, minSolOut, Payout(la.curve, t))
            == Failure(SellRefusal(w, seller, t, minSolOut))
  {
    VaultCanPaySell(w, seller, t);
    SettleSellExact(w, seller, t, minSolOut, Payout(w.launch.value.curve, t));
  }

  /**
   * A sell is accepted exactly when unpaused, covered and above its minimum: the vault can
   * always pay. It is otherwise refused for exactly this reason, never an arithmetic one or
   * for want of reserves.
   */
  lemma SellExact(w: World, seller: Signer, t: u64, minSolOut: u64)
    requires Ready(w)
    ensures SellStep(w, seller, t, minSolOut) ==
            if SellAccepted(w, seller, t, minSolOut) then Success(AfterSell(w, seller, t, minSolOut))
            else Failure(SellRefusal(w, seller, t, minSolOut))
  {
    if !w.config.value.paused && 0 < t {
      SellIsSettled(w, seller, t, minSolOut);
      if SellAccepted(w, seller, t, minSolOut) {
        AcceptedSellSettles(w, seller, t, minSolOut);
      } else {
        RefusedSellSettles(w, seller, t, minSolOut);
      }
    }
  }

  /** An accepted sell, told by what it leaves behind. */
  lemma SellLeaves(w: World, seller: Signer, t: u64, minSolOut: u64)
    requires Ready(w) && SellStep(w, seller, t, minSolOut).Success?
    ensures LegalMove(w.launch.value.curve, SellTokens(t))
    ensures var c, la, next := w.config.value, w.launch.value, SellStep(w, seller, t, minSolOut).value;
            var gross, curve := Payout(la.curve, t), Play(la.curve, SellTokens(t));
            && minSolOut <= gross - TradeFee(c, gross)
            && PayAll(w.lamports, SellPayments(c, la.creator, seller, gross)) == Success(next.lamports)
            && Transfer(w.tokens, seller, LaunchPda, t) == Success(next.tokens)
            && next == w.(launch := Some(la.(curve := curve)), lamports := next.lamports, tokens := next.tokens,
                          log := w.log + [SellEvent(c, seller, t, gross, curve)])
  {
    SellExact(w, seller, t, minSolOut);
    VaultCanPaySell(w, seller, t);
  }

  // ---------- graduate ----------

  function GraduationShares(c: Config): (s: (u64, u64))
    requires Validate(c).Success?
    ensures s.0 + s.1 == c.graduationFee
  {
    SplitTwoWayExact(c.graduationFee, c.graduationDinoBps);
    SplitTwoWay(c.graduationFee, c.graduationDinoBps).value
  }

  function GraduationPayments(c: Config, realSol: u64): seq<Payment>
    requires Validate(c).Success? && c.graduationFee <= realSol
  {
    TwoShares(Vault, c, GraduationShares(c).0, GraduationShares(c).1)
    + [Payment(Vault, c.graduationAuthority, realSol - c.graduationFee)]
  }

  predicate GraduateAccepted(w: World)
    requires Trading(w)
  {
    var c, r := w.config.value, w.launch.value.curve;
    !c.paused && c.threshold <= r.realSol && c.graduationFee <= r.realSol
  }

  lemma VaultCanGraduate(w: World)
    requires Ready(w) && GraduateAccepted(w)
    ensures var ps := GraduationPayments(w.config.value, w.launch.value.curve.realSol);
            Amount(ps) == w.launch.value.curve.realSol && PayAll(w.lamports, ps).Success?
  {
    var ps := GraduationPayments(w.config.value, w.launch.value.curve.realSol);
    var a, b := ps[1..], ps[2..];
    assert a[1..] == b && b[1..] == [];
    assert Amount(b) == ps[2].amount;
    PayAllSolvent(w.lamports, ps, Vault);
  }

  function GraduateEvent(c: Config, la: Launch): Event
    requires Validate(c).Success? && c.graduationFee <= la.curve.realSol
  {
    TokenGraduated(la.creator, la.curve.realSol - c.graduationFee, GRADUATION_RESERVE, c.graduationFee,
                   GraduationShares(c).0, GraduationShares(c).1, c.graduationAuthority)
  }

  function Closed(c: Config, la: Launch): Launch
    requires c.graduationFee <= la.curve.realSol
  {
    Launch(la.creator, la.curve.(realSol := 0, realToken := 0), true, false, Default,
           la.curve.realSol - c.graduationFee, GRADUATION_RESERVE)
  }

  ghost function AfterGraduate(w: World): World
    requires Ready(w) && GraduateAccepted(w)
  {
    VaultCanGraduate(w);
    var c, la := w.config.value, w.launch.value;
    w.(launch := Some(Closed(c, la)),
       lamports := PayAll(w.lamports, GraduationPayments(c, la.curve.realSol)).value,
       tokens := Deposit(w.tokens, c.graduationAuthority, GRADUATION_RESERVE),
       minted := w.minted + GRADUATION_RESERVE,
       log := w.log + [GraduateEvent(c, la)])
  }

  function GraduateRefusal(w: World): Error
    requires Trading(w) && !GraduateAccepted(w)
  {
    var c, r := w.config.value, w.launch.value.curve;
    if c.paused then Paused else if r.realSol < c.threshold then NotReadyToGraduate else InsufficientReserves
  }

  /** Graduation is accepted exactly when unpaused with the threshold and its own fee covered. */
  lemma GraduateExact(w: World)
    requires Ready(w)
    ensures GraduateStep(w) ==
            if GraduateAccepted(w) then Success(AfterGraduate(w)) else Failure(GraduateRefusal(w))
  {
    var c, la := w.config.value, w.launch.value;
    if GraduateAccepted(w) {
      SplitTwoWayExact(c.graduationFee, c.graduationDinoBps);
      VaultCanGraduate(w);
      PayLast(w.lamports, TwoShares(Vault, c, GraduationShares(c).0, GraduationShares(c).1),
              Payment(Vault, c.graduationAuthority, la.curve.realSol - c.graduationFee));
    }
  }

  /** An accepted graduation, told by what it leaves behind. */
  lemma GraduateLeaves(w: World)
    requires Ready(w) && GraduateStep(w).Success?
    ensures GraduateAccepted(w)
    ensures var c, la, next := w.config.value, w.launch.value, GraduateStep(w).value;
            && PayAll(w.lamports, GraduationPayments(c, la.curve.realSol)) == Success(next.lamports)
            && next == w.(launch := Some(Closed(c, la)), lamports := next.lamports,
                          tokens := Deposit(w.tokens, c.graduationAuthority, GRADUATION_RESERVE),
                          minted := w.minted + GRADUATION_RESERVE,
                          log := w.log + [GraduateEvent(c, la)])
  {
    GraduateExact(w);
    VaultCanGraduate(w);
  }
}
