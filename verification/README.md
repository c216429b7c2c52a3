# Bonding-curve launch: a verified model

This project models the memecoin launch program: a constant-product bonding curve with
virtual reserves, the instructions that trade on it, its graduation and sealing, and the
purchase loop of the test driver. It proves what holds after every interleaving of
configuration changes, creation, buys, sells, graduation, sealing and outside transfers.

## Layers

- `Rounding.dfy`, `Quotes.dfy`: ceiling and floor division, the checked u128 quotes, the fee
  splits, and the driver's unbounded-integer twins of the quotes.
- `Curve.dfy`: the stored reserves of one launch, the effect of one trade, and `Replay`, the
  effect of a whole sequence of trades. The theorems about drift, splitting, loops, the
  payout cap, the beta cap and the sizing of the virtual reserves are proved here.
- `Ledger.dfy`, `Model.dfy`: lamport and token balances, and the program as a step function
  on worlds. A rejected instruction changes nothing.
- `Effects.dfy`, `Invariants.dfy`, `Lifecycle.dfy`, `EventLog.dfy`: the three trading
  instructions in closed form, the launch invariant and its preservation, the phases, and the
  event log. `Inv` is the invariant; `ReachableInv` shows every reachable world has it, and
  `InvReady` that it gives the handlers what they rely on.
- `Governance.dfy`: the instructions that configure, create and seal, each with exactly when it
  is accepted and what it leaves behind; which limits that keeps; exactly when a phase ends.
- `Theorems.dfy`: the guarantees for runs and reachable worlds. They rest on one observation:
  the log of a run determines its curve, so what is proved of `Replay` holds of runs.
- `Reachability.dfy`: the converse. Every legal sequence of trades is made by some run, so
  the reachable curves are exactly the replays. Here too are the concrete runs in which the
  code departs from its documentation.
- `Program.dfy`: the program as it runs, with accounts overwritten field by field and
  transfers made one by one. Each handler is proved against its step function, also where it
  fails half way. A transaction is modelled as atomic: the runtime's rollback is taken as given.
- `Driver.dfy`: the chunk search and the outer purchase loop.

Addresses are a datatype with a zero value, the system program, the launch's two derived
addresses and any number of wallets. Only wallets sign. Configured wallets may be any
address, so they may coincide with each other, with the traders or with the vault.

## Where the code and its documentation differ

The model follows the code.

- Sells round up. `BONDING_CURVE_DIFF.md:36` and `README.md:63` promise a floor;
  `SellPaysFloorIff` gives the exact condition and `PayoutAboveFloorIsReached` a run that
  ends in an exception. The product can therefore fall on a sell; `RunDrift` bounds by how much.
- Splitting a buy can change its price, against `utils.rs:7-9`. `SplitBuysCostTheSameIff`
  gives the exact condition for any number of pieces and `RunSplitBuysCostTheSameIff` carries
  it to runs; `TwoBuysCostTheSameIff` states it on the inputs of two buys. `RunSplitBuys`
  bounds the difference and `SplittingCostsMoreIsReached` is a run with one.
- `tokens_sold` is the net amount in circulation, not a lifetime total as
  `token_launch.rs:32` says. `RunSoldIsLifetimeIff` shows that the two agree exactly until the
  first sell, and `SoldBehindLifetimeIsReached` is a run in which they do not.
- `README.md:60` says creation mints 1B tokens; it mints 800M, and graduation the rest.
- The unit test at `utils.rs:201-217` sells against virtual tokens that were not decremented;
  `ExactInRoundTrip` uses the state the handlers leave.
- After graduation `real_token_reserves` is zero while unsold tokens stay with the launch, so
  the token equation in `TradingBookkeeping` is about trading worlds only. `UnsoldTokensStay`
  and `HoldingsNeverFall` state what holds afterwards.
- `validate` does not bound the graduation fee. `GraduationStaysPossible` shows that a fee
  above the beta cap is exactly what makes graduation impossible.
- `errors.rs:53` says that no wallet is the zero key or the system program, and
  `update_config.rs:44-54` compares with the zero key only. The system program's ID is the
  all-zero key on Solana, so the single comparison is enough; `ReachableConfig` proves the rule.

## Model

| member | source | states |
|---|---|---|
| `Quotes.SolInExact` | contracts/programs/memecoin/src/utils.rs:65-99 | The exact-out quote succeeds if and only if 0 < t <= real tokens, t < y and the u128 and u64 bounds hold; it then returns the ceiling cost |
| `Quotes.SolInIsLeastPayment` | contracts/programs/memecoin/src/utils.rs:65-99 | The quote is the least payment s with (x + s)(y - t) >= x*y |
| `Quotes.TokensOutExact` | contracts/programs/memecoin/src/utils.rs:27-61 | Exactly when the exact-in quote succeeds, and its value |
| `Quotes.SolOutExact` | contracts/programs/memecoin/src/utils.rs:102-131 | Exactly when the sell quote succeeds, and its value with the real_sol cap |
| `Quotes.QuoteAdjunction` | contracts/programs/memecoin/src/utils.rs:27-99 | sol_in(t) <= s if and only if t <= floor(y*s / (x + s)) |
| `Quotes.TokensOutIsBoundOrOneMore` | contracts/programs/memecoin/src/utils.rs:27-61 | tokens_out(s) is that floor, or one more exactly when x + s does not divide x*y |
| `Quotes.TokensOutThenSolIn` | contracts/programs/memecoin/src/utils.rs:27-99 | sol_in(tokens_out(s)) >= s |
| `Quotes.SolInThenTokensOut` | contracts/programs/memecoin/src/utils.rs:27-99 | tokens_out(sol_in(t)) >= t |
| `Quotes.ExactInRoundTrip` | contracts/programs/memecoin/src/utils.rs:200-217 | Paying any s that the quote accepts and that keeps x within y buys a positive amount; updating both reserves as the handlers do and selling it back returns s, or s + 1 exactly when the product did not divide and the curve held lamports before |
| `Quotes.SellRoundsUp` | contracts/programs/memecoin/src/utils.rs:112-130 | The sell quote is the ceiling of x*t / (y + t), cut at real_sol |
| `Quotes.SellPaysFloorIff` | BONDING_CURVE_DIFF.md:36 | The documented floor payout is met if and only if y + t divides x*t or real_sol is no more than the floor |
| `Quotes.BuyNeverLowersProduct` | contracts/programs/memecoin/src/utils.rs:89-96 | No buy lowers the product x*y |
| `Quotes.SellLowersProductIff` | contracts/programs/memecoin/src/utils.rs:118-130 | A sell lowers the product if and only if the division is uneven and the cap does not bite |
| `Quotes.SplitThreeWayExact` | contracts/programs/memecoin/src/utils.rs:135-164 | With splits that sum to 10000 the shares exist and sum to the amount; creator and DINO get their floors; the treasury gets less than two lamports above its exact part |
| `Quotes.TreasuryGetsTheDust` | contracts/programs/memecoin/src/utils.rs:219-225 | For every amount, not only the unit test's, the treasury's share is at least each share of no larger percentage |
| `Quotes.SplitTwoWayExact` | contracts/programs/memecoin/src/utils.rs:167-180 | The two shares exist and sum to the amount for every DINO percentage up to 10000 |
| `Quotes.DriverQuotesAgree` | devnet/test-driver/lib.mjs:70-89 | The driver's unbounded-integer quotes equal the program's wherever the program returns one |
| `Curve.BuyQuoteIsCost` | contracts/programs/memecoin/src/utils.rs:79-98 | On every trading curve every in-range buy quote exists, is positive and is at most 100 SOL, so no overflow branch is taken |
| `Curve.SellQuoteExists` | contracts/programs/memecoin/src/utils.rs:112-130 | On every trading curve every sell quote exists for every u64 amount |
| `Curve.MoveDrift` | contracts/programs/memecoin/src/instructions/sell.rs:208-220 | One trade moves the product by less than the virtual tokens it leaves, up for buys, down for sells, the capped payout included |
| `Curve.BuyThenSellRestores` | contracts/programs/memecoin/src/instructions/sell.rs:96-118 | Buying t and selling t back restores every reserve field; the payout is the price paid |
| `Curve.FreshDrift` | contracts/programs/memecoin/src/instructions/buy.rs:201-219 | After b buys and s sells the product is within b and s rounding steps of its initial value |
| `Curve.ShortfallBounded` | contracts/programs/memecoin/src/utils.rs:125-130 | The real_sol cap trims a payout by at most the number of earlier sells |
| `Curve.SplitSells` | contracts/programs/memecoin/src/utils.rs:102-131 | n consecutive sells pay at least one sell of the total and at most n - 1 lamports more; all other fields agree |
| `Curve.SplitBuys` | contracts/programs/memecoin/src/utils.rs:7-9 | n consecutive buys cost at least one buy of the total and at most 3(n - 1) lamports more; all other fields agree |
| `Curve.TwoBuysCostTheSameIff` | contracts/programs/memecoin/src/utils.rs:7-9 | Two buys cost what one of the total costs if and only if rounding x*y up to a multiple of the tokens left after the first adds no more than rounding it up to a multiple of those left after both |
| `Curve.SplitBuysCostTheSameIff` | contracts/programs/memecoin/src/utils.rs:7-9 | n buys cost what one of the total costs if and only if the product before the last of them has not outgrown the multiple that the single buy rounds up to |
| `Curve.SplittingCanCostMore` | contracts/programs/memecoin/src/utils.rs:7-9 | The concrete purchase for which splitting does change the cost |
| `Curve.SellCanPayMoreThanFloor` | README.md:63 | One buy after a fresh curve, a sell pays 1 lamport where the documented floor is 0 |
| `Curve.ClosedLoop` | contracts/programs/memecoin/src/instructions/sell.rs:207-222 | A run of trades between equal tokens_sold lowers real_sol by less than 3 lamports per sell, and not at all without one |
| `Curve.SoldIsLifetimeIff` | contracts/programs/memecoin/src/state/token_launch.rs:32 | After any trades from a fresh curve tokens_sold is at most everything ever bought, and equal to it if and only if nobody has sold |
| `Curve.BuysThenOneSell` | contracts/programs/memecoin/src/instructions/sell.rs:207-222 | Buys followed by one sell of their total never lower real_sol |
| `Curve.UnitStep` | contracts/programs/memecoin/src/utils.rs:89-96 | One more base unit costs at most one more lamport while x stays below y |
| `Curve.CapReachableIff` | contracts/programs/memecoin/src/instructions/buy.rs:201-210 | real_sol is on the cap, or one buy can land it there exactly, if and only if the product exceeds (35 SOL - 1 lamport) * unsellable tokens |
| `Curve.CapStaysReachable` | contracts/programs/memecoin/src/instructions/buy.rs:201-210 | That holds after every sequence of trades with at most 17.6 billion sells |
| `Curve.SizingReachesThreshold` | contracts/programs/memecoin/src/state/token_launch.rs:88-97 | For all positive parameters, virtual tokens of at most floor(A(vsol + T)/T) make every sell-out of A by buys collect at least T |
| `Curve.DefaultSizing` | contracts/programs/memecoin/src/state/token_launch.rs:79-97 | The program's constants follow that rule for 55 SOL |
| `Ledgers.PayAllKeepsTotal` | contracts/programs/memecoin/src/instructions/buy.rs:118-176 | No list of transfers changes the total, whoever coincides with whom |
| `Effects.HoldersWithinSold` | contracts/programs/memecoin/src/instructions/sell.rs:221-222 | No holder has more tokens than tokens_sold, so the saturating subtraction never saturates |
| `Effects.BuyExact` | contracts/programs/memecoin/src/instructions/buy.rs:89-241 | A buy's whole result: accepted exactly when unpaused, within the curve, the cap and max_sol_in, and covered by the buyer's lamports; everything it changes; the reason of every refusal, the cap coming last and never an arithmetic one |
| `Effects.BuyNeedsInWords` | contracts/programs/memecoin/src/instructions/buy.rs:107-176 | What covering a buy means: cost plus fee for a buyer who receives no fee; between cost and that for one who does; cost plus the largest share for one who receives all of it |
| `Effects.SellExact` | contracts/programs/memecoin/src/instructions/sell.rs:88-240 | A sell's whole result: accepted exactly when unpaused, covered by the seller and above its minimum, so the vault can always pay; everything it changes; the reason of every refusal |
| `Effects.GraduateExact` | contracts/programs/memecoin/src/instructions/graduate.rs:120-247 | Graduation's whole result: accepted exactly when unpaused with threshold and fee covered; everything it changes; the reason of every refusal |
| `Invariants.NextKeepsInv` | contracts/programs/memecoin/src/instructions/update_config.rs:38-91 | Every instruction, configuration updates included, keeps the launch invariant |
| `Invariants.ReachableInv` | contracts/programs/memecoin/src/instructions/create_token.rs:93-194 | Every world reached by any interleaving of instructions satisfies the launch invariant; every reachable configuration is valid |
| `Lifecycle.NextPhase` | contracts/programs/memecoin/src/instructions/seal_graduation.rs:47-70 | An instruction keeps the phase or advances it by one, freezing what the phase freezes and keeping the logged milestones in step |
| `Lifecycle.RunPhases` | contracts/programs/memecoin/src/instructions/graduate.rs:225-232 | Trading, graduated, sealed: in order, never back; after graduation curve, snapshots, supply and trade log never change; after sealing the launch never does |
| `Lifecycle.PhaseFixesSupplyAndPool` | contracts/programs/memecoin/src/instructions/seal_graduation.rs:52-70 | In every reachable world the log holds one creation, then one graduation, then one seal, as far as the phase has come, each reporting the stored creator, hand-off and pool; minted supply is 0, 800M or 1B tokens by phase; the pool address is set if and only if sealed |
| `EventLog.RunKeepsLog` | contracts/programs/memecoin/src/instructions/buy.rs:225-238 | Over every run each trade event reports the fold of the log up to it |
| `EventLog.LogDeterminesState` | contracts/programs/memecoin/src/instructions/graduate.rs:210-244 | In every reachable world the stored reserves are the fold of the log and the replay of its token amounts; at graduation buys minus sells equals fee plus hand-off |
| `Theorems.NoArithmeticFailure` | contracts/programs/memecoin/src/utils.rs:65-194 | From every reachable world no instruction with any argument returns MathOverflow or MathUnderflow |
| `Theorems.HoldersCanAlwaysSell` | contracts/programs/memecoin/src/instructions/sell.rs:88-240 | A holder can sell t with no minimum if and only if 0 < t <= his balance, while unpaused and trading |
| `Governance.OnlyConfigStepsTouchConfig` | contracts/programs/memecoin/src/instructions/update_config.rs:25-36 | Only an update or pause signed by the current administrator changes an existing configuration |
| `Governance.ReachableConfig` | contracts/programs/memecoin/src/state/config.rs:71-108 | Whatever updates a run contains, fee, splits, threshold and wallets stay within the documented limits |
| `Governance.InitializeExact` | contracts/programs/memecoin/src/instructions/initialize_config.rs:65-112 | Initialisation succeeds if and only if there is no configuration yet, no wallet is zero and the numeric limits hold; it stores each parameter in its own field, the signer as administrator, unpaused; the reason of every refusal |
| `Governance.UpdateExact` | contracts/programs/memecoin/src/instructions/update_config.rs:25-91 | An update succeeds if and only if signed by the administrator, without a zero wallet and within the limits after it; each of the 13 fields is then the given value or its old one, and the pause is kept; the reason of every refusal |
| `Governance.UpdateAsksForOne` | contracts/programs/memecoin/src/instructions/update_config.rs:38-82 | Every update asks for exactly one configuration |
| `Governance.SetPausedExact` | contracts/programs/memecoin/src/instructions/set_paused.rs:6-23 | Pausing and unpausing succeed exactly for the administrator and change only that flag |
| `Governance.CreateExact` | contracts/programs/memecoin/src/instructions/create_token.rs:93-194 | Creation succeeds if and only if a configuration exists, no launch does, it is unpaused and the creator, whoever he is, holds the fee or, as DINO wallet, the larger share; launch, mint and event in full; the reason of every refusal |
| `Governance.SealExact` | contracts/programs/memecoin/src/instructions/seal_graduation.rs:25-70 | In reachable worlds sealing succeeds if and only if graduated and not yet sealed, unpaused, signed by the configured authority and with a nonzero pool, which it stores and logs; the reason of every refusal |
| `Governance.ClosedToTrade` | contracts/programs/memecoin/src/instructions/buy.rs:89-95 | In reachable worlds before creation and after graduation every buy, sell and graduation is refused, and why |
| `Governance.WhoAdvancesPhase` | contracts/programs/memecoin/src/instructions/seal_graduation.rs:25-60 | In every reachable world an instruction advances the phase if and only if, unpaused, it is a creation whose fee the creator can pay, a graduation with threshold and fee covered, or a seal by the configured authority with a nonzero pool, in that order; the creator and the pool are the ones given |
| `Theorems.TradingBookkeeping` | contracts/programs/memecoin/src/instructions/create_token.rs:160-170 | The bookkeeping equations of every reachable trading world: reserves, vault, launch tokens, holders, cap, threshold |
| `Theorems.VaultExcessKept` | contracts/programs/memecoin/src/instructions/sell.rs:143-205 | The vault's holding beyond real_sol never shrinks, and is constant unless someone else pays the vault |
| `Theorems.RunKeepsVaultExact` | contracts/programs/memecoin/src/instructions/sell.rs:143-205 | Over any run in which only trades pay the vault that excess is constant to the lamport |
| `Theorems.RunKeepsLamports` | contracts/programs/memecoin/src/instructions/graduate.rs:132-223 | No run creates or destroys a lamport, whatever addresses coincide |
| `Theorems.CreateBalances` | contracts/programs/memecoin/src/instructions/create_token.rs:102-174 | Every balance after creation; the launch starts fresh |
| `Theorems.BuyBalances` | contracts/programs/memecoin/src/instructions/buy.rs:107-198 | Every balance after a buy, coinciding addresses included; the total paid is within max_sol_in |
| `Theorems.SellBalances` | contracts/programs/memecoin/src/instructions/sell.rs:110-205 | Every balance after a sell, coinciding addresses included; the net is at least min_sol_out |
| `Theorems.GraduateBalances` | contracts/programs/memecoin/src/instructions/graduate.rs:132-223 | Every lamport and token balance after graduation |
| `Theorems.ExactInverse` | contracts/programs/memecoin/src/instructions/buy.rs:97-116 | A buy of t then a sell of t under one configuration restores launch and token balances; the trader is down exactly two fees, all of it with the recipients |
| `Theorems.RunDrift` | contracts/programs/memecoin/src/instructions/sell.rs:208-220 | Product bounds in every reachable trading world by the buys and sells its log records |
| `Theorems.RunShortfall` | contracts/programs/memecoin/src/utils.rs:118-130 | In every reachable world a sell is trimmed by at most the number of earlier sells, and by nothing before the first |
| `Theorems.RunReplays` | contracts/programs/memecoin/src/instructions/buy.rs:200-238 | Between two trading moments of a run the later curve is the earlier one with the logged trades replayed |
| `Theorems.RunClosedLoop` | contracts/programs/memecoin/src/instructions/sell.rs:207-222 | Closed-loop bound for whole runs, whatever else happens in between |
| `Theorems.RunBuysThenOneSell` | contracts/programs/memecoin/src/instructions/sell.rs:207-222 | Buys then one sell of the total, for whole runs |
| `Theorems.RunSplitSells` | contracts/programs/memecoin/src/utils.rs:102-131 | Split-sell bounds for whole runs, whoever sells |
| `Theorems.RunSplitBuys` | contracts/programs/memecoin/src/utils.rs:7-9 | Split-buy bounds for whole runs, whoever buys |
| `Theorems.RunSplitBuysCostTheSameIff` | contracts/programs/memecoin/src/utils.rs:7-9 | Exactly when the buys of a run cost what one buy of their total costs, whoever buys |
| `Theorems.RunSoldIsLifetimeIff` | contracts/programs/memecoin/src/state/token_launch.rs:32 | In every reachable trading world tokens_sold is the lifetime total if and only if the log holds no sell |
| `Theorems.UnsoldTokensStay` | contracts/programs/memecoin/src/instructions/graduate.rs:225-232 | After graduation the launch still holds at least the allocation less tokens_sold |
| `Theorems.HoldingsNeverFall` | contracts/programs/memecoin/src/instructions/graduate.rs:225-232 | Over every run from graduation on, neither the launch's tokens nor the vault's lamports fall |
| `Theorems.GraduationStaysPossible` | contracts/programs/memecoin/src/instructions/graduate.rs:120-137 | From every trading world with at most 17.6 billion sells, an unpaused launch can graduate at once on the cap, or after one affordable buy that lands exactly on it, if and only if the graduation fee is within the cap |
| `Theorems.FeeAboveCapBlocksGraduation` | contracts/programs/memecoin/src/state/config.rs:71-108 | A graduation fee above the cap, which validation lets through, makes graduation fail in every trading world |
| `Reachability.ScriptAttempts` | contracts/programs/memecoin/src/lib.rs:29-99 | Of any attempted sequence of trades the program accepts exactly the ones legal where they come, and leaves the curve where they lead |
| `Reachability.ScriptPlays` | contracts/programs/memecoin/src/lib.rs:29-99 | Every legal sequence of trades from a fresh curve is made, trade by trade, by a run that one trader with 5 SOL can sign |
| `Reachability.ReachableCurvesAreReplays` | contracts/programs/memecoin/src/lib.rs:29-99 | The curves of reachable trading worlds are exactly the replays of legal trades from a fresh curve |
| `Reachability.SealedIsReached` | contracts/programs/memecoin/src/instructions/seal_graduation.rs:47-70 | Some run goes the whole way: created, bought to the cap, graduated, sealed with any nonzero pool |
| `Reachability.PayoutAboveFloorIsReached` | README.md:63 | The run after which a sell pays a lamport where the documented floor is none |
| `Reachability.SplittingCostsMoreIsReached` | contracts/programs/memecoin/src/utils.rs:7-9 | Two runs that buy the same two base units, for two lamports apart and one together |
| `Reachability.SoldBehindLifetimeIsReached` | contracts/programs/memecoin/src/state/token_launch.rs:32 | The run after which tokens_sold is one less than the lifetime total |
| `Program.ConfigAccount.constructor` | contracts/programs/memecoin/src/instructions/initialize_config.rs:85-101 | Each configuration field holds its own parameter; the signer is administrator; unpaused |
| `Program.ConfigAccount.SetWallets` | contracts/programs/memecoin/src/instructions/update_config.rs:41-55 | Wallet overwrites; fails exactly on a zero wallet |
| `Program.ConfigAccount.SetTradeFees` | contracts/programs/memecoin/src/instructions/update_config.rs:56-67 | Fee and split overwrites; absent fields keep their value |
| `Program.ConfigAccount.SetLaunchTerms` | contracts/programs/memecoin/src/instructions/update_config.rs:68-82 | Creation, graduation and threshold overwrites; absent fields keep their value |
| `Program.LaunchAccount.constructor` | contracts/programs/memecoin/src/instructions/create_token.rs:159-179 | The launch fields as created |
| `Program.LaunchAccount.ApplyBuy` | contracts/programs/memecoin/src/instructions/buy.rs:200-223 | The in-place reserve update of a buy, with the cap check after real_sol has been overwritten |
| `Program.LaunchAccount.ApplySell` | contracts/programs/memecoin/src/instructions/sell.rs:207-222 | The in-place reserve update of a sell |
| `Program.LaunchAccount.Close` | contracts/programs/memecoin/src/instructions/graduate.rs:225-232 | The in-place update of graduation |
| `Program.Chain.HandleInitializeConfig` | contracts/programs/memecoin/src/instructions/initialize_config.rs:65-112 | The handler matches its step function, error for error |
| `Program.Chain.HandleUpdateConfig` | contracts/programs/memecoin/src/instructions/update_config.rs:38-91 | The handler matches its step function although it fails after partial overwrites |
| `Program.Chain.HandleSetPaused` | contracts/programs/memecoin/src/instructions/set_paused.rs:19-23 | The handler matches its step function |
| `Program.Chain.HandleCreateToken` | contracts/programs/memecoin/src/instructions/create_token.rs:93-194 | The handler matches its step function |
| `Program.Chain.HandleBuy` | contracts/programs/memecoin/src/instructions/buy.rs:89-241 | The handler, transfer by transfer and field by field, matches its step function, error for error |
| `Program.Chain.HandleSell` | contracts/programs/memecoin/src/instructions/sell.rs:88-240 | The handler, transfer by transfer and field by field, matches its step function, error for error |
| `Program.Chain.HandleGraduate` | contracts/programs/memecoin/src/instructions/graduate.rs:120-247 | The handler matches its step function, error for error |
| `Program.Chain.HandOver` | contracts/programs/memecoin/src/instructions/graduate.rs:132-247 | Its second half, payments, mint, hand-off and closing in source order, matches the step function's |
| `Program.Chain.HandleSealGraduation` | contracts/programs/memecoin/src/instructions/seal_graduation.rs:47-70 | The handler matches its step function, error for error |
| `Program.Chain.Execute` | contracts/programs/memecoin/src/instructions/buy.rs:207-210 | With the runtime's rollback, a handler that fails after transfers leaves nothing behind, and one that succeeds leaves the step's world |
| `Program.Chain.ExecuteAll` | contracts/programs/memecoin/src/lib.rs:29-99 | A whole run of the imperative program is the run of the step functions |
| `Program.RunFromGenesis` | contracts/programs/memecoin/src/lib.rs:29-99 | Every state of the running program is a reachable world |
| `Driver.PickChunk` | devnet/test-driver/03-buy.mjs:138-154 | The search terminates with the full chunk if it fits, else with the largest fitting chunk of its range, else with the range's lower end |
| `Driver.LargestFitIsExact` | devnet/test-driver/03-buy.mjs:139-154 | On a trading curve the largest fitting chunk below an overshooting one lands real_sol exactly on the target |
| `Driver.DoBuyExact` | devnet/test-driver/03-buy.mjs:63-96 | For every valid fee, and for a quote older than the curve too: exactly when the driver's buy succeeds, its effect, and the reason it fails |
| `Driver.DoBuyIsTheProgramsBuy` | devnet/test-driver/03-buy.mjs:63-104 | The program answers the driver's instruction in exactly that way when unpaused and funded, with Paused or InsufficientFunds at their places in the order of checks otherwise |
| `Driver.FreshQuoteSlipsIff` | devnet/test-driver/03-buy.mjs:67-71 | With a fresh quote the driver gets SlippageExceeded if and only if the fee exceeds a hundredth of the cost by more than the slack; never at fees up to 1% |
| `Driver.Round` | devnet/test-driver/03-buy.mjs:112-166 | One round for every valid fee, with other traders acting before it reads, before it quotes and before its purchase lands. It goes on if and only if its purchase of the chunk picked for the curve it read is accepted where it lands; the trades are then those of the others that were accepted, and that one purchase. It ends at the threshold, on a nearly empty curve, or with the error of that refused purchase |
| `Driver.AsksForOne` | devnet/test-driver/03-buy.mjs:138-155 | The chunk a round asks for is determined by the curve it has read |
| `Driver.GoingOnBuysOnce` | devnet/test-driver/03-buy.mjs:161-165 | A round that goes on holds exactly one purchase of its own, the last of its trades, which replay to its final curve |
| `Curve.AllAcceptedIff` | devnet/test-driver/03-buy.mjs:112-166 | Trades attempted in between are all accepted if and only if they are legal as they stand |
| `Driver.DriveToThreshold` | devnet/test-driver/03-buy.mjs:112-166 | The whole loop for every valid fee and whatever others trade in between: its history is the rounds one after another, legal, with as many own purchases as it counts; its quotes never throw and its chunk is never too small. Undisturbed, rounds never run out: it ends on the threshold exactly, on a nearly empty curve, because the smallest searched purchase overshoots, or because a fee above 1% outruns the slack; from a fresh launch, at up to 1%, it takes nine buys and lands exactly |

## Left out

- Account validation, address derivation, bumps, signer seeds, rent and serialisation: the accounts are the ones named.
- Checks that passed-in wallets match the configuration and the launch: they are always the right ones.
- Several launches at once: one launch is modelled; others reach it only through the shared configuration and outside transfers, which are steps of a run.
- Several token accounts of one owner: token balances are kept per owner.
- The u64 limit of a single balance: balances are unbounded, and their sums are proved never to grow except by minting.
- Burning by holders: representable only as sending to an address that never sends.
- Timestamps, token name, symbol and URI with their length checks, and reserved bytes.
- `apply_fee` in `utils.rs`: no handler uses it; the handlers compute the fee in line, as modelled.
- Default parameters of `initialize_config`: the configuration is arbitrary in every theorem.
- Driver.DriveToThreshold: does not model an underfunded buyer, a pause, a fee change or a graduation during the loop; `DoBuyIsTheProgramsBuy` gives the answer to a single purchase in the first two cases.
- Key files, RPC calls and instruction encoding of the driver.
- The Python simulators and the off-chain services.
