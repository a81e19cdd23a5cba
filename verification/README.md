# Verification of the value-carrying programs

This project models the state machines of the repository that hold or move value, and proves what they keep
over every run: the bonding-curve launchpad, the staking accumulator, the sequencer's fee queue, the MYTH fee
engine, the two-chain bridge with its relayer, the delegation ledger, the compute market and the swap pools.

`dafny verify dfyconfig.toml` checks all of it.

## How it is built

Each program appears in four ways.

* A **specification** on values: a datatype holds the program's accounts, and one function per instruction
  gives the new state or the error, with the checks in the program's own order and its 64-bit and 128-bit
  limits written out. A failed instruction leaves the state alone, as a reverted transaction does.
* The **runs**: an invariant over the specification, a lemma that every instruction keeps it, an induction
  over arbitrary sequences of instructions, and the main theorems about every reachable state.
* The **effects**: for every instruction exactly when it succeeds and what it does to whom, said of amounts,
  rounded parts and slots and not of the functions that compute them, with everything else unchanged; and that
  the error of a refused instruction names a cause that is there.
* The **object** in place: a class with the accounts as fields and one method per instruction, written
  as the program writes it and proved to compute the specification. Its ghost fields hold the history of
  the run, its `Valid()` is the invariant of the runs, and its entry point, like the program's own
  `process_instruction`, takes any instruction from a valid object to a valid one. The sequencer's heap
  lives in an array and is sifted there; loops of the programs are loops here.

| file | what it holds |
|---|---|
| `Numbers.dfy`, `Totals.dfy` | integer widths, results, division facts; sums over the accounts of a ledger |
| `Curve.dfy`, `Launchpad.dfy`, `LaunchpadRuns.dfy`, `LaunchpadPayouts.dfy`, `LaunchpadEffects.dfy`, `LaunchAccount.dfy` | the bonding curve and its launches |
| `Staking.dfy`, `StakingRuns.dfy`, `StakingLimits.dfy`, `StakingEffects.dfy`, `StakingProgram.dfy` | the reward-per-token accumulator |
| `FeeHeap.dfy`, `Sequencer.dfy`, `SequencerRuns.dfy`, `SequencerTile.dfy` | the fee-ordered heap, block building, the tile |
| `FeeEngine.dfy`, `FeeEngineRuns.dfy`, `FeeEngineEffects.dfy`, `FeeProgram.dfy` | fee splits, epoch distribution, burns |
| `RateLimiter.dfy`, `HexCodec.dfy`, `BridgeL1.dfy`, `BridgeL1Effects.dfy`, `BridgeL2.dfy`, `BridgeL2Effects.dfy`, `Relayer.dfy` | the parts of the bridge |
| `BridgeSystem.dfy`, `BridgeFaith.dfy`, `BridgeBacking.dfy`, `BridgeCover.dfy`, `BridgeDeadlines.dfy`, `BridgeLimits.dfy` | both chains and the relayer together |
| `Governance.dfy` | voting power and delegation |
| `ComputeMarket.dfy`, `ComputeMarketRuns.dfy`, `ComputeEffects.dfy`, `ComputeProgram.dfy` | compute jobs, escrow and leases |
| `Swap.dfy`, `SwapRuns.dfy`, `SwapShares.dfy`, `SwapEffects.dfy`, `SwapProgram.dfy` | constant-product pools, their shares and fees |

Signers are parameters, accounts at derived addresses are maps keyed by what the address is derived from,
cross-program calls are balance changes, clocks and outcomes of the network are parameters. Totals that no
account stores (what was ever paid in, claimed, refunded) are kept in a history or books record beside the
state, written only by the run definitions.

## Results that need a condition

Some expected properties hold only under a condition, which the lemmas name; where one fails, a lemma gives
the run.

* Curve: `x*y >= k` is not kept, because sells round the quote down. The comments at
  programs/launchpad/src/lib.rs:358 and 410 say that the user gets less; the user gets more. What holds is the
  two-sided bound, and a round trip is neutral exactly from the floor (`BuyThenSellBack`, `RoundTripCanGain`).
* Launchpad: only the creation compares the account handed in as the vault with the launch's own
  (programs/launchpad/src/lib.rs:886-892); a buy can pay any account, the other handlers can be paid by any
  account of the vault's authority, and nothing checks who receives. The vault holds what the launch account
  says at every moment exactly if every instruction names the right accounts (`SquareExactlyWhen`,
  `EveryReachableLaunch`); the runs that drain it or lock it are `PaymentElsewhereDrainsTheVault` and
  `ForeignGraduationIsReachable`. Tokens sell back in any chunking exactly if they exist, their fees fit their
  widths and the vault holds what they take (`OutstandingTokensSellBack`). Graduation leaves previously accrued
  creator fees in the vault, where nothing can reach them (`GraduationDistributesExactly`,
  `NothingMovesAfterThePayout`); a creator's claim between automatic graduation and the distribution blocks
  the distribution (`ClaimingFirstForfeitsTheDistribution`, `ForfeitureIsReachable`).
* Staking: rewards and principal can be taken while rate times age fits 64 bits (`StakersAreServed`); once the
  emission since the last update leaves 128 bits, nobody can unstake again (`PrincipalIsLocked`).
* Fee updates: a proposal can be executed exactly if it names everything; any other one blocks all later
  updates (`ProposalIsExecutableExactlyWhen`, `StuckProposalBlocksAll`).
* Sequencer: a scratch space of the footprint the tile reports is too small for its queue (`UnprivilegedInit`).
* Rate limits: a resetting window allows two limits within any day (`VolumeOverWindows`, `TwoLimitsCanMeet`).
* Bridge relaying: the relayer parses every log line of a transaction that mentions the bridge, whichever
  program printed it. Releases and withdrawals answer deposits and burns at every moment exactly if every line
  it acts on asks for what the bridge program's own line of that nonce asks for
  (`EveryRelayIsFaithfulExactlyWhen`); a run with a line nobody deposited for is in
  `ForeignLineReleasesUnbackedMyth`.
* Bridge backing: it holds exactly when what was given out in excess does not exceed what is still owed
  (`CirculationIsBackedExactlyWhen`). Own lines are not enough, since the relayer does not read the token of a
  deposit (`SolDepositReleasesUnbackedMyth`). Line by line: nothing is ever given or promised in excess exactly if
  every line acted on asks for no more than its deposit or burn took in (`NothingInExcessExactlyWhen`).
* Bridge delivery is not promised: nonce 0 and everything below the last relayed nonce is filtered out
  (`RequestsClimb`, `NewestFirstRelaysOneTransaction`), a text cut inside a character stops the relayer
  (`PanicsExactlyWhen`), and a challenged withdrawal has no way on (`ChallengedWithdrawalIsStuck`). A faithful matured withdrawal can find
  the vault short (`FinalizeSucceedsExactlyWhen`, `CoveredWithdrawalsCanBePaid`,
  `FaithfulWithdrawalFindsTheVaultShort`).
* Delegation: the administrator can set a power below what was delegated out of it
  (`LoweredPowerStaysDelegated`). The comment at programs/governance/src/lib.rs:1062 says to undelegate with
  the default key; the code requires the current delegate's.
* Compute market: the protocol fee is not bounded when the market is set up, and a fee that does not fit the
  cost makes every release fail for good (`UnpayableFeeIsNeverReleased`, `FeeAboveTheCostIsNeverReleased`). The dispute
  window is measured from a time stamp to a slot number, so that a proof is paid only once the slot number has
  outgrown the time stamp (`ReleaseWaitsForTheSlotNumber`, `SlotsLagBehindTimeStamps`). A job that ended in a
  refund can never be closed (`SlashedJobIsNeverClosed`), and a request that no provider takes keeps its
  escrow for good (`UntakenEscrowStays`).
* Swap pools: fees stay in the reserves and are harvested from them as well, so a harvest lowers what every
  share is worth, and fees owed can exceed the reserve they would be paid from (`ClaimsFallExactlyWhen`,
  `HarvestSucceedsExactlyWhen`, `FeesCanOutgrowTheReserve`). The creator's liquidity tokens have no position
  and can never be removed, and removing liquidity gives up its pending fees (`EveryShareAndFee`).

## Model

| member | source | states |
|---|---|---|
| Curve.SubtractionsNeverUnderflow | programs/launchpad/src/lib.rs:376-414 | from reserves within one unit of the hyperbola alone, neither subtraction in the two swap formulas can underflow, for any amount above zero |
| Curve.SwapsSucceedExactlyWhen | programs/launchpad/src/lib.rs:363-420 | near the hyperbola a swap is refused for a zero amount or a reserve past 64 bits and for nothing else (if and only if) |
| Curve.BuyStaysNear | programs/launchpad/src/lib.rs:363-389 | a buy keeps (x-1)*y < k < x*(y+1) |
| Curve.SellStaysNear | programs/launchpad/src/lib.rs:394-420 | a sell keeps (x-1)*y < k < x*(y+1), although it can leave x*y below k |
| Curve.OpeningReservesAreNear | programs/launchpad/src/lib.rs:961-981 | the reserves a launch opens with satisfy the bound for k = supply * quote |
| Curve.BuyInTwo | programs/launchpad/src/lib.rs:363-389 | two purchases in a row are one of their sum: same output, same reserves, same refusals |
| Curve.SellInTwo | programs/launchpad/src/lib.rs:394-420 | two sales in a row are one of their sum |
| Curve.BuyIsPathIndependent | programs/launchpad/src/lib.rs:363-389 | a purchase split into any sequence of pieces gives exactly the output, reserves and refusals of the whole |
| Curve.SellIsPathIndependent | programs/launchpad/src/lib.rs:394-420 | the same for sales |
| Curve.BuyThenSellBack | programs/launchpad/src/lib.rs:363-420 | buying with m and selling all tokens received returns exactly m + (y - floor(k/x)): never less than m, m itself if and only if y is floor(k/x), and at most ceil((y-1)/x) more |
| Curve.RoundTripIsNeutralFromTheFloor | programs/launchpad/src/lib.rs:363-420 | from a quote of exactly floor(k/base), buying with m and selling everything back returns exactly m and restores the reserves |
| Curve.OpeningRoundTripIsNeutral | programs/launchpad/src/lib.rs:961-981 | so it does from the reserves a launch opens with |
| Curve.RoundTripAfterASellIsNeutral | programs/launchpad/src/lib.rs:394-420 | and from the reserves any sell leaves |
| Curve.RoundTripCanGain | programs/launchpad/src/lib.rs:363-420 | a concrete reachable curve on which buying for 4 sells back for 5 |
| Launchpad.CalculateFee | programs/launchpad/src/lib.rs:436-442 | the fee is at most a tenth of the amount, so that what is left after it is never negative |
| Launchpad.FeeRoundsDown | programs/launchpad/src/lib.rs:436-442 | the fee is the basis points of the amount rounded down, and the creator gets three tenths of it rounded down |
| LaunchpadRuns.CreateIsGood | programs/launchpad/src/lib.rs:960-1091 | a creation, with or without the creator's own purchase, starts on the curve with balanced books; the payer paid exactly both fee and purchase, and of the purchase all but its basis points, rounded down, was collected |
| LaunchpadRuns.BuyTrades | programs/launchpad/src/lib.rs:1215-1362 | whatever accounts are handed in, a buy moves reserves and ledger one for one, what the vault should hold with what was collected, and every MYTH that moves ends up somewhere |
| LaunchpadRuns.SellTrades | programs/launchpad/src/lib.rs:1487-1605 | so does a sell |
| LaunchpadRuns.BuyKeepsGood | programs/launchpad/src/lib.rs:1145-1362 | a buy, to whatever account it pays, keeps the invariant: x = supply - sold, y = opening quote + collected, the hyperbola bound, all MYTH and all tokens accounted for, and what the vault should hold equal to collected MYTH plus accrued creator fees |
| LaunchpadRuns.SellKeepsGood | programs/launchpad/src/lib.rs:1487-1605 | a sell keeps it |
| LaunchpadRuns.StepKeepsGood | programs/launchpad/src/lib.rs:1145-2030 | so does every instruction with any accounts, refused ones included |
| LaunchpadRuns.RunKeepsGood | programs/launchpad/src/lib.rs:1145-2030 | every sequence of buys, sells, graduations and fee claims with any accounts, refused ones included, and of gifts to the vault and burns by holders, keeps it |
| LaunchpadRuns.DriftIsZeroExactlyWhen | programs/launchpad/src/lib.rs:1168-1260 | an instruction moves the vault away from what it should hold by an amount read off the accounts handed in, and by nothing if and only if it pays into and out of the launch's own vault and no receiver is that vault (unless nothing moves) |
| LaunchpadRuns.DriftsAddUp | programs/launchpad/src/lib.rs:1145-2030 | over any run the vault differs from what it should hold by the sum of those amounts |
| LaunchpadRuns.SquareExactlyWhen | programs/launchpad/src/lib.rs:1145-2030 | the vault holds what it should at every moment of a run if and only if every instruction that succeeded named the right accounts |
| LaunchpadRuns.EveryReachableLaunch | programs/launchpad/src/lib.rs:960-2030 | after any run from any creation, with any accounts: reserves mirror the ledger, the quote is never below its opening value, tokens remain unsold, all MYTH that came in is accounted for; the vault is off by exactly the sum of the drifts, and never off if and only if all instructions named the right accounts |
| LaunchpadPayouts.GrossIsCovered | programs/launchpad/src/lib.rs:1487-1517 | a sale of at most the tokens sold never pays out more than was collected, so the InsufficientFunds branch cannot fire for it |
| LaunchpadPayouts.SellSucceedsExactlyWhen | programs/launchpad/src/lib.rs:1418-1605 | on a reachable launch a sale is refused only for a pause, a closed curve, its own arguments, for tokens that do not exist, for the widths of the fees, or because the account handed in as the vault cannot pay (if and only if) |
| LaunchpadPayouts.CoveredVaultPays | programs/launchpad/src/lib.rs:1487-1560 | the launch's own vault can pay every sale while it holds what it should |
| LaunchpadPayouts.PieceSells | programs/launchpad/src/lib.rs:1410-1605 | one piece of at most the tokens sold is worth at most what was collected, leaves the quote on the floor, and is refused only for its tokens, its fee's widths or a short vault |
| LaunchpadPayouts.OutstandingTokensSellBack | programs/launchpad/src/lib.rs:1410-1605 | outstanding tokens sell back in any order and chunking if and only if they exist, each fee, read off the curve, fits its widths, and the vault holds what they take out of it |
| LaunchpadPayouts.PiecesEndLikeOneSale | programs/launchpad/src/lib.rs:394-420 | the reserves end where one sale of the sum would take them |
| LaunchpadPayouts.OutflowIsFall | programs/launchpad/src/lib.rs:1487-1517 | what the pieces take out of the vault and leave to the creator is at most the fall of the quote |
| LaunchpadPayouts.CoveredTokensSellBack | programs/launchpad/src/lib.rs:1410-1605 | so a vault that holds what it should meets every chunking of all tokens not burned; no fee is in the way if the one on everything collected is not |
| LaunchpadPayouts.SellingEverythingRestoresTheOpening | programs/launchpad/src/lib.rs:1410-1605 | under that condition (if and only if, nothing burned) selling everything back restores the opening reserves and empties the collected MYTH, whatever the trading history; the vault keeps the creator's fees and its surplus or lack |
| LaunchpadPayouts.GraduationDistributesExactly | programs/launchpad/src/lib.rs:1644-1869 | when a graduation succeeds, its counters and the paying account included (if and only if); paid out of the launch's vault to accounts outside it, all collected MYTH and not a unit more, 80/10/10 with the rounding to the foundation; paid by another account, nothing leaves the launch's vault; the supply is completed but for burned tokens |
| LaunchpadPayouts.NothingMovesAfterThePayout | programs/launchpad/src/lib.rs:1686-2000 | once the payout flag is set no instruction sequence changes anything; only gifts and burns do |
| LaunchpadPayouts.ClaimingFirstForfeitsTheDistribution | programs/launchpad/src/lib.rs:1965-2010 | when a graduated launch can be distributed and its fees claimed (if and only if); a claim before the distribution leaves the collected MYTH in the vault after every later run |
| LaunchpadPayouts.ForeignGraduationForfeitsTheDistribution | programs/launchpad/src/lib.rs:1655-1869 | a graduation paid by another account of the vault's authority, which nothing compares with the vault, does the same |
| LaunchpadPayouts.ForfeitureIsReachable | programs/launchpad/src/lib.rs:1215-2010 | a concrete launch, bought to graduation and claimed, whose 900 collected units never leave the vault |
| LaunchpadPayouts.ForeignGraduationIsReachable | programs/launchpad/src/lib.rs:1655-1869 | the same launch graduated by a stranger out of another account: all 930 units stay |
| LaunchpadPayouts.PaymentElsewhereDrainsTheVault | programs/launchpad/src/lib.rs:1160-1240 | a concrete run in which a buyer pays another account, sells against the launch's vault, and an honest holder's sale is refused |
| LaunchpadEffects.CreateSucceedsExactlyWhen | programs/launchpad/src/lib.rs:960-1091 | a creation is refused for a zero supply or quote, a pause, a full counter, a payer who has less than creation fee and purchase, or a purchase that does not fit its widths, and for nothing else (if and only if) |
| LaunchpadEffects.CreateEffect | programs/launchpad/src/lib.rs:1022-1091 | the payer pays exactly creation fee and purchase; of the purchase its basis points rounded down are the fee, the rest is collected, and what stays unsold is the least number of tokens whose product with the new quote reaches supply times opening quote |
| LaunchpadEffects.BuySucceedsExactlyWhen | programs/launchpad/src/lib.rs:1145-1362 | a buy is refused for a zero amount, missing funds, a pause, a closed curve, fewer tokens than asked for, or a width, and for nothing else (if and only if) |
| LaunchpadEffects.BuyEffect | programs/launchpad/src/lib.rs:1215-1362 | who pays and gets what in a buy: the amount, the fee as its rounded-down basis points, three tenths of that for the creator, all tokens but the least number that keeps the product; the curve closes exactly when its quote reaches the threshold; nothing else changes |
| LaunchpadEffects.SaleEffect | programs/launchpad/src/lib.rs:1487-1605 | the same for a sale: the tokens are burned and go back on the curve, the quote falls to the floor of k over the new base, and its fall is divided between seller, foundation and creator |
| LaunchpadEffects.PriceFitsExactlyWhen | programs/launchpad/src/lib.rs:422-433 | the quoted price has 64 bits exactly while a million times the quote is below 2^64 times the base |
| LaunchpadEffects.GraduationEffect | programs/launchpad/src/lib.rs:1686-1869 | a graduation closes the launch for good, mints exactly what is unsold for the DEX and records a tenth, rounded down, as the creator's |
| LaunchpadEffects.ClaimEffect | programs/launchpad/src/lib.rs:1965-2030 | a claim pays exactly what was accrued, and no second claim is possible |
| LaunchpadEffects.LaunchRefusalsAreTrue | programs/launchpad/src/lib.rs:1145-2030 | an error a refused instruction reports names a cause that is there |
| LaunchAccount.TokenLaunch.constructor | programs/launchpad/src/lib.rs:960-1091 | the accounts of a creation that succeeded, with the invariant; the payer paid creation fee and purchase, the purchase less its basis points rounded down was collected and is the rise of the quote, and the tokens sold are the fall of the base |
| LaunchAccount.TokenLaunch.ProcessBuy | programs/launchpad/src/lib.rs:1145-1362 | equals its specification function on the state before: same verdict, same new state, nothing changed on a refusal |
| LaunchAccount.TokenLaunch.ProcessSell | programs/launchpad/src/lib.rs:1410-1605 | equals its specification function on the state before: same verdict, same new state, nothing changed on a refusal |
| LaunchAccount.TokenLaunch.ProcessGraduate | programs/launchpad/src/lib.rs:1644-1869 | equals its specification function on the state before: same verdict, same new state, nothing changed on a refusal, and of the configuration's counters |
| LaunchAccount.TokenLaunch.ProcessClaimCreatorFee | programs/launchpad/src/lib.rs:1965-2030 | equals its specification function on the state before: same verdict, same new state, nothing changed on a refusal |
| LaunchAccount.TokenLaunch.ProcessInstruction | programs/launchpad/src/lib.rs:61-84 | requires and ensures the launch invariant for any accounts handed in; every MYTH is accounted for, what is due is collected MYTH and accrued fees until the payout, the vault moves away from it by exactly the drift, and stays square if and only if the accounts were the right ones |
| StakingRuns.PerSlotPayClosed | programs/staking/src/lib.rs:237-258 | the reference scheme, one exact share per slot, in closed form |
| StakingRuns.IntervalRounding | programs/staking/src/lib.rs:237-258 | over one interval the accumulator pays a stake at most its exact share and less than one scaled unit per staked token below it |
| StakingRuns.GlobalUpdateKeepsGood | programs/staking/src/lib.rs:295-305 | moving the accumulator keeps ledger, solvency and refinement |
| StakingRuns.SettlementRounding | programs/staking/src/lib.rs:260-277 | a settlement pays never more than is due and less by under one lamport |
| StakingRuns.SettleOrOpenKeepsGood | programs/staking/src/lib.rs:446-490 | settling a staker, or opening its account at the current accumulator, keeps all three invariants for everyone |
| StakingRuns.StepKeepsGood | programs/staking/src/lib.rs:412-831 | each of stake, unstake, withdraw, claim, fund and pause keeps all three |
| StakingRuns.RunKeepsGood | programs/staking/src/lib.rs:412-831 | so does every interleaving of them by any stakers |
| StakingRuns.GoodIsSolvent | programs/staking/src/lib.rs:237-300 | what the invariant says of one state, the unsettled rewards included |
| StakingRuns.RewardsNeverExceedEmission | programs/staking/src/lib.rs:237-300 | in every reachable state all rewards claimed plus all that is owed, settled and unsettled (stake times the accumulator's rise since the checkpoint), are at most rate times the slots with something staked; total_staked is the sum of stakes; the vault is exactly principal + unbonding + unclaimed funding |
| StakingRuns.AccumulatorRefinesPerSlotPay | programs/staking/src/lib.rs:236-292 | the lazy accumulator refines paying every staker its exact share each slot: never more, and short by at most the stake held over the global updates (scaled) plus one lamport per settlement |
| StakingRuns.WithdrawSucceedsExactlyWhen | programs/staking/src/lib.rs:612-682 | a matured withdrawal never fails for lack of vault funds (if and only if it is matured) |
| StakingRuns.FundedClaimsSucceed | programs/staking/src/lib.rs:688-763 | while funding covers the emission a claim is refused only when its settlement overflows or nothing was earned (if and only if), and principal stays covered after it |
| StakingLimits.SettlementFits | programs/staking/src/lib.rs:236-293 | while the rate times the slots with something staked fits 64 bits, no settlement of anyone overflows |
| StakingLimits.StakersAreServed | programs/staking/src/lib.rs:532-763 | in every reachable state, while rate times age fits 64 bits: an unstake is refused for its own arguments only, a claim for having earned nothing or for lack of funding (if and only if) |
| StakingLimits.PrincipalIsLocked | programs/staking/src/lib.rs:236-258 | once the emission since the last update leaves 128 bits with something staked, every later stake, unstake and claim of anyone fails through every run, and all principal stays staked |
| StakingLimits.LockIsReachable | programs/staking/src/lib.rs:236-258 | that happens: one lamport, the highest rate, twenty slots |
| StakingEffects.UnstakeStartsTheWait | programs/staking/src/lib.rs:560-664 | after an unstake in some slot a withdrawal succeeds at exactly the slots not before that slot plus the unbonding period (if and only if) |
| StakingEffects.UnstakedAmountIsHeld | programs/staking/src/lib.rs:532-682 | no sequence of instructions of anyone in slots before that lowers the unbonding amount, which is at least what was unstaked |
| StakingEffects.UnbondingIsHeld | programs/staking/src/lib.rs:612-682 | so from any reachable state in which a staker waits until some slot |
| StakingEffects.SettlementEffect | programs/staking/src/lib.rs:236-293 | a settlement moves the accumulator by the emission over the stake, rounded down, and the account's reward by its share of that, rounded down, and nothing else |
| StakingEffects.SettlementSucceedsExactlyWhen | programs/staking/src/lib.rs:236-293 | it fails when the scaled emission, the accumulator or the scaled pay leaves 128 bits or the reward 64, and for nothing else (if and only if) |
| StakingEffects.StakerSucceedsExactlyWhen | programs/staking/src/lib.rs:412-763 | in every reachable state: a stake, an unstake and a claim are each refused for a settlement that does not fit, the caller's own arguments, a pause, or missing funding, and for nothing else (if and only if) |
| StakingEffects.FirstStakeSucceedsExactlyWhen | programs/staking/src/lib.rs:412-526 | the same for a first stake; without an account nothing can be unstaked or claimed |
| StakingEffects.StakeEffect | programs/staking/src/lib.rs:412-526 | what a stake does: the amount enters stake and vault, earlier rewards are settled first, a new account has earned nothing |
| StakingEffects.UnstakeEffect | programs/staking/src/lib.rs:575-606 | what an unstake does: the amount moves from staked to unbonding, its wait starts now, nothing leaves the vault |
| StakingEffects.WithdrawalEffect | programs/staking/src/lib.rs:655-682 | a withdrawal pays the whole unbonding amount out of the vault and touches no reward |
| StakingEffects.ClaimEffect | programs/staking/src/lib.rs:717-763 | a claim pays the settled reward out of the funding and leaves the stake |
| StakingEffects.FundEffect | programs/staking/src/lib.rs:769-831 | funding succeeds for a positive amount that is there and fits (if and only if), and goes to the rewards alone |
| StakingEffects.PauseEffect | programs/staking/src/lib.rs:440-560 | a pause stops staking and unstaking and changes nothing about any other instruction |
| StakingEffects.StakingRefusalsAreTrue | programs/staking/src/lib.rs:412-831 | an error a refused instruction reports names a cause that is there |
| StakingProgram.Program.constructor | programs/staking/src/lib.rs:311-405 | the accounts of a fresh program |
| StakingProgram.Program.Refresh | programs/staking/src/lib.rs:237-293 | computes the accumulator and one settled account before anything is written back, failing exactly when the specification does |
| StakingProgram.Program.ProcessStake | programs/staking/src/lib.rs:412-526 | equals its specification function on the state before: same verdict, same new state, nothing changed on a refusal |
| StakingProgram.Program.ProcessUnstake | programs/staking/src/lib.rs:532-606 | equals its specification function; when it succeeds the amount has moved from staked to unbonding, its wait starts in this slot, and the vault is as it was |
| StakingProgram.Program.ProcessWithdrawUnstaked | programs/staking/src/lib.rs:612-682 | equals its specification function on the state before: same verdict, same new state, nothing changed on a refusal |
| StakingProgram.Program.ProcessClaimRewards | programs/staking/src/lib.rs:688-763 | equals its specification function on the state before: same verdict, same new state, nothing changed on a refusal |
| StakingProgram.Program.ProcessFundRewardPool | programs/staking/src/lib.rs:769-831 | equals its specification function on the state before: same verdict, same new state, nothing changed on a refusal |
| StakingProgram.Program.ProcessInstruction | programs/staking/src/lib.rs:45-67 | carries the invariant as the object's own: in slots that do not go back every instruction, a claim included, leaves all rewards covered by the emission, the vault equal to principal, unbonding and unclaimed funding, and every staker's rewards those of the per-slot scheme |
| StakingProgram.Program.Solvency | programs/staking/src/lib.rs:237-300 | the same for any object that satisfies its invariant |
| FeeHeap.SiftUpStep | firedancer/src/sequencer/fd_sequencer.h:30-38 | one sift-up swap moves the only violation of heap order to the parent |
| FeeHeap.SiftDownStep | firedancer/src/sequencer/fd_sequencer.h:57-76 | one sift-down swap with the dearer child moves the only violation down |
| FeeHeap.SiftDownDone | firedancer/src/sequencer/fd_sequencer.h:60-69 | where sift-down stops, heap order holds everywhere |
| FeeHeap.RootIsHighest | firedancer/src/sequencer/fd_sequencer.h:43-50 | the first entry of a heap has the highest fee in it |
| FeeHeap.DrainedIsSelected | firedancer/src/sequencer/fd_sequencer.h:117-120 | repeated removal of a dearest transaction gives a block in non-increasing fee order that leaves nothing dearer behind and loses nothing |
| FeeHeap.DescendingIsUnique | firedancer/src/sequencer/fd_sequencer.h:108-164 | a descending arrangement of given fees is unique, so ties cannot change the fees of a block |
| FeeHeap.SelectedTakesTheTopFees | firedancer/src/sequencer/fd_sequencer.h:108-164 | a selected block carries exactly the fees a full sort of the queue would put first (reference: insertion sort) |
| SequencerTile.Tile.constructor | firedancer/src/sequencer/fd_sequencer_tile.c:49-83 | an empty tile at the start of its run |
| SequencerTile.Tile.UnprivilegedInit | firedancer/src/sequencer/fd_sequencer_tile.c:38-91 | scratch space is refused if and only if it is smaller than the tile and its queue; the footprint the tile itself reports (lines 29-32) is always refused |
| SequencerTile.Tile.Push | firedancer/src/sequencer/fd_sequencer.h:21-41 | keeps heap order and adds exactly the given transaction; refused, with nothing changed, exactly when the array is full |
| SequencerTile.Tile.Pop | firedancer/src/sequencer/fd_sequencer.h:43-79 | removes exactly one transaction, of highest fee, and keeps heap order; refused exactly when empty |
| SequencerTile.Tile.SwapEntries | firedancer/src/sequencer/fd_sequencer.h:32-37 | a three-copy swap of two array entries permutes the queue |
| SequencerTile.Tile.SiftDown | firedancer/src/sequencer/fd_sequencer.h:57-76 | the sift-down loop terminates and restores heap order on a permutation |
| SequencerTile.Tile.BuildBlock | firedancer/src/sequencer/fd_sequencer.h:108-164 | pops min(limit, queued) transactions in drain order and adds their fees to the total, modulo 2^64; the limit is truncated to 32 bits first |
| SequencerTile.Tile.AccumulateFees | firedancer/src/sequencer/fd_sequencer.h:158-162 | the fee loop adds the sum of the block's fees, modulo 2^64 |
| SequencerTile.Tile.BuildClamped | firedancer/src/sequencer/fd_sequencer_tile.c:206-218 | a block of at most the configured size, clamped to the stack buffer, takes the dearest transactions |
| SequencerTile.Tile.AdvanceSlot | firedancer/src/sequencer/fd_sequencer.h:170-184 | slot and block count advance together; a new epoch is reported exactly when the epoch changed |
| SequencerTile.Tile.DuringFrag | firedancer/src/sequencer/fd_sequencer_tile.c:102-126 | stages a fragment, or clears the stage for an oversized one; the run stays where it is |
| SequencerTile.Tile.AfterFrag | firedancer/src/sequencer/fd_sequencer_tile.c:131-185 | the entry queued carries the staged fragment whole, the priority as its fee if that is positive and 5000 otherwise, and bytes 1 to 64 as its signature; with the queue full or nothing staged the queue stays as it was |
| SequencerTile.Tile.Enqueue | firedancer/src/sequencer/fd_sequencer_tile.c:176-183 | an entry is queued and counted, or nothing changes, as one step of a run |
| SequencerTile.Tile.DuringHousekeeping | firedancer/src/sequencer/fd_sequencer_tile.c:191-231 | extends the run by one block exactly when the block time has passed, and restarts the timer then |
| SequencerTile.Tile.ProduceBlock | firedancer/src/sequencer/fd_sequencer_tile.c:210-231 | selection, fee total and clock of one block, as one step of a run |
| SequencerTile.Tile.PopInto | firedancer/src/sequencer/fd_sequencer.h:117-120 | one turn of the drain loop into the caller's buffer |
| SequencerTile.Tile.Accounts | firedancer/src/sequencer/fd_sequencer_tile.c:131-231 | a valid tile: each transaction accepted is in its queue or in exactly one of its blocks, and its counters are those of its events |
| SequencerTile.Tile.SlotsAndEpochs | firedancer/src/sequencer/fd_sequencer.h:170-184 | a valid tile: slot = blocks produced, epoch = slot / epoch length |
| SequencerTile.Tile.BlocksTakeTheTopFees | firedancer/src/sequencer/fd_sequencer_tile.c:191-231 | every block of a valid tile is the top of a full sort of what was queued |
| SequencerRuns.EveryTransactionIsAccountedFor | firedancer/src/sequencer/fd_sequencer_tile.c:131-231 | over every run each accepted transaction is queued or in exactly one block; the counters count accepted transactions and packed fees, modulo 2^64 |
| SequencerRuns.ClockCountsBlocks | firedancer/src/sequencer/fd_sequencer.h:170-184 | over every run of at most 2^64-1 blocks: slot = blocks produced, epoch = slot / epoch length |
| SequencerRuns.EveryBlockTakesTheTopFees | firedancer/src/sequencer/fd_sequencer_tile.c:191-231 | every block of every run is the descending list of the highest fees then queued |
| Sequencer.EntryCarriesTheFragment | firedancer/src/sequencer/fd_sequencer_tile.c:146-174 | what a queue entry carries of its fragment and priority, said without computing it, is what is computed, and nothing else is |
| SequencerRuns.HigherPriorityGoesFirst | firedancer/src/sequencer/fd_sequencer_tile.c:131-231 | in every block of every run, an entry staged with the higher priority (none ranking as 5000) never stands behind one staged with a lower one, and is not left in the queue while that one is taken |
| SequencerRuns.EveryEntryWasStaged | firedancer/src/sequencer/fd_sequencer_tile.c:131-231 | whatever is queued or packed after any run carries the fragment and the priority of one arrival |
| SequencerRuns.CountersWrap | firedancer/src/sequencer/fd_sequencer.h:158-184 | slot, block, transaction and fee counters are the counts and sums of the run modulo 2^64, however long it is |
| SequencerRuns.EpochsTurnAtMultiples | firedancer/src/sequencer/fd_sequencer.h:170-184 | the epoch number rises by one at exactly the blocks whose new slot number is a positive multiple of the epoch length |
| Sequencer.BlockLimitIsClamped | firedancer/src/sequencer/fd_sequencer_tile.c:210-218 | a block has room for the smaller of the configured number and 10000 |
| FeeEngine.SplitIsExact | programs/myth-token/src/lib.rs:149-180 | a validated split fails exactly on 64-bit overflow, loses nothing, and rounds both shares down with the remainder burned |
| FeeEngine.BpsOf | programs/myth-token/src/lib.rs:1345-1375 | a burn in basis points never exceeds the amount it is taken from |
| FeeEngine.BurnRoundsDown | programs/myth-token/src/lib.rs:1349-1353 | and it is the basis points of that amount rounded down |
| FeeEngine.UpdateDecidesNamedTypes | programs/myth-token/src/lib.rs:212-222 | an update of the splits decides the split of every fee type it names and of no other, and what it sets is valid; registrations are always burned whole |
| FeeEngineRuns.DistributionLosesOnlyRounding | programs/myth-token/src/lib.rs:1006-1032 | for any list with positive total weight: distributed <= collected, and what is lost is less than one unit per positive-weight entry |
| FeeEngineRuns.RewardRounds | programs/myth-token/src/lib.rs:1012-1016 | one reward is its exact share of the pot rounded down, nothing for a zero weight |
| FeeEngineRuns.RewardIsMonotone | programs/myth-token/src/lib.rs:1010-1020 | a larger weight never gets a smaller reward |
| FeeEngineRuns.FirstPassAdds | programs/myth-token/src/lib.rs:976-1001 | the first loop's total is the sum of the weights it returns |
| FeeEngineRuns.FirstPassWeighs | programs/myth-token/src/lib.rs:976-1001 | each weight is the stake times the multiplier of an active validator, zero for an inactive one |
| FeeEngineRuns.SecondPassPays | programs/myth-token/src/lib.rs:1006-1032 | pending rewards rise by exactly what is distributed, each validator by the sum of the shares of its entries, repeats included, and nothing else about it changes |
| FeeEngineRuns.OnePays | programs/myth-token/src/lib.rs:1006-1032 | one turn of the second loop credits one validator and nothing else |
| FeeEngineRuns.DistributionIsForTheCurrentEpoch | programs/myth-token/src/lib.rs:929-1050 | the distribution can only finalize the current epoch's pool, although no branch compares the two |
| FeeEngineRuns.DistributionPaysThePot | programs/myth-token/src/lib.rs:929-1050 | both passes together: who is paid what, and how little of the pot is left |
| FeeEngineRuns.CreditKeepsGood | programs/myth-token/src/lib.rs:804-912 | entering a split fee raises pool, foundation and burn counter by their own parts and keeps epochs, ledger and valid splits |
| FeeEngineRuns.DistributeKeepsGood | programs/myth-token/src/lib.rs:929-1050 | so does a distribution |
| FeeEngineRuns.PerformKeepsGood | programs/myth-token/src/lib.rs:555-1759 | so does every instruction |
| FeeEngineRuns.EveryFeeIsAccountedFor | programs/myth-token/src/lib.rs:555-1759 | after any run: a pool per past epoch, finalized exactly then; distributed = pending + claimed, retired validators included, and at most what was collected; burned = per-type + foundation + administrative burns; every fee paid in is in a pool, with the foundation, or burned |
| FeeEngineRuns.CollectNeverMeetsAFinalizedPool | programs/myth-token/src/lib.rs:804-836 | the FeePoolAlreadyFinalized branch of fee collection is unreachable |
| FeeEngineRuns.ProposalIsExecutableExactlyWhen | programs/myth-token/src/lib.rs:285-302 | a proposed update is ever executed if and only if it names all splits and the wallet: otherwise its value does not fill its account and cannot be read back |
| FeeEngineRuns.StuckProposalBlocksAll | programs/myth-token/src/lib.rs:1507-1665 | an unreadable proposal, partial or emptied and left behind, stays through every run, and nothing is proposed or executed any more |
| FeeEngineEffects.CollectSucceedsExactlyWhen | programs/myth-token/src/lib.rs:766-923 | a fee is refused for a pause, a finalized pool, missing funds, parts beyond the whole or a width, and for nothing else (if and only if) |
| FeeEngineEffects.CollectEffect | programs/myth-token/src/lib.rs:792-911 | of every fee collected the validators' basis points, rounded down, enter the epoch's pool, the foundation's its account, and the rest is burned under the fee's own type; every other pool, counter, validator and proposal stays |
| FeeEngineEffects.DistributeSucceedsExactlyWhen | programs/myth-token/src/lib.rs:929-1050 | the crank succeeds on the current epoch's pool alone, with accounts that all exist and weights that add up to a positive 64-bit number, while the totals fit, and always then (if and only if) |
| FeeEngineEffects.FirstPassSucceedsExactlyWhen | programs/myth-token/src/lib.rs:976-998 | the first pass computes stake times multiplier of each account, nothing for inactive ones, and succeeds exactly if they add up within 64 bits |
| FeeEngineEffects.SecondPassFits | programs/myth-token/src/lib.rs:1004-1036 | the second pass cannot overflow while what is pending and what is distributed fit together |
| FeeEngineEffects.DistributionEffect | programs/myth-token/src/lib.rs:929-1050 | a distribution finalizes its pool, counts what it paid and opens the next epoch, and changes no split, counter or proposal |
| FeeEngineEffects.RegistrationEffect | programs/myth-token/src/lib.rs:555-625 | a validator registers once, active, with its stake, a multiplier of 200 or 100 and nothing pending |
| FeeEngineEffects.UpdateEffect | programs/myth-token/src/lib.rs:631-674 | an update of an active validator sets what it names and keeps what that has earned |
| FeeEngineEffects.ClaimEffect | programs/myth-token/src/lib.rs:1058-1135 | when a claim succeeds (if and only if); it pays all that is pending, which is then nothing, so that the next one is refused |
| FeeEngineEffects.DeregistrationEffect | programs/myth-token/src/lib.rs:680-760 | when an active validator can leave (if and only if); it is paid what is pending, and its account is gone or inactive |
| FeeEngineEffects.FoundationBurnEffect | programs/myth-token/src/lib.rs:1314-1403 | when a foundation burn succeeds (if and only if), and that it moves its basis points, rounded down, from collected to burned |
| FeeEngineEffects.TokenBurnEffect | programs/myth-token/src/lib.rs:1681-1759 | when an administrative burn succeeds (if and only if), and that it is counted and nothing else |
| FeeEngineEffects.ConfigUpdateEffect | programs/myth-token/src/lib.rs:1141-1190 | a configuration update succeeds exactly if every split it names shares out 10000 basis points; the named ones are set, the others and all else stay |
| FeeEngineEffects.ProposalEffect | programs/myth-token/src/lib.rs:1459-1564 | when an update can be proposed (if and only if), that it waits 216000 slots and changes no split until then |
| FeeEngineEffects.ExecutionEffect | programs/myth-token/src/lib.rs:1570-1675 | when it can be executed (if and only if), and that it sets exactly the splits proposed and clears the proposal |
| FeeEngineEffects.InitialEffect | programs/myth-token/src/lib.rs:472-549 | an engine starts with splits that share out 10000 basis points (if and only if) and empty books |
| FeeEngineEffects.FeeRefusalsAreTrue | programs/myth-token/src/lib.rs:555-1759 | an error a refused instruction reports names a cause that is there |
| FeeProgram.Program.constructor | programs/myth-token/src/lib.rs:472-549 | the accounts of a fresh engine |
| FeeProgram.Program.ProcessCollectFee | programs/myth-token/src/lib.rs:766-923 | equals its specification function; of a fee collected the validators' basis points, rounded down, are in the epoch's pool, the foundation's in its account, and the rest is burned under the fee's type |
| FeeProgram.Program.RecordParts | programs/myth-token/src/lib.rs:862-912 | each part of a split fee is entered where it belongs: pool, foundation, and the burn counter of its type; or the overflow error, with nothing changed |
| FeeProgram.Program.ComputeWeights | programs/myth-token/src/lib.rs:976-1001 | the first loop computes the weights of the specification, or its error |
| FeeProgram.Program.PayShares | programs/myth-token/src/lib.rs:1006-1032 | the second loop computes the payouts of the specification, or its error |
| FeeProgram.Program.ProcessDistributeEpochRewards | programs/myth-token/src/lib.rs:929-1050 | equals its specification function on the state before: same verdict, same new state, nothing changed on a refusal |
| FeeProgram.Program.ProcessClaimRewards | programs/myth-token/src/lib.rs:1058-1135 | equals its specification function on the state before: same verdict, same new state, nothing changed on a refusal |
| FeeProgram.Program.ProcessDeregisterValidator | programs/myth-token/src/lib.rs:680-760 | equals its specification function on the state before: same verdict, same new state, nothing changed on a refusal |
| FeeProgram.Program.ProcessRegisterValidator | programs/myth-token/src/lib.rs:555-625 | equals its specification function on the state before: same verdict, same new state, nothing changed on a refusal |
| FeeProgram.Program.ProcessUpdateValidator | programs/myth-token/src/lib.rs:631-674 | equals its specification function on the state before: same verdict, same new state, nothing changed on a refusal |
| FeeProgram.Program.ProcessUpdateFeeConfig | programs/myth-token/src/lib.rs:1141-1190 | equals its specification function on the state before: same verdict, same new state, nothing changed on a refusal |
| FeeProgram.Program.ProcessProposeFeeUpdate | programs/myth-token/src/lib.rs:1459-1564 | equals its specification function on the state before: same verdict, same new state, nothing changed on a refusal |
| FeeProgram.Program.ProcessExecuteFeeUpdate | programs/myth-token/src/lib.rs:1570-1675 | equals its specification function on the state before: same verdict, same new state, nothing changed on a refusal; the emptied account may be deleted or stay behind |
| FeeProgram.Program.ProcessBurnFoundationFees | programs/myth-token/src/lib.rs:1314-1403 | equals its specification function on the state before: same verdict, same new state, nothing changed on a refusal |
| FeeProgram.Program.ProcessBurnTokens | programs/myth-token/src/lib.rs:1681-1759 | equals its specification function on the state before: same verdict, same new state, nothing changed on a refusal |
| FeeProgram.Program.ProcessInstruction | programs/myth-token/src/lib.rs:45-75 | carries the invariant as the object's own: after every instruction distributed = pending + claimed + retired and every fee paid in is in a pool, with the foundation or burned |
| RateLimiter.VolumeSinceReset | programs/bridge-l2/src/lib.rs:452-465 | after a reset, the rest of the window and one limit for each further window bound the volume |
| RateLimiter.SlidingWindowBound | programs/bridge-l2/src/lib.rs:452-465 | in any run with a constant limit, any interval from a to b moves at most limit * (2 + (b-a)/216001) |
| RateLimiter.VolumeOverWindows | programs/bridge-l2/src/lib.rs:452-465 | any interval of at most n*216001-1 slots moves at most n+1 limits, a day at most two |
| RateLimiter.TwoLimitsCanMeet | programs/bridge-l2/src/lib.rs:452-465 | the bound is tight: two full limits fit in two neighbouring slots |
| RateLimiter.AdmitsExactlyWhen | programs/bridge/src/lib.rs:444-454 | a transfer is admitted exactly while it and what the window carries stay within the limit, and is then counted in it |
| BridgeL1.Program.constructor | programs/bridge/src/lib.rs:309-380 | the configuration of a fresh vault program, with balanced books |
| BridgeL1.BondCoversTheClaim | programs/bridge/src/lib.rs:773-787 | a challenge bond is the larger of a tenth of the claim and the minimum, and can be computed exactly when a thousand times the claim fits 64 bits |
| BridgeL1.LoggingKeepsGood | programs/bridge/src/lib.rs:485-487 | one more logged deposit keeps the L1 books: nonce, paid withdrawals, and a MYTH vault of deposits less payouts plus gifts |
| BridgeL1.DepositKeepsGood | programs/bridge/src/lib.rs:392-496 | a token deposit keeps them |
| BridgeL1.DepositSolKeepsGood | programs/bridge/src/lib.rs:505-589 | a SOL deposit keeps them |
| BridgeL1.InitiateKeepsGood | programs/bridge/src/lib.rs:600-698 | opening a withdrawal keeps the ledger of the bridge, and its deadline is one challenge period after the request |
| BridgeL1.ChallengeKeepsGood | programs/bridge/src/lib.rs:713-839 | a challenge keeps them |
| BridgeL1.FinalizeKeepsGood | programs/bridge/src/lib.rs:852-981 | a payout moves exactly its amount from the vault to the paid withdrawals |
| BridgeL1.FinalizeSolKeepsGood | programs/bridge/src/lib.rs:994-1090 | a SOL payout keeps them |
| BridgeL1.Program.CountVolume | programs/bridge/src/lib.rs:427-454 | the limits of both deposit handlers, checked on a copy of the counter |
| BridgeL1.Program.ProcessDeposit | programs/bridge/src/lib.rs:392-496 | equals its specification function on the state before: same verdict, same new state, nothing changed on a refusal; requires and ensures balanced books |
| BridgeL1.Program.TakeTokens | programs/bridge/src/lib.rs:392-496 | limits, transfer, nonce and log of one deposit, in order |
| BridgeL1.Program.ProcessDepositSol | programs/bridge/src/lib.rs:505-589 | equals its specification function on the state before: same verdict, same new state, nothing changed on a refusal; requires and ensures balanced books |
| BridgeL1.Program.TakeSol | programs/bridge/src/lib.rs:505-589 | the same for SOL |
| BridgeL1.Program.ProcessInitiateWithdrawal | programs/bridge/src/lib.rs:600-698 | equals its specification function, keeps the books balanced, and sets a deadline one challenge period from now |
| BridgeL1.Program.ProcessChallengeWithdrawal | programs/bridge/src/lib.rs:713-839 | equals its specification function on the state before: same verdict, same new state, nothing changed on a refusal; requires and ensures balanced books |
| BridgeL1.Program.ProcessFinalizeWithdrawal | programs/bridge/src/lib.rs:852-981 | equals its specification function on the state before: same verdict, same new state, nothing changed on a refusal; requires and ensures balanced books |
| BridgeL1.Program.ProcessFinalizeSolWithdrawal | programs/bridge/src/lib.rs:994-1090 | equals its specification function on the state before: same verdict, same new state, nothing changed on a refusal; requires and ensures balanced books |
| BridgeL1.Program.ProcessSequencerWithdrawSol | programs/bridge/src/lib.rs:1409-1475 | equals its specification function on the state before: same verdict, same new state, nothing changed on a refusal; requires and ensures balanced books |
| BridgeL1Effects.InitiationEffect | programs/bridge/src/lib.rs:600-698 | the sequencer alone opens a withdrawal, once a nonce, for the stated recipient, amount and mint, pending, its deadline one challenge period from now (if and only if) |
| BridgeL1Effects.PeriodIsKept | programs/bridge/src/lib.rs:600-1090 | after a withdrawal is requested neither payout instruction succeeds in the challenge period that follows, and a challenge with a proof and the bond succeeds at exactly the times before its end (if and only if) |
| BridgeL1Effects.ChallengeEffect | programs/bridge/src/lib.rs:713-839 | when a challenge succeeds (if and only if); it takes a bond of a tenth, at least 100000000, and stops the withdrawal |
| BridgeL1Effects.FinalizationEffect | programs/bridge/src/lib.rs:852-981 | when a payout succeeds (if and only if); it takes the amount out of the vault of the withdrawal's mint, or nothing if that is where it goes, and is final |
| BridgeL1Effects.FinalizationSolEffect | programs/bridge/src/lib.rs:994-1090 | the same for a payout in SOL, whatever the mint |
| BridgeL1Effects.DepositEffect | programs/bridge/src/lib.rs:392-496 | when a token deposit succeeds (if and only if); its own vault rises by its amount, the next nonce logs it as it was made, and the window counts it |
| BridgeL1Effects.DepositSolEffect | programs/bridge/src/lib.rs:505-589 | the same for a deposit of SOL |
| BridgeL1Effects.SequencerWithdrawalEffect | programs/bridge/src/lib.rs:1409-1475 | the sequencer alone takes an amount that is there out of the SOL vault (if and only if) |
| BridgeL1Effects.VaultEffect | programs/bridge/src/lib.rs:1304-1402 | a mint gets one vault, empty, once |
| BridgeL1Effects.InitialEffect | programs/bridge/src/lib.rs:309-380 | the limits a bridge starts with, and a challenge period of seven days unless a positive one is given |
| BridgeL1Effects.DepositRefusalsAreTrue | programs/bridge/src/lib.rs:392-496 | an error a refused deposit reports names a cause that is there |
| BridgeL1Effects.WithdrawalRefusalsAreTrue | programs/bridge/src/lib.rs:600-1090 | and so for requests, challenges and payouts |
| BridgeL2.Program.constructor | programs/bridge-l2/src/lib.rs:205-284 | the configuration of a fresh reserve program |
| BridgeL2.FundKeepsGood | programs/bridge-l2/src/lib.rs:296-354 | funding keeps the L2 books: nonce, whole units, totals, and a reserve of funding and burns less releases |
| BridgeL2.ReleaseKeepsGood | programs/bridge-l2/src/lib.rs:368-540 | a release keeps them |
| BridgeL2.BurnKeepsGood | programs/bridge-l2/src/lib.rs:552-628 | a burn keeps them |
| BridgeL2.Program.CountVolume | programs/bridge-l2/src/lib.rs:445-465 | the release limits, checked on a copy of the counter |
| BridgeL2.Program.ProcessFundReserve | programs/bridge-l2/src/lib.rs:296-354 | equals its specification function on the state before: same verdict, same new state, nothing changed on a refusal; requires and ensures balanced books |
| BridgeL2.Program.ProcessReleaseBridged | programs/bridge-l2/src/lib.rs:368-540 | equals its specification function on the state before: same verdict, same new state, nothing changed on a refusal; requires and ensures balanced books |
| BridgeL2.Program.Release | programs/bridge-l2/src/lib.rs:400-532 | digest, limits, reserve and nonce of one release, in order |
| BridgeL2.Program.ProcessBridgeToL1 | programs/bridge-l2/src/lib.rs:552-628 | equals its specification function on the state before: same verdict, same new state, nothing changed on a refusal; requires and ensures balanced books |
| BridgeL2Effects.ReleaseSucceedsExactlyWhen | programs/bridge-l2/src/lib.rs:368-540 | a release is refused for a zero amount, a pause, a caller other than the relayer, a digest of other fields, an amount outside the limits or beyond the window, a reserve that would lose its rent, a nonce answered before or a full total, and for nothing else (if and only if) |
| BridgeL2Effects.ReleaseEffect | programs/bridge-l2/src/lib.rs:467-532 | it leaves the reserve, is entered under its nonce and counted in total and window, and changes nothing else |
| BridgeL2Effects.BurnEffect | programs/bridge-l2/src/lib.rs:552-628 | when a burn succeeds (if and only if), whole L1 units being one reason; it enters the reserve and the total and is logged under the next nonce |
| BridgeL2Effects.FundingEffect | programs/bridge-l2/src/lib.rs:296-354 | when funding succeeds (if and only if), and that it raises the reserve alone |
| BridgeL2Effects.InitialEffect | programs/bridge-l2/src/lib.rs:205-284 | the limits and empty books a reserve starts with |
| BridgeL2Effects.ReleaseRefusalsAreTrue | programs/bridge-l2/src/lib.rs:368-540 | an error a refused release reports names a cause that is there |
| HexCodec.HexEncode | programs/bridge/src/lib.rs:1483-1489 | the encoding loop builds the two-digit text of every byte in order |
| HexCodec.HexToPubkey | relayer/src/main.rs:701-710 | the decoding loop computes the specification: a key, none, or the panic of a string cut inside a character |
| HexCodec.DecodedExactlyWhen | relayer/src/main.rs:701-710 | a text yields a key if and only if its 32 pairs read as that key, so at most one |
| HexCodec.PanicsExactlyWhen | relayer/src/main.rs:701-710 | reading panics if and only if a character straddles the end of a pair before which everything is a number |
| HexCodec.EncodedAt | programs/bridge-l2/src/lib.rs:837-843 | where the two digits of each byte stand in the text |
| HexCodec.RoundTrip | relayer/src/main.rs:701-710 | decoding the text the programs emit gives back every key |
| HexCodec.EncodingIsInjective | programs/bridge-l2/src/lib.rs:837-843 | different keys have different texts |
| HexCodec.ReaderIsLenient | relayer/src/main.rs:701-710 | the reader also accepts texts the writer never produces: upper case, and a plus sign for a leading zero |
| HexCodec.DigitsAreAscii | programs/bridge/src/lib.rs:1483-1489 | the digits written are the sixteen lower-case ASCII ones, those read are of either case and no other characters |
| HexCodec.PairExactlyWhen | relayer/src/main.rs:701-710 | a pair of characters is read as a byte exactly if it is two digits, or a plus sign and one, of that value |
| Relayer.RetryWithBackoff | relayer/src/main.rs:297-321 | succeeds exactly when one of the allowed attempts does, stops at the first that does, and sleeps the doubling, capped delays between failures |
| Relayer.State.PollL1Deposits | relayer/src/main.rs:443-571 | the polling loop submits exactly the requests of its specification and moves the last nonce as it says |
| Relayer.State.PollL2Burns | relayer/src/main.rs:573-697 | the same for withdrawals |
| Relayer.RequestsClimb | relayer/src/main.rs:497-563 | nothing at or below the last relayed nonce is ever requested, so never nonce 0; after a confirmed request only higher nonces are |
| Relayer.LatestRelaySetsTheNonce | relayer/src/main.rs:497-563 | the last nonce is that of the latest relayed event |
| Relayer.NewestFirstRelaysOneTransaction | relayer/src/main.rs:443-571 | from a newest-first list of transactions all events relayed by one poll are of one transaction, whatever the order inside it; those of the others fall to the filter |
| Relayer.RequestsReportEvents | relayer/src/main.rs:443-697 | every request of a poll says of one event what it said: its nonce, the key its text reads as, and its amount times 1000 (unscaled if that does not fit) or a thousandth of it rounded down; no event twice, and in the order met |
| Relayer.RequestedExactlyWhen | relayer/src/main.rs:443-697 | an event is requested exactly if the relayer was not stopped before it, its nonce is above the last relayed one and its text reads as a key |
| Relayer.StoppedExactlyWhen | relayer/src/main.rs:443-697 | a poll stops the relayer exactly if it meets an event above the last relayed nonce whose text would be cut inside a character |
| Relayer.DelaysDoubleUpToAMinute | relayer/src/main.rs:297-321 | the delays are 1, 2, 4, 8, 16 and 32 seconds, and a minute from then on |
| BridgeSystem.ForwardingReleases | relayer/src/main.rs:497-535 | all a parsed line, whoever printed it, can bring about on L2 is one release of what it asks for, to a nonce not answered before, within the limits |
| BridgeSystem.RelayDepositKeeps | relayer/src/main.rs:443-571 | acting on any deposit line keeps the books of both programs and never answers nonce 0 |
| BridgeSystem.RelayBurnKeeps | relayer/src/main.rs:573-697 | so does acting on any burn line |
| BridgeSystem.FilterMovesExactlyWhen | relayer/src/main.rs:443-697 | the relayer acts only on a nonce above the last confirmed one, which becomes the last exactly if the answer arrives; nothing but a restart moves its filters otherwise |
| BridgeSystem.SettingsArePut | programs/bridge/src/lib.rs:1153-1300 | pause and limits are put as given, on one side only; a gift reaches the MYTH vault |
| BridgeSystem.PerformKeeps | relayer/src/main.rs:385-425 | so does every step of anyone on either chain |
| BridgeSystem.RunKeeps | relayer/src/main.rs:385-425 | and every run, under a relayer that drops, delays, repeats, reorders, loses its state and acts on forged lines |
| BridgeFaith.AgreeingLineIsTheOwnLine | relayer/src/main.rs:267-281 | a line written as the program writes lines agrees with the log if and only if it is the program's own line of that nonce |
| BridgeFaith.AgreeingBurnLineIsTheOwnLine | relayer/src/main.rs:283-293 | the same for burns |
| BridgeFaith.ForwardingOpens | relayer/src/main.rs:607-668 | all a burn line can bring about on L1 is one withdrawal of what it asks for, not opened before |
| BridgeFaith.StepStaysFaithfulExactlyWhen | relayer/src/main.rs:267-293 | from a state in which releases and withdrawals answer their events, a step keeps that if and only if it is not the relayer acting on a line that asks for anything else than the program's own |
| BridgeFaith.FaithfulExactlyWhen | relayer/src/main.rs:443-697 | the same for runs: they answer their events at every moment if and only if every line acted on agreed with the log |
| BridgeFaith.EveryRelayIsFaithfulExactlyWhen | relayer/src/main.rs:443-697 | from the start of the bridge: that equivalence, and then recipients and amounts of releases and withdrawals are those of their events, never for nonce 0; the reserve is accounted for in any case |
| BridgeFaith.OwnLinesAgree | relayer/src/main.rs:267-293 | a relayer acting on the programs' own lines only meets the condition |
| BridgeBacking.ClaimsSplit | programs/bridge-l2/src/lib.rs:485-532 | of two ledgers keyed by nonce: what is owed less what is in excess, entry by entry, equals the difference of the two totals |
| BridgeBacking.VaultIdentity | programs/bridge-l2/src/lib.rs:477-619 | 1000 * vault = circulating + owed - excess + 1000 * gifts, exactly, in every reachable state and whatever the relayer acted on |
| BridgeBacking.FaithfulPayoutsAreCovered | relayer/src/main.rs:607-668 | withdrawals that answer their burns are never in excess |
| BridgeBacking.CirculationIsBackedExactlyWhen | relayer/src/main.rs:443-697 | after any run 1000 * vault covers what circulates if and only if what was given out in excess of deposits and burns does not exceed what is still owed and was given; nothing is in excess when every line acted on agreed with the log and only MYTH deposits were answered |
| BridgeBacking.ForeignLineReleasesUnbackedMyth | relayer/src/main.rs:267-281 | a concrete run in which a line nobody deposited for is answered: MYTH circulates against an empty vault |
| BridgeBacking.SolDepositReleasesUnbackedMyth | relayer/src/main.rs:267-281 | a concrete run in which the program's own line for a SOL deposit does the same |
| BridgeBacking.RunExtends | programs/bridge-l2/src/lib.rs:477-532 | over any run logs only grow, each nonce keeps its one release, paid withdrawals stay paid, and a withdrawal that left the pending state never changes again |
| BridgeBacking.ChallengedWithdrawalIsStuck | programs/bridge/src/lib.rs:713-839 | a concrete challenged withdrawal that no later run finalizes, deadline or not |
| BridgeDeadlines.NothingIsPaidBeforeItsPeriodIsOver | programs/bridge/src/lib.rs:600-1090 | in every run from the start, every withdrawal was opened by a relayed burn line, its deadline is one challenge period after that, and if it was ever paid then later in the run and by a request whose time was not before the deadline |
| BridgeDeadlines.NoRunPaysEarly | programs/bridge/src/lib.rs:600-1090 | after a burn line is relayed, no run whose payout requests for it come within the challenge period pays it |
| BridgeDeadlines.WaitGoesOn | programs/bridge/src/lib.rs:713-1090 | so for any withdrawal not yet paid: its deadline stays, and requests before it do not pay |
| BridgeDeadlines.PendingIsChallengeableUntilTheDeadline | programs/bridge/src/lib.rs:713-839 | after any run a pending withdrawal can be challenged with a proof and the bond at exactly the times less than one challenge period after its burn line was relayed (if and only if) |
| BridgeDeadlines.StepKeepsTerms | programs/bridge/src/lib.rs:600-1090 | one step of anyone opens, challenges or pays a withdrawal in these ways only, and never changes its deadline or amount |
| BridgeDeadlines.PeriodNeverChanges | programs/bridge/src/lib.rs:309-380 | the challenge period is that of the start in every run |
| BridgeCover.OwnLinesAreModest | relayer/src/main.rs:267-293 | the programs' own lines of MYTH deposits and of burns ask for no more than was taken in |
| BridgeCover.StepStaysCoveredExactlyWhen | relayer/src/main.rs:497-668 | no nonce has been given or promised more than was taken in for it; a step keeps that if and only if it is not the relayer acting on a line that asks for more |
| BridgeCover.CoveredExactlyWhen | relayer/src/main.rs:443-697 | the same for runs |
| BridgeCover.NothingInExcessExactlyWhen | relayer/src/main.rs:443-697 | from the start of the bridge: that equivalence, and then nothing is in excess and what circulates is backed, whoever is paid |
| BridgeCover.FinalizeSucceedsExactlyWhen | programs/bridge/src/lib.rs:852-981 | in a reachable state a withdrawal is paid if and only if it is pending, matured, its owner's, not paused, and within the vault |
| BridgeCover.CoveredWithdrawalsCanBePaid | programs/bridge/src/lib.rs:951-973 | while nothing is in excess and no more was burned on L2 than released there, the vault covers every pending withdrawal |
| BridgeCover.FaithfulWithdrawalFindsTheVaultShort | programs/bridge/src/lib.rs:951-973 | a concrete run in which a withdrawal that answers its burn matures and the vault cannot pay it |
| BridgeLimits.RunIsAdmitted | programs/bridge-l2/src/lib.rs:445-465 | every run of the system whose slots do not go back on one chain hands that chain's limiter an admitted sequence of transfers; the two chains' slots are independent |
| BridgeLimits.SlidingWindow | programs/bridge/src/lib.rs:435-454 | so no run under a constant limit moves more than n+1 limits through either side in any n days' slots |
| Governance.GivenIsReceived | programs/governance/src/lib.rs:1118-1125 | what a voter gives is contained in what its delegate received |
| Governance.DelegateSucceedsExactlyWhen | programs/governance/src/lib.rs:1070-1163 | a delegation is refused for exactly the reasons its arguments give; the checked subtraction never fails |
| Governance.SetKeepsGood | programs/governance/src/lib.rs:1012-1046 | setting a power keeps every delegate's received power equal to the sum given to it |
| Governance.RegivenIsGood | programs/governance/src/lib.rs:1118-1170 | so do delegating, re-delegating and undelegating |
| Governance.DelegateRegives | programs/governance/src/lib.rs:1118-1170 | a successful delegation is exactly that replacement in the ledger |
| Governance.RunIsGood | programs/governance/src/lib.rs:979-1170 | so does every run |
| Governance.DelegationConservesVotes | programs/governance/src/lib.rs:266-273 | in every reachable ledger where all effective powers can be computed they sum to the total power; with a 64-bit total they can all be computed exactly when nobody gives more than it has |
| Governance.LoweredPowerStaysDelegated | programs/governance/src/lib.rs:1038-1046 | a concrete run: lowering a power leaves its delegate voting with it |
| Governance.UndelegateRestores | programs/governance/src/lib.rs:1070-1170 | delegating and undelegating restores the ledger |
| Governance.RedelegateReplaces | programs/governance/src/lib.rs:1118-1170 | a second delegation to the same delegate has the effect of that one alone |
| Governance.EffectivePowerBalances | programs/governance/src/lib.rs:266-273 | when an effective power can be computed (if and only if), and that it and what was given make up own power and what was received |
| Governance.SetEffect | programs/governance/src/lib.rs:979-1056 | the administrator alone sets a power, and nothing but that power |
| Governance.DelegateEffect | programs/governance/src/lib.rs:1118-1180 | a delegation sets what its voter gives, its delegate receives the difference to what it gave before, and nobody else is concerned; the two together vote with as much as before |
| Governance.GovernanceRefusalsAreTrue | programs/governance/src/lib.rs:1070-1163 | an error a refused delegation reports names a cause that is there |
| Governance.Program.ProcessSetVotingPower | programs/governance/src/lib.rs:979-1056 | equals its specification function on the state before: same verdict, same new state, nothing changed on a refusal; the ledger invariant is kept |
| Governance.Program.ProcessDelegateVotingPower | programs/governance/src/lib.rs:1070-1180 | equals its specification function on the state before: same verdict, same new state, nothing changed on a refusal; the ledger invariant is kept |
| ComputeMarket.HoursComeBack | programs/compute-market/src/lib.rs:1166-1169 | the round-up of a lease's seconds gives back exactly the hours asked for |
| ComputeMarket.CostIsExact | programs/compute-market/src/lib.rs:1166-1174 | the cost is exactly accepted price times hours: the cap by the escrow never bites and the product never overflows |
| ComputeMarket.SettlementIsExact | programs/compute-market/src/lib.rs:1166-1215 | when a settlement can be computed (if and only if), and that it hands out the escrow to the last unit with the fee, its tenth and the refund as promised |
| ComputeMarket.FeeFits | programs/compute-market/src/lib.rs:1176-1184 | a protocol fee of at most 100% always fits the cost, one of at least 200% never does |
| ComputeMarketRuns.ReleaseKeepsJob | programs/compute-market/src/lib.rs:1102-1239 | a release keeps the job's accounting |
| ComputeMarketRuns.VerdictKeepsJob | programs/compute-market/src/lib.rs:1346-1562 | a verdict on a dispute, or a timeout, keeps it |
| ComputeMarketRuns.OthersUntouched | programs/compute-market/src/lib.rs:831-1760 | an instruction about one job leaves every other job alone |
| ComputeMarketRuns.RunKeepsGood | programs/compute-market/src/lib.rs:831-1760 | every run keeps the accounting of every job |
| ComputeMarketRuns.EscrowLeavesExactlyOnce | programs/compute-market/src/lib.rs:831-1562 | after any run: what was paid into a job's escrow is all there or all paid out, in at most one payout; a settled lease paid price times hours and refunded the rest, any other ending refunded all; no lease moves more than four times |
| ComputeMarketRuns.ReleaseSucceedsExactlyWhen | programs/compute-market/src/lib.rs:1102-1239 | in a reachable market the vault never falls short: a release is refused for exactly the listed reasons, the fee's width and the window among them |
| ComputeMarketRuns.ContestSucceedsExactlyWhen | programs/compute-market/src/lib.rs:1245-1340 | a dispute is refused for exactly the listed reasons; the request's own deadline never is one, being the longer of the two |
| ComputeMarketRuns.ReleaseWaitsForTheSlotNumber | programs/compute-market/src/lib.rs:1147-1152 | nobody is paid before the slot number exceeds the time stamp of the proof by the window |
| ComputeMarketRuns.SlotsLagBehindTimeStamps | programs/compute-market/src/lib.rs:1147-1152 | a concrete job proved at a present-day time stamp: unpaid and open to dispute in every slot below that number |
| ComputeMarketRuns.UnpayableFeeIsNeverReleased | programs/compute-market/src/lib.rs:1176-1184 | a taken job whose fee does not fit its cost is never released, through every run and in every slot |
| ComputeMarketRuns.FeeAboveTheCostIsNeverReleased | programs/compute-market/src/lib.rs:1176-1184 | a concrete market with a fee of 200%: its proved job is never released, whatever follows; with 100% it is |
| ComputeMarketRuns.CloseSucceedsExactlyWhen | programs/compute-market/src/lib.rs:1712-1735 | only a released job can ever be closed, by its requester |
| ComputeMarketRuns.EndedStays | programs/compute-market/src/lib.rs:831-1760 | a lease that ended stays as it ended through every run |
| ComputeMarketRuns.SlashedJobIsNeverClosed | programs/compute-market/src/lib.rs:1474-1735 | a concrete lease that timed out, whose request no later run closes |
| ComputeMarketRuns.WaitingGoesOn | programs/compute-market/src/lib.rs:831-1760 | short of an acceptance no instruction changes an open request or its escrow |
| ComputeMarketRuns.UntakenEscrowStays | programs/compute-market/src/lib.rs:944-1051 | acceptance is the only way out: over any run in which no provider takes it, a request stays open with its whole escrow |
| ComputeEffects.ResolveSucceedsExactlyWhen | programs/compute-market/src/lib.rs:1346-1468 | a verdict on an open dispute is refused for a caller other than the administrator before 648000 slots are over, and against the provider for a missing escrow or a full counter (if and only if) |
| ComputeEffects.ResolveEffect | programs/compute-market/src/lib.rs:1395-1468 | against the provider, which after 648000 slots it always is, the whole escrow goes back, the lease is over and half of the stake, rounded down, is gone; for the provider the lease is open for release again with its escrow in place |
| ComputeEffects.ReleaseEffect | programs/compute-market/src/lib.rs:1102-1239 | a release divides the escrow to the last unit: fee and foundation's tenth rounded down, the rest of the fee burned, the rest of the cost to the provider, the rest of the escrow to the requester; lease, request and provider's counters change and nothing else |
| ComputeEffects.RequestEffect | programs/compute-market/src/lib.rs:831-938 | when a request succeeds (if and only if), and that its escrow is the maximum price of all its hours |
| ComputeEffects.AcceptEffect | programs/compute-market/src/lib.rs:944-1051 | when a provider can take a job (if and only if), at its own price, for the hours asked for from now on |
| ComputeEffects.ProofEffect | programs/compute-market/src/lib.rs:1057-1096 | the lease's own provider hands in a proof of at most 1024 bytes once, and its time is noted (if and only if) |
| ComputeEffects.DisputeSucceedsExactlyWhen | programs/compute-market/src/lib.rs:1245-1340 | when a dispute succeeds in any state (if and only if): once, for the requester or the administrator, while the proof is no older than window and deadline |
| ComputeEffects.DisputeEffect | programs/compute-market/src/lib.rs:1312-1340 | a dispute stops the lease, notes its slot and changes nothing else |
| ComputeEffects.CounterEffect | programs/compute-market/src/lib.rs:1648-1700 | the provider of a disputed lease can answer exactly once (if and only if) |
| ComputeEffects.SlashEffect | programs/compute-market/src/lib.rs:1474-1562 | when a timed-out lease can be struck (if and only if), and that the escrow goes back, half of the stake is gone and the provider is out of business |
| ComputeEffects.CloseEffect | programs/compute-market/src/lib.rs:1712-1760 | when a request account can be closed (if and only if), and that nothing else of the job goes |
| ComputeEffects.ReleaseAndDisputeMeetOnce | programs/compute-market/src/lib.rs:1130-1290 | release and dispute of a lease are open together in at most the one slot that is fifty past the time stamp of the proof |
| ComputeEffects.HoursRoundUp | programs/compute-market/src/lib.rs:1169-1170 | the hours of any lease are its length rounded up; it has none exactly if it ends less than an hour before it begins |
| ComputeEffects.CostIsCapped | programs/compute-market/src/lib.rs:1168-1175 | the cost is the price of those hours or the escrow, whichever is less |
| ComputeEffects.InitialEffect | programs/compute-market/src/lib.rs:500-559 | a market opens empty, with a window of fifty slots |
| ComputeEffects.MarketRefusalsAreTrue | programs/compute-market/src/lib.rs:831-1760 | an error a refused instruction reports names a cause that is there |
| ComputeProgram.Program.constructor | programs/compute-market/src/lib.rs:500-559 | an empty market with the default window |
| ComputeProgram.Program.ProcessRequestCompute | programs/compute-market/src/lib.rs:831-938 | equals its specification function on the state before: same verdict, same new state, nothing changed on a refusal |
| ComputeProgram.Program.ProcessAcceptJob | programs/compute-market/src/lib.rs:944-1051 | equals its specification function on the state before: same verdict, same new state, nothing changed on a refusal |
| ComputeProgram.Program.ProcessSubmitProof | programs/compute-market/src/lib.rs:1057-1096 | equals its specification function on the state before: same verdict, same new state, nothing changed on a refusal |
| ComputeProgram.Program.ProcessVerifyAndRelease | programs/compute-market/src/lib.rs:1102-1239 | equals its specification function on the state before: same verdict, same new state, nothing changed on a refusal |
| ComputeProgram.Program.ProcessDisputeLease | programs/compute-market/src/lib.rs:1245-1340 | equals its specification function on the state before: same verdict, same new state, nothing changed on a refusal |
| ComputeProgram.Program.ProcessResolveDispute | programs/compute-market/src/lib.rs:1346-1468 | equals its specification function on the state before: same verdict, same new state, nothing changed on a refusal |
| ComputeProgram.Program.ProcessSlashProvider | programs/compute-market/src/lib.rs:1474-1562 | equals its specification function on the state before: same verdict, same new state, nothing changed on a refusal |
| ComputeProgram.Program.ProcessProviderCounter | programs/compute-market/src/lib.rs:1648-1700 | equals its specification function on the state before: same verdict, same new state, nothing changed on a refusal |
| ComputeProgram.Program.ProcessCloseJob | programs/compute-market/src/lib.rs:1712-1760 | equals its specification function on the state before: same verdict, same new state, nothing changed on a refusal |
| ComputeProgram.Program.ProcessInstruction | programs/compute-market/src/lib.rs:382-421 | carries the invariant as the object's own: after every instruction each escrow account holds what was paid in and not paid out, and no job was paid out twice |
| Swap.RootIsTheRoot | programs/swap/src/lib.rs:312-324 | the reference root: its square is at most n and the next square exceeds n |
| Swap.RootOfProduct | programs/swap/src/lib.rs:857-863 | the root of a product lies between its factors, so the conversion to 64 bits never fails |
| SwapProgram.NewtonStays | programs/swap/src/lib.rs:318-322 | one Newton step never falls below the root |
| SwapProgram.NewtonStops | programs/swap/src/lib.rs:318-323 | a guess that no longer falls is not above it |
| SwapProgram.Isqrt | programs/swap/src/lib.rs:313-324 | the Newton loop terminates with the integer square root |
| SwapRuns.FormulaKeepsProduct | programs/swap/src/lib.rs:1520-1541 | the price formula pays less than the reserve and keeps the product before fees |
| SwapRuns.ExchangeKeepsProduct | programs/swap/src/lib.rs:1497-1672 | InvariantViolated and InsufficientFunds never fire: a swap never lowers the product and never empties a reserve |
| SwapShares.ExchangeSucceedsExactlyWhen | programs/swap/src/lib.rs:1497-1702 | a swap succeeds if and only if it pays something, the caller's limit and funds allow it, and vault and accumulator fit their widths |
| SwapRuns.TradingKeepsGood | programs/swap/src/lib.rs:1439-1734 | a swap adds its fee to the books of the input token, split into the accumulator and the remainder of the division |
| SwapRuns.PayoutKeepsGood | programs/swap/src/lib.rs:1797-1876 | paying a position's fees moves them from owed to harvested |
| SwapRuns.DepositKeepsGood | programs/swap/src/lib.rs:1121-1226 | a deposit creates no claim on earlier fees |
| SwapRuns.RemovalKeepsGood | programs/swap/src/lib.rs:1308-1403 | removing liquidity gives up the fees pending on it |
| SwapRuns.AddIsPayoutAndDeposit | programs/swap/src/lib.rs:1121-1226 | adding to a position is paying its fees and then depositing |
| SwapRuns.RunKeepsGood | programs/swap/src/lib.rs:944-2242 | every run keeps vaults, liquidity tokens and fees accounted for |
| SwapShares.EveryShareAndFee | programs/swap/src/lib.rs:944-1886 | after any run of an open pool: vaults = reserves + gifts; liquidity tokens = the positions' plus the creator's, which can never be removed; every fee was harvested, is owed, is recorded for the creator's liquidity, was given up or lost to rounding; no more is harvested than was earned |
| SwapShares.SwapsNeverLowerTheProduct | programs/swap/src/lib.rs:1657-1672 | over any run of swaps the product of the reserves never falls |
| SwapShares.TradersNeverGain | programs/swap/src/lib.rs:1439-1734 | so traders together cannot take from one reserve without putting into the other: no round trip gains |
| SwapShares.ClaimsFallExactlyWhen | programs/swap/src/lib.rs:944-1886 | a liquidity token's claim on a reserve falls, swaps apart, if and only if fees are paid out of it beyond a deposit's remainder, or the proportional part of a deposit is rounded; never by a withdrawal |
| SwapShares.WorthNeverFallsWithoutPayouts | programs/swap/src/lib.rs:1253-1734 | over any run of swaps and withdrawals the product of the reserves over the square of the supply never falls |
| SwapShares.OnlyPayoutsEmptyAReserve | programs/swap/src/lib.rs:944-1886 | a reserve is emptied only by a payout of fees as high as the whole of it |
| SwapShares.DepositComesBack | programs/swap/src/lib.rs:1018-1401 | liquidity added and removed at once returns no more of the token deposited whole and exactly what was deposited of the other |
| SwapShares.OwnLiquidityComesOut | programs/swap/src/lib.rs:1253-1414 | a holder can always remove its position's liquidity, at its rounded-down portion of the reserves |
| SwapShares.HarvestSucceedsExactlyWhen | programs/swap/src/lib.rs:1751-1868 | a harvest succeeds if and only if something is owed, it fits its widths, and neither reserve has fallen below it |
| SwapShares.FeesCanOutgrowTheReserve | programs/swap/src/lib.rs:1751-1868 | a concrete run of one deposit and two swaps after which a position is owed 99 000 000 of a token whose reserve is 1 235: it can neither harvest nor add |
| SwapEffects.SwapSucceedsExactlyWhen | programs/swap/src/lib.rs:1439-1734 | on an open pool a swap is refused for a zero or missing input, a pause, an empty reserve, an output that is nothing or less than asked for, or a counter's width, and for nothing else (if and only if) |
| SwapEffects.SwapEffect | programs/swap/src/lib.rs:1497-1734 | the output is the most that keeps the product of the reserves given the input less both fees, each its basis points rounded down; the protocol's fee leaves, the providers' stays and is credited to each liquidity token; all counters move by those amounts and nothing else changes |
| SwapEffects.AddSucceedsExactlyWhen | programs/swap/src/lib.rs:944-1236 | when a deposit succeeds (if and only if): the most liquidity both offers afford is something and enough, the amounts it takes are there and fit, and the fees due to the position can be paid |
| SwapEffects.AddEffect | programs/swap/src/lib.rs:1020-1236 | a deposit takes the scarcer offer whole and the other in proportion, pays the fees due first, and gives the position and the supply the liquidity |
| SwapEffects.RemoveSucceedsExactlyWhen | programs/swap/src/lib.rs:1253-1414 | when liquidity can be removed (if and only if): by a holder of the tokens, from its own position, for at least what it asks |
| SwapEffects.RemoveEffect | programs/swap/src/lib.rs:1300-1414 | it takes out its portion of each reserve, rounded down, and leaves the checkpoints of the position |
| SwapEffects.HarvestEffect | programs/swap/src/lib.rs:1751-1886 | when a harvest succeeds (if and only if); it pays what is due to the last whole unit, after which nothing is due and the next one is refused |
| SwapEffects.CreationEffect | programs/swap/src/lib.rs:603-926 | when a pool can be created (if and only if), with the integer root of the product as its liquidity |
| SwapEffects.ConfigurationEffect | programs/swap/src/lib.rs:1996-2065 | rates change exactly to ones that together stay within a tenth, each checked against the other as it then stands |
| SwapEffects.ClosingEffect | programs/swap/src/lib.rs:2159-2242 | a closed pool is empty, and none of its instructions works any more |
| SwapEffects.SwapRefusalsAreTrue | programs/swap/src/lib.rs:944-2065 | an error a refused instruction reports names a cause that is there |
| SwapProgram.Program.constructor | programs/swap/src/lib.rs:887-907 | a created pool, with its books opened |
| SwapProgram.Program.ProcessCreatePool | programs/swap/src/lib.rs:603-926 | creates the pool of the specification, its liquidity computed by the loop, or gives its error, which is never Overflow |
| SwapProgram.Program.ProcessAddLiquidity | programs/swap/src/lib.rs:944-1236 | equals its specification function on the state before: same verdict, same new state, nothing changed on a refusal |
| SwapProgram.Program.ProcessRemoveLiquidity | programs/swap/src/lib.rs:1253-1414 | equals its specification function on the state before: same verdict, same new state, nothing changed on a refusal |
| SwapProgram.Program.ProcessSwap | programs/swap/src/lib.rs:1439-1734 | equals its specification function on the state before: same verdict, same new state, nothing changed on a refusal |
| SwapProgram.Program.Quote | programs/swap/src/lib.rs:1497-1702 | the price, its guards in order, and both tokens afterwards |
| SwapProgram.Program.ProcessHarvestFees | programs/swap/src/lib.rs:1751-1886 | equals its specification function on the state before: same verdict, same new state, nothing changed on a refusal |
| SwapProgram.Program.ProcessUpdateConfig | programs/swap/src/lib.rs:1996-2065 | equals its specification function on the state before: same verdict, same new state, nothing changed on a refusal |
| SwapProgram.Program.ProcessInstruction | programs/swap/src/lib.rs:59-82 | carries the invariant as the object's own: vaults, liquidity tokens and fees are accounted for after every instruction, and neither guard behind the swap formula ever fires |

## Left out

- Address derivation, signer, writable and owner checks, rent, account sizes and the plumbing of cross-program calls; where a handler does not check that accounts belong together (request, lease, dispute and provider of a compute job) the model takes them as linked.
- Accounts that receive and are not checked: for a launch they are arguments (`ownVault`, `from`, the flags `...IntoVault`), for a bridge payout and the burned part of a compute release (`burn_info`) too. In a swap pool the protocol's `protocol_fee_vault` and the receivers of payouts can be the pool's own vault; that is the modelled instruction followed by a `Gift` of the same amount.
- Borsh encoding, but for one consequence: an account whose value does not fill its space is not read back. The model says so for proposed fee updates; provider accounts of the compute market, whose GPU name may be shorter than its space (programs/compute-market/src/lib.rs:127-156), are taken as readable.
- The runtime's rule that a program may debit only accounts it owns is not part of this model; handlers that move lamports directly are taken to succeed when the balance suffices.
- Launchpad: token metadata, the optional fee-collection call, older account layouts, and changes of the fee within its ten-percent cap other than as a parameter of each instruction. MYTH is the token whose vault was named at creation, which the program does not check.
- Sequencer: SHA-256, ed25519, block headers, parent hashes, publishing and metrics; the epoch length is taken to be positive, as the code divides by it.
- Fee engine: the link between the pool account and the token vault that pays claims (vault balances are parameters), and the statistics instructions. A fee configuration update bypasses the time lock in the code and does so here.
- FeeEngineRuns.EveryFeeIsAccountedFor: speaks of amounts entered in the accounts, not of the balance of the reward vault, which no account of the program records.
- Bridge: pause and limit changes are steps without their administrator checks; key changes are left out, so both programs keep the key they start with. SHA-256 is taken to have no collisions.
- Bridge: the relayer's release payload lacks the digest field its L2 program reads (relayer/src/main.rs:190-197 beside programs/bridge-l2/src/lib.rs:147-149), and its withdrawal request marks as read-only an account the L1 program wants writable, so as coded both requests are refused. The model supplies the digest and lets them through: its results are about the protocol with that mismatch repaired, and none of them rests on it.
- Relayer: RPC errors and the signature cursor, which only shorten the list of lines a poll sees; a restart may load any saved nonces. JSON syntax is not part of this model: a line is any nonce, text and amount.
- Bridge: liveness is not claimed.
- Governance: proposals, votes, snapshots, the treasury and time stamps.
- Compute market: provider registration, price changes and deactivation are one unconstrained step; stake withdrawal is left out.
- ComputeMarketRuns.EscrowLeavesExactlyOnce: says nothing of a provider's count of active leases, which a dispute found frivolous decrements although the lease goes on.
- Swap pools: one pool beside a configuration account that other pools' swaps change too; the sorted mints, the creation fee, the pool counter, the protocol's own fee vault and the best-effort fee-collection call. The `is_paused` flag of a pool is never set by the program. The swaps' administrator checks are left out as for the bridge.
- SwapProgram.Isqrt: requires an argument below 2^128 - 1, for which the first guess plus one does not overflow; the program passes products of two 64-bit numbers only.
- programs/settlement, programs/airdrop, programs/myth-names, programs/ai-precompiles, sdk, services and website would only add easy members.
