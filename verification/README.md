# SecureScore: a verified model of its federated HQ and its core bank

SecureScore couples a federated-learning headquarters (Python) with a small core bank (Go). This project models the
parts of both that decide something: how branch models are averaged, gated, promoted and rolled back; how the two
hash-linked logs are written and checked; how money moves, is replayed from the transaction log and is projected into
the general ledger; how approvals enforce four eyes; and the arithmetic kernels around them. `dafny verify
dfyconfig.toml` checks everything.

Code that updates state step by step is an imperative method or a class here, proved against a function of the old
state; what the system promises is then proved about that function, for all inputs or over all runs.

| area | files |
|---|---|
| federated averaging | `WeightedSums`, `ModelTree` (trees as values), `FedAvg` (the in-place recursion on heap nodes) |
| Byzantine gate and outlier filter | `Dispersion` (Samuelson, Chebyshev), `ByzantineGate`, `OutlierFilter` |
| rounds, registry, rollback | `Registry` |
| SCAFFOLD optimiser | `Scaffold` |
| gradient compression | `Compression` |
| credit decision | `CreditScore` |
| hash-linked logs | `HashText`, `AuditChain`, `Merkle`, `Blockchain` |
| core bank | `Ledger` (steps as functions), `BankHandlers` (the handlers), `BankMeaning` (what requests mean to customers), `LedgerProofs` (what runs keep), `Cheques` |
| general ledger | `GeneralLedger`, `GlAgreement`, `GlAccounts`, `BalanceSheets` |
| approvals | `Approvals` |
| hash and generator of the edge node | `EdgeHash` |
| amortisation | `Amortisation` |
| cheque amounts in words | `AmountWords` |
| shared definitions | `RealArithmetic`, `Rounding`, `PowersOfTwo`, `Options`, `Dictionaries` |

## Conventions

- Money is whole paisa; other floating-point numbers are reals, with every rounding the code performs written out.
- One handler call is one step. Table rows are named by their position, which stands for `rowid`.
- SHA-256 (section 6.2 of FIPS 180-4) is a parameter `H`. No hash is free of collisions on all texts, so the binding
  theorems assume only that `H` does not collide on the finitely many texts that the two logs in question hashed
  (`InjectiveOn`), and for the blockchain also that none of them hashes to the 64 zeros that stand for "no block" and
  "no transaction" (`BindsTexts`).
- A square-root routine is a parameter with the specification `root(x) >= 0` and `root(x) * root(x) == x`.
- A gradient and a tree's routing of inputs are function parameters, so the theorems hold for all of them. So is the
  floating-point rounding in the number of coordinates that compression keeps: it keeps order and leaves 1 and the
  number of coordinates as they are (`Rounds`).

## Where the code and its promises part

Each of these is a lemma below; where the property holds under a condition, the exact condition is proved.

- `go_bff/chain.go:12-16` says that verification catches a tampered transaction. The verification loop reads headers
  only: whatever is written over the transactions table, it answers as before (`Ledger.VerifyRewritten`). A check that
  recomputed the roots would pass exactly when every batch still pads to the recorded content, which is id, type and
  amount (`RecomputedRootsIff`); as ids are a primary key that means unchanged content, and the tip hash then binds id,
  type and amount of every transaction (`TipHashBindsTransactions`). The other columns, the accounts, the fee and the
  description among them, are in no leaf: whatever is written into them passes even that check (`ColumnsAreUnbound`).
- Duplicating odd nodes makes different leaf lists share a root. They do exactly when they pad to the same leaves
  (`RootsEqualIff`); `RepeatedTail` gives a family, of which a list and the list with its odd last leaf repeated is the
  smallest. `tx_count` and `difficulty` are not part of the hashed header.
- `hq_server.py:375-379` says that the chain breaks if any entry is modified. `seq` and `details_summary` are written with
  an entry but not hashed, so changing them never breaks it (`RelabelledEntryVerifies`). The last hash binds the other
  fields of all entries exactly when none that a caller wrote contains `|` (`TamperEvidentIff`); otherwise a bar can be
  moved into the neighbouring field. Branch names reach the log unchecked, from failed registrations even
  (`hq_server.py:1201-1204`).
- The maturity pass of an end-of-day run reads balances around its open transaction. If the query sees current balances
  the balances stay a cache of the log (`CurrentReadingFaithful`); if it sees the committed ones from before the pass
  they do exactly when no run meets two due deposits that pay into one account (`CacheFaithfulIff`), and so do the
  recorded balances (`RunStamps`). `TwoDueUnfaithful` is a run in which they do not.
- Neither reading is reached as deployed: `go_bff/main.go:736` allows one connection, the rows of a pass hold it, and the
  handler asks for a second one for its transaction and in the maturity pass for a third. It finishes exactly with three
  connections, or with two and no deposit due (`Core.RunEod`).
- An early deposit break is logged under the opening type and so booked the wrong way round: account 2000 equals the
  customer balances exactly when every attempt to break a deposit was refused (`DepositsAccountAgrees`, for runs whose
  maturities do not collide and with no money on inactive accounts at the snapshot; `DepositsAccount` gives the exact
  difference otherwise, `OneBreakDisagrees` a run with one break). Account 2100 in turn is the principals of the active
  deposits, plus twice the principal less the penalty for every early break, less the interest of every deposit that has
  matured, which is taken from the other principals instead of being booked as expense (`FixedDepositsAccount`).
- `math_round` cuts off towards zero, which adds one paisa to a negative amount. Over all runs the books balance, and yet
  the balance sheet is reported as balanced exactly when the fees earned cover the interest paid and assets and
  liabilities are both negative or both not, or the loss is one paisa and liabilities are zero (`ReportedBalanced`). With
  assets and liabilities not negative it differs by two paisa for every loss of two paisa or more
  (`LossIsReportedUnbalanced`; one day of interest without a fee is enough, `OneDayUnbalanced`); a loss of one makes it
  differ by one, which is where the source's test against 0.01 on floating-point numbers can fall on either side.
- The F1 gate compares nothing when a served model has no non-zero F1. The bound "k promotions lower the mean F1 by at
  most k times delta" is guaranteed over all runs exactly when all models in between are scored, or k times delta covers
  the whole range of scores (`DeclineBoundedIffScored`).
- Without a restart the versions are 1 to the current round and none is ever overwritten (`VersionsWithoutRestart`,
  `NeverOverwritten`). A restarted HQ numbers versions from 1 again: its first k promotions overwrite exactly the stored
  versions up to k (`RestartOverwrites`).
- With the default sigma 2.0 and up to five baselines the statistical Byzantine threshold never decides anything beyond
  the hard floor (`DefaultGateIsHardFloor`); `StatisticsRejectIff` says exactly for how many baselines it can, and
  `DefaultGateRejects` is a run of the gate in which it does.
- Rounds publish the largest branch's trees as they are, whatever the others send, exactly when the recursion reaches no
  leaf entry in them (`TemplateStaysIff`).
- A gradient array without axes is lost in the compression round trip (`RoundTrip`).
- At branches with a positive regional factor a higher income never raises the default probability of the whole decision
  exactly when the loan is not negative or the income stays under the floor of the loan-to-income ratio
  (`IncomeHelpsDecisionIff`, `IncomeHelpsIff` for the term; `HigherIncomeRaisesProbability` is an example). A better grade
  can lower the maximum loan when the income is negative (`MaxLoanOrderIff`), and a lower probability can cost products
  (`ProductsKeptIff`).
- A cheque number is searched for with LIKE, so a number that an earlier one begins with is refused as well
  (`ChequeOnlyOnce`). For numbers of digits and banks without the letter q, a deposit is refused as deposited before
  exactly when a cheque accepted before it has a number that begins with its own (`ChequeRefusedIff`). In general it is
  also refused when "cheque" and the number occur in what follows (`NumberFindsIff`): a bank named "cheque 77" takes the
  number 77 (`BankNamedLikeCheque`).
- Amounts in words are read back exactly below ten thousand million (`AmountRoundTripIff`); from there on a scale word
  multiplies only the group in front of it. "zero" before a scale word counts as one (`BlocksParseIff`).

## Model

| member | source | states |
|---|---|---|
| ModelTree.AveragedKeepsShape | hq_server.py:824-847 | The averaged tree has the splits and the leaf positions of the template, whatever shape the inputs have. |
| ModelTree.AveragedScore | hq_server.py:824-847 | On every route of an input through the tree, the averaged tree scores the weighted average of the scores of the template overlaid with each branch's leaves. |
| ModelTree.OverlaySameShape | hq_server.py:831-845 | Overlaying a tree of the same shape on the template scores exactly as that tree, so the missing-node fallback is invisible when branches share splits. |
| ModelTree.FedAvgScore | hq_server.py:851-903 | When the branches share splits, the weights n_i/n add up to one and the global ensemble scores every input exactly the sum of n_i/n times branch i's score. |
| ModelTree.TemplateStaysIff | hq_server.py:824-903 | A round publishes the template branch's trees unchanged for all other branches and sizes if and only if the recursion reaches no leaf entry in any of them. |
| FedAvg.AverageNodes | hq_server.py:824-847 | The in-place recursion leaves in the template exactly the pure average of what all inputs were before the call, and changes nothing else, even when the template is one of its own inputs. |
| FedAvg.DeepCopy | hq_server.py:882 | The JSON round trip of the template yields an equal tree made only of new nodes. |
| FedAvg.LargestBranch | hq_server.py:880 | The template branch has the largest training set and is the first one among equals. |
| FedAvg.FederatedAverage | hq_server.py:851-903 | Averaging fails exactly when there is no submission or the sizes sum to zero; otherwise the result is made of new nodes, is the weighted average over all branches in the template's shape, and every submission is left as it was. |
| FedAvg.GlobalModelScore | hq_server.py:851-903 | The model that the averaging method returns scores every input the size-weighted average of the branch scores, when branches share splits. |
| Dispersion.Samuelson | hq_server.py:801-812 | No element of a list is further than sqrt(n-1) standard deviations from the mean. |
| Dispersion.FewerThanAFifthBelow | go_bff/hq.go:883-904 | Strictly fewer than a fifth of a list lies below mean minus two standard deviations (one-sided Chebyshev). |
| ByzantineGate.CauchySchwarz | hq_server.py:760-767 | The squared dot product is at most the product of the squared norms, for all vectors. |
| ByzantineGate.CosineRange | hq_server.py:760-767 | Cosine similarity of any two vectors, truncated to the shorter and with the zero-norm case, lies between -1 and 1. |
| ByzantineGate.GateIsHardFloor | hq_server.py:804-812 | Whenever sigma squared is at least n-1, a list of n similarities passes exactly when its minimum reaches -0.5. |
| ByzantineGate.DefaultGateIsHardFloor | hq_server.py:676-812 | With the default sigma 2.0 that covers one to five baselines. |
| ByzantineGate.ExtremeIsRejected | hq_server.py:804-812 | Beyond that, one similarity at the floor and the rest at 1 is rejected although none is below the floor. |
| ByzantineGate.RejectionNeedsSpread | hq_server.py:804-812 | A rejection of similarities between the floor and 1 needs that many baselines. |
| ByzantineGate.StatisticsRejectIff | hq_server.py:796-812 | Some n baselines and some vector exist that the floor lets through and the statistics reject if and only if n-1 exceeds sigma squared and 1.5(n-1) exceeds 0.05 sigma n. |
| ByzantineGate.DefaultGateRejects | hq_server.py:770-817 | A run of the gate with its defaults: after one contrary and five equal branches, a sixth equal vector is rejected. |
| ByzantineGate.Minimum | hq_server.py:810 | The minimum is an element and a lower bound of the similarities. |
| ByzantineGate.Gate.Check | hq_server.py:770-817 | Unreadable weights are refused, the first and bootstrap vectors are stored, afterwards a vector is stored exactly when all similarities reach the effective threshold, and a refusal leaves every baseline unchanged; under the sigma condition that is the hard floor alone. |
| OutlierFilter.SameRule | go_bff/hq.go:883-892 | The mean-of-squares variance is the mean squared deviation, so the simulator's threshold is the one of the Byzantine check. |
| OutlierFilter.KeepFilters | go_bff/hq.go:893-901 | What is kept are, in order, the vectors at exactly the positions whose similarity reaches the threshold. |
| OutlierFilter.FilterRound | go_bff/hq.go:875-905 | A round keeps exactly the branches at or above the threshold, rejects strictly fewer than a fifth, never reaches the keep-everything fallback, rejects nobody among five branches and at most two among thirteen. |
| Registry.PromoteStep | hq_server.py:1031-1085 | Promotion keeps the server invariant: versions without gaps that name themselves and come from a quorum, the served model is the entry of the active version, no submission is used twice. |
| Registry.RunKeeps | hq_server.py:946-1085 | That invariant holds after every run of submissions, rounds, rollbacks and restarts. |
| Registry.VersionsHaveQuorum | hq_server.py:946-951 | In every reachable state each stored version was promoted from at least the configured number of different branches, and at least one. |
| Registry.NothingInvented | hq_server.py:1309-1316 | Everything pending, and everything a stored version was promoted from, was submitted by that branch in the run. |
| Registry.RoundMeans | hq_server.py:946-1085 | Below the quorum and when averaging fails a round changes nothing; otherwise the submissions are used up, and an unfair model or one whose score falls by more than the delta is dropped, any other stored and served as the next version with exactly those submissions. |
| Registry.MeanOfNonZero | hq_server.py:1005-1009 | A model's score is the mean of the scores that are not zero, if there is any. |
| Registry.SubmissionsUsedOnce | hq_server.py:1034-1085 | In every reachable state no accepted submission is in two versions, or both in a version and pending. |
| Registry.VersionsWithoutRestart | hq_server.py:1031-1052 | After every run without a restart the versions are exactly 1..current_round. |
| Registry.NeverOverwritten | hq_server.py:1034-1052 | From any reachable state to the next restart a stored version keeps its record if and only if it was written since the last restart or later versions do not reach its number; so without restarts none is ever overwritten. |
| Registry.RestartOverwrites | hq_server.py:667-692 | In every run from a restart to the next, k promotions overwrite exactly the stored versions 1..k and keep the others; all survive if and only if k is 0 or nothing was stored. |
| Registry.RollbackIff | hq_server.py:1405-1418 | A rollback succeeds exactly for the versions stored before the last restart and those promoted since, and changes only what is served. |
| Registry.ScoresGated | hq_server.py:1005-1029 | In every reachable state the scores of the served models since the last rollback or restart pass the gate one after the other, and end with the served one. |
| Registry.GatedDecline | hq_server.py:1005-1029 | k gated promotions of scored models lower the mean non-zero F1 by at most k times the delta. |
| Registry.ServedF1Declines | hq_server.py:1005-1047 | In every reachable state with scored models the served model's F1 obeys the bound, counted from the last rollback or restart. |
| Registry.PlayScores | hq_server.py:1005-1085 | Every history of scores that passes the gate is that of an actual run of submissions and rounds. |
| Registry.DeclineBoundedIffScored | hq_server.py:1007-1013 | Over all runs that submit scores up to a cap, the bound is guaranteed for a pattern of scored and unscored models if and only if all are scored or k times the delta reaches the cap. |
| Registry.HQState.AfterRestart | hq_server.py:667-704 | A restarted server keeps the registry files and forgets everything else. |
| Registry.HQState.Accept | hq_server.py:1309-1316 | Accepting replaces the branch's pending submission. |
| Registry.AcceptMeans | hq_server.py:1309-1316 | Afterwards exactly this submission is pending for the branch, and those of all other branches are as before. |
| Registry.HQState.RunAggregationRound | hq_server.py:946-1085 | A round takes exactly the aggregation step, and reports a promotion exactly when enough submissions are pending, averaging succeeds, the fairness check passes and F1 does not regress. |
| Registry.HQState.Rollback | hq_server.py:1405-1430 | Rollback takes exactly the rollback step and finds exactly the versions in the registry. |
| Scaffold.LocalClosedForm | hq_server.py:3026-3034 | After t corrected local steps every coordinate is w - lr(sum of raw gradients - t(c_local - c_global)). |
| Scaffold.NewVariateIsAverage | hq_server.py:3035-3036 | The client variate computed from the moved weights is the sum of raw gradients over the number of steps. |
| Scaffold.VariatesAreAverages | hq_server.py:3026-3042 | After a round each client variate is exactly the average of that client's raw gradients in the round. |
| Scaffold.RoundKeepsCentred | hq_server.py:3039-3042 | A round keeps the server variate the mean of the client variates. |
| Scaffold.CorrectionsCancel | hq_server.py:3026-3038 | With a centred server variate the corrections cancel in the mean of the local models. |
| Scaffold.RoundIsGradientStep | hq_server.py:3024-3042 | The new model is the old one minus lr times the average summed raw gradient. |
| Scaffold.LocalUpdate | hq_server.py:3027-3034 | The local loop computes the corrected gradient steps for any gradient function. |
| Scaffold.Round | hq_server.py:3024-3042 | One pass of the client loop yields every local model, every new variate, their means and the moved server variate. |
| Scaffold.Run | hq_server.py:3018-3043 | From zero variates every round of the run is an uncorrected gradient step with averaged client variates and a centred server variate. |
| Compression.Compress | branch_service/models.py:222-243 | Compression fails exactly when more coordinates are asked for than exist (never for ratios up to 100, whatever the floating-point rounding of quotient and product); otherwise it sends k different positions whose quantised magnitudes dominate the rest. |
| Compression.KeepCountMeans | branch_service/models.py:235 | At least one coordinate is kept, all of them at a ratio of 100, and no fewer at a larger ratio, whatever the floating-point rounding. |
| Compression.KeepsPercentage | branch_service/models.py:235 | Where floating point is exact that is the percentage, rounded down. |
| Compression.Decompress | branch_service/models.py:245-257 | Decompression fails exactly on a position outside the declared size; otherwise it scatters the restored values over zeros. |
| Compression.RoundTrip | branch_service/models.py:222-257 | For ratios up to 100 the array comes back in full length if and only if it has at least one axis. |
| Compression.RoundTripError | branch_service/models.py:222-257 | Kept coordinates come back within half a step, dropped ones as zero, and no dropped one exceeds any kept quantised magnitude by more than half a step. |
| Compression.LargestMagnitudeSurvives | branch_service/models.py:231-257 | Some kept coordinate comes back with exactly the largest magnitude, even when ties were preferred. |
| Compression.KeptLargestIsExact | branch_service/models.py:231-257 | Every kept coordinate of the largest magnitude comes back unchanged. |
| Compression.ValuesFitByte | branch_service/models.py:233 | The cast to a signed byte never wraps: all quantised values lie in -127..127. |
| Compression.SelectionIsOptimal | branch_service/models.py:235-236 | No other choice of k different coordinates leaves less quantised mass behind. |
| CreditScore.HeuristicScore | hq_server.py:2175-2190 | The accumulated heuristic is the clamped sum of the seven risk terms less the two reliefs. |
| CreditScore.Assess | hq_server.py:2175-2252 | The statements of the scoring routine compute the decision function; a zero regional factor is the only failure. |
| CreditScore.DecisionFollowsProbability | hq_server.py:2219-2253 | Grade, rate, maximum loan and every product are determined by the probability that the decision reports, after the branch's adjustments, with cuts at 0.10, 0.22, 0.40 and 0.60; the headquarters' grade by the one before them. |
| CreditScore.PricePerUnit | hq_server.py:2178-2185 | The heuristic score is a fixed price per unit of each feature, cut to the range in which it counts. |
| CreditScore.RawBetweenBounds | hq_server.py:2186-2190 | Between the bounds collateral for half the loan takes off 0.08, a guarantor 0.06, and nothing else counts. |
| CreditScore.AdjustmentsAddUp | hq_server.py:2194-2216 | As long as no intermediate value is cut off, the branch's adjustments add up, divided by the regional factor before the last. |
| CreditScore.AdjustedMonotone | hq_server.py:2164-2216 | A better applicant at a more lenient branch never gets a higher adjusted probability, and it stays in 0.02..0.97. |
| CreditScore.DecisionMonotone | hq_server.py:2164-2242 | Nor a worse grade, a higher rate, or (for a non-negative income) a lower maximum loan; the rate stays in the product's band. |
| CreditScore.RateInBand | hq_server.py:2230-2238 | The rounded rate lies in the band of the loan type. |
| CreditScore.ProductsKeptIff | hq_server.py:2219-2252 | A lower probability keeps all products of a higher one if and only if it is not below 0.22 while the other lies in 0.22..0.60. |
| CreditScore.MaxLoanOrderIff | hq_server.py:2241-2242 | At a fixed income a better grade lends at least as much if and only if the income is not negative. |
| CreditScore.IncomeHelpsIff | hq_server.py:2182-2183 | A higher income does not raise the loan-to-income term if and only if the loan is not negative or both incomes fall under the floor of the ratio. |
| CreditScore.IncomeHelpsDecisionIff | hq_server.py:2175-2216 | Over all other features and all branch settings with a positive regional factor, a higher income never raises the adjusted probability of applicants with a given loan if and only if the loan is not negative or the income stays under the floor of the ratio. |
| CreditScore.HigherIncomeRaisesProbability | hq_server.py:2175-2238 | An input on which ten times the income raises the decided probability from 0.12 to 0.21, and the rate. |
| HashText.JoinInjective | hq_server.py:399 | A joined text of separator-free fields is that of no other list of as many fields, whatever those contain. |
| HashText.FixedTwoInjective | go_bff/chain.go:60 | The two-decimal rendering of a paisa amount determines the amount, sign included. |
| HashText.DecimalInjective | go_bff/chain.go:45 | The decimal rendering of an integer determines it. |
| HashText.DigitsRead | go_bff/chain.go:44-46 | The decimal text of a number reads as it, without leading zeros. |
| HashText.FixedTwoReads | go_bff/chain.go:59-61 | The two-decimal text of an amount is its sign, rupees, a point and two digits, and reads as the amount. |
| AuditChain.AuditChain.constructor | hq_server.py:382-391 | Starting up on a log file remembers the hash of its last entry. |
| AuditChain.AuditChain.Append | hq_server.py:393-423 | An append adds one entry with the given fields, keeps every earlier entry, and keeps a verifying log verifying and the numbering 1..n. |
| AuditChain.AuditChain.VerifyChain | hq_server.py:430-456 | Verification accepts exactly the logs in which every entry links back and carries the hash of its fields; otherwise it stops at the first bad entry. |
| AuditChain.VerifiesMeans | hq_server.py:430-456 | Written out: a log verifies if and only if the first entry continues GENESIS, every other one the hash before it, and each carries the hash of its five fields with bars between them. |
| AuditChain.LastHashBindsLog | hq_server.py:375-456 | Two verifying logs with the same last hash are equally long and agree on everything but sequence numbers and summaries, if one of them is free of bars. |
| AuditChain.BarMovesBetweenFields | hq_server.py:399-400 | Wherever a field of a verifying log contains a bar, moving it gives a different verifying log with the same hashes and the same hashed texts. |
| AuditChain.LabelsAreUnbound | hq_server.py:393-456 | Whatever sequence numbers and summaries a log is given, verification answers the same and the last hash stays. |
| AuditChain.RelabelledEntryVerifies | hq_server.py:375-423 | So in every verifying log every entry can be changed in number or summary without breaking the chain. |
| AuditChain.TamperEvidentIff | hq_server.py:375-456 | The logs that verify with the last hash of a given verifying log are exactly those that differ from it in sequence numbers and summaries only, if and only if no field that a caller wrote contains a bar. |
| Merkle.MerkleRootHex | go_bff/chain.go:25-42 | The level-by-level loop ends and computes the hash of a perfect tree in which a missing half copies the other. |
| Merkle.RootIsTreeHash | go_bff/chain.go:25-42 | The layered root of any non-empty list is that recursive tree hash, and the loop hashes exactly the tree's texts. |
| Merkle.RootsEqualIff | go_bff/chain.go:25-42 | Leaf lists of equal depth share a root if and only if they pad to the same leaves. |
| Merkle.RootBinds | go_bff/chain.go:25-42 | Leaf lists of equal length with equal roots are equal at every position. |
| Merkle.RepeatedTail | go_bff/chain.go:36-37 | Repeating the last 2^j leaves of a list of an odd number of such groups, more than one, never changes the root. |
| Blockchain.MineBlock | go_bff/chain.go:48-56 | Mining returns the first nonce whose hash has the required zeros. |
| Blockchain.BuildBlock | go_bff/chain.go:112-124 | The mined block seals exactly the pending rows on top of the chain: index, link, root, count, hash and difficulty fit. |
| Blockchain.SealStep | go_bff/chain.go:87-134 | Sealing the pending rows keeps the chain consistent: headers verify, blocks record root and size of their batch, and the batches are exactly the rows up to the high-water mark, each once and in order. |
| Blockchain.RecordStep | go_bff/chain.go:94-95 | A later transaction leaves the sealed part as it is. |
| Blockchain.CountsAddUp | go_bff/chain.go:123-124 | The recorded counts sum to the number of sealed transactions. |
| Blockchain.Ledger.EnsureGenesis | go_bff/chain.go:73-84 | An empty chain gets one block without transactions and the mark stays; an existing chain is untouched. |
| Blockchain.Ledger.SealRows | go_bff/chain.go:112-127 | One block is added on top of an unchanged prefix and the mark moves to the last row. |
| Blockchain.Ledger.SealNextBlock | go_bff/chain.go:87-134 | A block is sealed exactly when rows are pending; then all transactions are sealed, and no earlier block changes. |
| Blockchain.Ledger.Verify | go_bff/chain.go:198-219 | Verification accepts exactly the chains whose headers link, hash and meet their difficulty, and otherwise names the first bad block. |
| Blockchain.HeadersMean | go_bff/chain.go:198-219 | Written out: headers verify if and only if the first continues 64 zeros, every other one the hash before it, each carries the hash of its five fields, and that hash starts with as many zeros as its difficulty. |
| Blockchain.Ledger.VerifyRewritten | go_bff/chain.go:198-219 | After an arbitrary rewriting of the transactions table, all columns included, verification answers as before, whereas roots recomputed from any cut of the new table match if and only if every batch pads to the recorded ids, types and amounts. |
| Blockchain.TipHashBindsHeaders | go_bff/chain.go:44-46 | Two verifying chains with the same tip hash are equally long and have the same headers throughout, if one of them is free of bars. |
| Blockchain.SameDepth | go_bff/chain.go:59-61 | A hashed transaction never passes for a hashed pair of nodes, so trees over transactions with the same hash are equally deep. |
| Blockchain.BatchRootsIff | go_bff/chain.go:59-61 | A batch free of colons and any other batch, of any size, have the same root if and only if they pad to the same ids, types and amounts. |
| Blockchain.PaddedIsSame | go_bff/main.go:877-878 | For batches with distinct ids that is having the same ids, types and amounts row by row. |
| Blockchain.RecomputedRootsIff | go_bff/chain.go:12-16 | Roots recomputed from other batches reproduce the recorded ones if and only if each batch pads to the same ids, types and amounts. |
| Blockchain.ColumnsAreUnbound | go_bff/chain.go:59-61 | Rewriting accounts, fee, description and every other unhashed column of all rows leaves even the recomputed roots as they are. |
| Blockchain.TipHashBindsTransactions | go_bff/chain.go:12-16 | With roots recomputed from batches of distinct ids, two verifying chains with the same tip hash are equally long and hold rows with the same ids, types and amounts in every block, if one of them is free of separators. |
| Ledger.MathRoundWhole | go_bff/main.go:2353-2359 | Rounding a whole number of paisa returns it, plus one when it is negative. |
| BankHandlers.Core.Transfer | go_bff/banking.go:92-157 | A transfer refuses, in order, with 400, 404, 403 or 400, and otherwise debits amount and fee, credits the amount and logs the row with the new source balance. |
| BankHandlers.Core.ChequeDeposit | go_bff/banking.go:250-298 | A cheque is refused with 409 when a logged deposit matches the LIKE pattern of its number, and otherwise credited and logged with its text. |
| BankHandlers.Core.BillPay | go_bff/banking.go:807-855 | Bill payment keeps the minimum balance and debits and logs the amount; rounding the difference changes nothing. |
| BankHandlers.Core.TellerDeposit | go_bff/cashier.go:27-64 | A counter deposit credits and logs the amount. |
| BankHandlers.Core.WithdrawCore | go_bff/cashier.go:107-131 | A withdrawal needs the balance and debits and logs the amount. |
| BankHandlers.Core.CardDebit | go_bff/cardcontrols.go:159-180 | A card debit does the same under its own type, refusing with 402. |
| BankHandlers.Core.FdCreate | go_bff/banking.go:478-529 | Opening a deposit checks amount, tenure, owner and balance, debits the principal and stores the maturity amount. |
| BankHandlers.Core.FdBreak | go_bff/banking.go:576-611 | Breaking an active deposit credits principal less one percent under the opening type. |
| BankHandlers.Core.PostInterest | go_bff/banking.go:1344-1370 | The interest pass is the fold of single interest postings, with the count and total it reports. |
| BankHandlers.Core.MatureDue | go_bff/banking.go:1384-1407 | The maturity pass is the fold of single maturities, for either reading of the balance query, with the count and total it reports. |
| BankHandlers.Core.RunEod | go_bff/banking.go:1344-1407 | An end-of-day run finishes if and only if the pool has three connections, or two and no deposit is due; then it is interest, dormancy and maturity in that order, with counts and totals of the rows it appended. |
| BankMeaning.FeeIsTenthOfPercent | go_bff/banking.go:124-127 | A transfer is free up to NPR 10,000 and costs a tenth of a percent above, to the nearest paisa. |
| BankMeaning.BreakCostsOnePercent | go_bff/banking.go:585-586 | The penalty of an early break is one percent to the nearest paisa, and refund and penalty add up to the principal. |
| BankMeaning.MaturityIsSimpleInterest | go_bff/banking.go:506-507 | A deposit matures at its principal and simple interest for its months, to the nearest paisa. |
| BankMeaning.LongerTenurePaysMore | go_bff/main.go:2050 | Exactly six tenures are offered, and a longer one pays more, in steps of half a percent or a whole one. |
| BankMeaning.InterestIsNearest | go_bff/banking.go:1352-1356 | A day's interest is balance times rate over 365, to the nearest paisa. |
| BankMeaning.AnswersAgree | go_bff/banking.go:88-139 | Every handler answers by one order of refusals: the request itself, the account, who asks, the receiving account, a repeated cheque, the funds; it succeeds exactly when none applies. |
| BankMeaning.ForeignTransferIff | go_bff/banking.go:113-116 | A transfer that passes all other guards is answered with 403 if and only if a customer asks for it on somebody else's account. |
| BankMeaning.StepRow | go_bff/banking.go:148-157 | A refused request changes nothing at all; an accepted one appends one row with its type, accounts, amount, fee and text and the new balance of the account it was checked against. |
| BankMeaning.StepBalance | go_bff/banking.go:141-144 | An accepted request takes its cost from the payer and brings its amount to the payee; no other balance and nothing else about any account changes. |
| BankMeaning.EodBalance | go_bff/banking.go:1344-1404 | An end-of-day run adds to every account its interest and its ripe deposits, or the last of them when the earlier balance is read, and makes dormant exactly the active accounts of the branch without a recent transaction. |
| BankMeaning.EodDeposit | go_bff/banking.go:1384-1404 | It matures exactly the active deposits of the branch that have reached their day. |
| BankMeaning.OnlyTheEntitledSpend | go_bff/banking.go:113-116 | Over every run an account keeps its owner and loses at most what requests by those entitled to it have asked for. |
| BankMeaning.NobodyElseSpends | go_bff/banking.go:113-116 | Without such a request no run lowers its balance, whatever others ask for. |
| BankMeaning.StepDeposits | go_bff/banking.go:509-516 | A step opens, breaks or matures exactly the deposits that it should, with the stated owner, amounts and day, and touches no other. |
| BankMeaning.DepositLife | go_bff/banking.go:576-611 | Over every run a deposit keeps its terms, is settled once, broken only at its owner's request and matured only by its branch's end of day on or after its day. |
| LedgerProofs.RunTracks | go_bff/banking.go:1392-1394 | After any run every balance is its opening balance plus logged credits minus logged debits and fees, minus exactly what maturity passes have overwritten. |
| LedgerProofs.PassLoses | go_bff/banking.go:1384-1404 | A maturity pass that reads the balances from before it never gains anything, and loses nothing if and only if no account is paid twice in it. |
| LedgerProofs.RunLosesNothing | go_bff/banking.go:1384-1404 | A run overwrites nothing if and only if none of its end-of-day runs with that reading meets two due deposits for one account. |
| LedgerProofs.CacheFaithfulIff | go_bff/banking.go:1392-1394 | Over every run the stored balances are the replay of the log if and only if that never happened. |
| LedgerProofs.TwoDueUnfaithful | go_bff/banking.go:1384-1404 | Two deposits of one account due on one day are such a run. |
| LedgerProofs.CurrentReadingFaithful | go_bff/banking.go:1392-1394 | If the query sees current balances they always are. |
| LedgerProofs.RunStamps | go_bff/banking.go:148-157 | Every row written records the replayed balance of its account at that point if and only if the run has no such double maturity. |
| LedgerProofs.RunNonNegative | go_bff/banking.go:132-139 | No balance is ever negative, over all runs. |
| Cheques.ChequeOnlyOnce | go_bff/banking.go:267-276 | Once a numbered cheque has been deposited, no later deposit of that number, or of one that it begins with, is accepted, whatever happens in between. |
| Cheques.PercentIsAnyText | go_bff/banking.go:270-271 | A percent sign in the search stands for any text of any length. |
| Cheques.UnderscoreIsAnyCharacter | go_bff/banking.go:270-271 | An underscore stands for any one character. |
| Cheques.LikeIsContainment | go_bff/banking.go:270-271 | For a number without wildcards the search asks exactly whether its text occurs, ignoring ASCII case. |
| Cheques.NumberFindsIff | go_bff/banking.go:270-289 | A number of digits finds a deposit if and only if the deposit's number begins with it, or "cheque" and the number occur in the deposit's number, its bank and the closing bracket. |
| Cheques.RunSees | go_bff/banking.go:267-293 | After any run the search finds a cheque if and only if it did before or finds one accepted in the run. |
| Cheques.ChequeRefusedIff | go_bff/banking.go:267-276 | For cheques numbered with digits and banks without the letter q, a deposit that passes the other guards is refused with 409 if and only if a cheque accepted in the run, or before it, is found, which in the run means that its number begins with this one. |
| Cheques.BankNamedLikeCheque | go_bff/banking.go:282-286 | A cheque without a number drawn on a bank named like a cheque blocks that number. |
| GeneralLedger.PostingBalances | go_bff/gl.go:31-62 | The journal lines of every transaction type with a non-negative fee have equal debits and credits. |
| GeneralLedger.ReferencedIff | go_bff/gl.go:111-113 | In a synchronised ledger a row is referenced if and only if it is recognised and not newer than the last synchronisation. |
| GeneralLedger.GeneralLedger.Post | go_bff/gl.go:74-80 | Posting a new reference appends exactly its numbered lines. |
| GeneralLedger.GeneralLedger.Sync | go_bff/gl.go:83-137 | Synchronising takes the opening snapshot once, then has every later recognised row booked once and in order; repeated without new rows it changes nothing. |
| GeneralLedger.GeneralLedger.StaysValid | go_bff/gl.go:109-113 | New transactions leave the ledger a correct projection of the older ones. |
| GeneralLedger.DebitsEqualCredits | go_bff/gl.go:74-137 | Total debits equal total credits after any synchronisation. |
| GeneralLedger.TrialBalance | go_bff/gl.go:140-184 | The trial balance reports balanced if and only if total debits equal total credits, and its debit total is the sum of the accounts that stand on their debit side. |
| GlAgreement.RunConserves | go_bff/banking.go:128-157 | Over every run the sum of balances plus losses changes exactly as the log says. |
| GlAgreement.RunShapes | go_bff/banking.go:153-157 | Every row a run writes has a positive amount and the sides and the fee that its type stands for. |
| GlAgreement.PostingOnDeposits | go_bff/gl.go:31-62 | On account 2000 a posting does what its row does to the balances, except that an early break is booked the other way round. |
| GlAgreement.DepositsAccount | go_bff/gl.go:31-137 | After every run and synchronisation the net credit of account 2000 is the sum of balances plus losses, less what inactive accounts held at the snapshot and twice the early breaks. |
| GlAgreement.BreaksIff | go_bff/banking.go:596-611 | The logged early breaks sum to nothing if and only if every attempt to break a deposit was refused when it was made. |
| GlAgreement.DepositsAccountAgrees | go_bff/gl.go:31-137 | Without colliding maturities and inactive money account 2000 equals the customer balances if and only if every attempt to break a deposit was refused. |
| GlAgreement.OneBreakDisagrees | go_bff/gl.go:31-62 | One accepted break is a run after which they differ. |
| GlAgreement.RunDebitsEqualCredits | go_bff/gl.go:74-137 | Debits equal credits for every run, early breaks included. |
| GlAgreement.RunInterleaved | go_bff/gl.go:83-137 | From a new ledger, every interleaving of operations and synchronisations ends with the same books, which balance and account for the customer balances. |
| GlAccounts.AccountsByType | go_bff/gl.go:31-62 | In every synchronised ledger, whatever wrote the rows, each account holds its opening value and the sums by type: cash what came in less what went out, loans what was lent less what was repaid, fixed deposits what was opened less what matured, fees, interest, and deposits the other side of all of these. |
| GlAccounts.RunAccounts | go_bff/gl.go:91-107 | After every synchronised run each account is its value in the snapshot plus those sums: cash and deposits of active accounts and active fixed deposits. |
| GlAccounts.FixedDepositsAccount | go_bff/gl.go:31-62 | After every synchronised run account 2100 is the principals of the active deposits in the table plus the stated amount for every early break and less the interest of every matured deposit. |
| BalanceSheets.AccountingEquation | go_bff/gl.go:196-213 | Assets equal liabilities plus equity plus income minus expense whenever debits equal credits. |
| BalanceSheets.Report | go_bff/gl.go:186-222 | The handler's sheet is the one that belongs to the entries: class totals, profit and equity, each moved up by one paisa when negative, and the comparison of the sides. |
| BalanceSheets.RunProfit | go_bff/gl.go:31-62 | In the books of every synchronised run income is the fees earned, expense the interest paid, equity nothing, and assets minus liabilities their difference. |
| BalanceSheets.SidesOfSheet | go_bff/gl.go:196-213 | After every synchronised run the reported assets are the opening cash and the sums by type, and the liabilities the customers' balances and the active fixed deposits, each up to its stated differences. |
| BalanceSheets.ReportedBalanced | go_bff/gl.go:204-221 | The sheet of every synchronised run is flagged balanced if and only if fees cover interest and assets and liabilities are both negative or both not, or the loss is one paisa and liabilities are zero. |
| BalanceSheets.LossIsReportedUnbalanced | go_bff/gl.go:204-221 | For every synchronised run with assets and liabilities not negative the sides of the reported sheet differ by nothing without a loss, by one paisa for a loss of one, and by two for every larger loss. |
| BalanceSheets.OneDayUnbalanced | go_bff/gl.go:204-221 | One end-of-day run that pays interest, without a fee, is reported as unbalanced while debits equal credits. |
| Approvals.DeskStepKeeps | go_bff/approvals.go:64-115 | Every step keeps requests sound and settled, and over-limit withdrawals grow exactly as approvals do. |
| Approvals.FourEyes | go_bff/approvals.go:78-115 | Over every run, whoever decides a request is not its maker, a request leaves PENDING at most once, and for every account and amount the over-limit withdrawals correspond one to one to approved requests. |
| Approvals.SettledForGood | go_bff/approvals.go:90-114 | A request that has left PENDING never changes again, between any two points of a run. |
| Approvals.DecisionMeans | go_bff/approvals.go:78-115 | Rejecting never touches the bank; approving pays exactly the amount from exactly the account when that holds it, and otherwise pays nothing and marks the request failed; whoever may not decide changes nothing. |
| Approvals.WithdrawalMeans | go_bff/cashier.go:66-99 | A withdrawal above the limit is queued and nothing is paid; one up to it is paid when the account holds it. |
| Approvals.StatusIsDecided | go_bff/approvals.go:78-115 | Over every run each request was asked for in the run, and is approved, failed or rejected only if its recorded reviewer decided so in the run. |
| Approvals.ApprovalDesk.TellerWithdraw | go_bff/cashier.go:66-99 | A withdrawal above the limit is only queued, with 202; otherwise it is the plain withdrawal. |
| Approvals.ApprovalDesk.ApprovalDecision | go_bff/approvals.go:78-115 | A decision refuses unknown, settled and own requests with 404, 409 and 403, and otherwise rejects, or withdraws and marks the request approved or failed. |
| EdgeHash.GeometricValuation | edge_api.py:1222-1230 | For a multiplier that is 1 modulo 4 the sum of its first n powers contains the same power of two as n. |
| EdgeHash.LcgFullPeriod | edge_api.py:1222-1230 | From every seed the state after n draws equals the seed if and only if 2^32 divides n. |
| EdgeHash.LcgPeriodHasNoRepeat | edge_api.py:1222-1230 | No two states within one period coincide. |
| EdgeHash.Lcg.Next | edge_api.py:1225-1228 | A draw advances the state by the recurrence and returns state / 2^32 in [0, 1). |
| EdgeHash.Lcg.Draw | edge_api.py:1222-1230 | n draws bring the generator object back to its state if and only if 2^32 divides n. |
| EdgeHash.HashString | edge_api.py:1214-1219 | The shift-and-add loop is exclusive-or then multiplication by 16777619 modulo 2^32, for every string. |
| EdgeHash.FnvStepInjective | edge_api.py:1216-1218 | One step determines the character from the states and the old state from the character. |
| EdgeHash.SubstitutionChangesHash | edge_api.py:1214-1219 | Replacing one character anywhere in a string always changes its hash. |
| Amortisation.ExactSchedule | go_bff/demo_seed.go:72-79 | The unrounded schedule with this instalment starts at the principal, never goes negative and ends at zero. |
| Amortisation.DriftClosedForm | go_bff/demo_seed.go:116-121 | The rounding drift after k instalments is ((1+r)^k - 1)/r, or k for a zero rate. |
| Amortisation.RowError | go_bff/demo_seed.go:116-121 | One rounded and clamped instalment multiplies the error by 1+r and adds at most one. |
| Amortisation.ScheduleLandsNearZero | go_bff/demo_seed.go:107-121 | After k instalments the rounded balance is within that drift of the exact one, and after the last it is at most the drift. |
| Amortisation.RepaidIsTheDifference | go_bff/demo_seed.go:112-129 | While the balance is positive the principal components add up to what it has come down by. |
| Amortisation.Instalments | go_bff/demo_seed.go:114-137 | The loop's balances are those of the rounded schedule, and it counts as repaid the components of exactly the instalments marked paid. |
| Amortisation.Schedule | go_bff/demo_seed.go:107-139 | Every row of the loop is non-negative and near the exact schedule, the last is near zero, and the principal counted as paid is the difference. |
| AmountWords.WordsToNumber | cheque_ocr.py:81-106 | The token loop is the fold of its step over the words of the text, and answers nothing when no word counts. |
| AmountWords.AnswersIff | cheque_ocr.py:87-105 | It answers if and only if some word is a number or scale word. |
| AmountWords.OnlySignificantWordsCount | cheque_ocr.py:91-103 | Filler and unknown words, anywhere, change nothing. |
| AmountWords.BlocksParse | cheque_ocr.py:93-102 | Any list of blocks (group below 1000, scale) parses to its weighted sum plus the scales that follow a zero group. |
| AmountWords.BlocksParseIff | cheque_ocr.py:93-102 | That is the weighted sum if and only if no group is zero. |
| AmountWords.NumeralsRoundTripIff | cheque_ocr.py:93-106 | Reading the canonical crore, lakh, thousand and hundred rendering of n gives n if and only if n is below ten thousand million. |
| AmountWords.SpellIsRead | cheque_ocr.py:64-78 | Every word of the canonical rendering is classified as what it stands for. |
| AmountWords.SplitWritten | cheque_ocr.py:87 | Splitting a text recovers its words whatever separates them and in whatever case they are written. |
| AmountWords.AmountRoundTripIff | cheque_ocr.py:81-106 | A text that spells n, in any case and spacing and with any fillers in between, is read as n if and only if n is below ten thousand million. |

## Left out

- HTTP, JSON binding, tokens, roles, mail, events, files and clocks: inputs and outputs of the modelled steps are parameters.
- FedAvg.FederatedAverage: trees are the nested leaf/children shape that the averaging code handles; XGBoost serialisation and the fallback for models without a tree list are not part of this model.
- ByzantineGate.Gate.Check: extraction of the leaf vector is an input that may fail.
- Registry.HQState.RunAggregationRound: the outcome of averaging and of the fairness check are inputs; the fairness check reads a metric that the submitted metrics do not carry.
- Registry.HQState.Accept: numbering accepted submissions is bookkeeping of the model and survives restarts; the source stores only the latest one per branch.
- Scaffold.Run: the gradient is a parameter; FedAvg and FedProx variants and the loss curve are not modelled.
- Compression.Compress: one array instead of a dictionary of arrays, and any selection of k largest magnitudes instead of the partition routine's order; float32 rounding is not modelled.
- CreditScore.Assess: the path that scores with the global model's weights, the confidence figure, the explanation texts and the rounded dimensions are left out; features are taken as already parsed.
- AuditChain.AuditChain.Append: the hash is computed before the lock is taken in the source; an append is one atomic step here.
- Blockchain.MineBlock: the nonce search has no bound in the source, so a suitable nonce is assumed to exist.
- Blockchain.Ledger.Record: rows arrive with increasing `rowid`; deletion of rows is not modelled.
- BankHandlers.Core.CardDebit: card PIN, channel and limit checks before the debit are left out.
- BankHandlers.Core.RunEod: which accounts had recent activity is an input, loan instalments are not marked overdue, and what the maturity query sees is a parameter; a run that waits for a connection is modelled by the state it leaves, not by what other handlers then wait for.
- Forex, loans, standing instructions and share applications as operations; their postings are in `PostingsFor`.
- Failed inserts, uniqueness of generated references and crash points between SQL statements.
- BalanceSheets.LossIsReportedUnbalanced: amounts are exact, so the difference of one paisa is not decided against the floating-point bound.
- Approvals.ApprovalDesk.ApprovalDecision: teller withdrawal is the only kind of request, as it is the only one that is ever queued.
- Amortisation.Schedule: the loop over the seeded loans, due dates and the rounding of the stored columns.
- AmountWords.WordsToNumber: lower-casing is for ASCII letters, and the result is a natural number instead of a float.
- `buildMerkleProof`, anomaly scoring, data generation, training and optical recognition: library calls or randomness without a decided property.
