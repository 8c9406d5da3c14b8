# Verified models of the join orderer and the GPU operators

This project models four parts of the query engine in Dafny and proves what they are for.

**Join ordering** (`RelSets`, `Hypergraph`, `Regions`, `PlanTable`, `Coverage`, `Enumerate`,
`Dphyp`, `Postfix`). The DPhyp solver of Moerkotte and Neumann over hypergraphs: the class `Dp`
has the solver's fields and its procedures. For every hypergraph, cost function and budget the
answer is decided: the budget is exhausted exactly when there are more pairs of a connected set
and a connected complement than it allows; otherwise the answer is "disconnected" exactly when no
tree without cross products joins every relation; otherwise the tree is a cheapest one of all such
trees, its cost is the reported cost, and the pair count is the number of pairs. Each pair is
emitted once, each subplan is final when it is used, and the cost callback is asked once for each
connected set of two or more relations and for nothing else. The word tricks (`submasks`,
`below_or_at`) are proved against the sets they stand for, and the postfix encoding is proved to
read back as the tree.

**The streaming join** (`Tables`, `JoinResidual`, `JoinSpec`, `JoinCounts`, `Cudf`, `JoinArms`,
`JoinSession`). A join is built once, probed batch by batch and finished once, for nine join types. The class
`JoinSession` has the session's state and a method for each execution arm. The main result,
`StreamedJoin`, is that for every type, build side, batching, condition, chunk budget and split of
the condition by the expression engine, the rows answered are, as a multiset, those of one
declarative join of the whole inputs. `JoinCounts` says what that join is without naming it: how
often each row occurs, by the pairs that match and the rows that match nothing. A plan is refused
exactly where the code refuses it, and a key, filter or projection that names a column there is not
breaks a run exactly where the code looks the column up. Device calls are contracts: pair lists in
an unspecified order, any out-of-range index for "no match", a NULL condition counting as no match.

**Sorting and aggregation** (`SortMerge`, `Aggregate`, `Groups`, `GroupCells`, `AggregateNode`,
`AggregateRuns`, `GroupingSets`, `Scatter`, `LaneTrees`). Local top-N followed by the k-way merge is
global top-N, exactly for the limits that survive their narrowing to 32 bits; the rows kept are in the
order of the key columns and none left out comes before one of them. The states of
an aggregate are a commutative monoid, being an image of lists of values; the request builder and
its readback answer those states; any tree of merges over any batching, with every table in
whatever order the device left it, answers what one partial phase over all the rows would, with
keys and without, and `GroupCells` says of the rows themselves what that is.
Grouping sets stay apart, and scattering by a hash of the keys commutes with grouping, also when
every batch is scattered on its own and every lane merges along a tree of its own.

**The session** (`NodeSession`, `SessionRuns`, `Executor`). Resident tables under handles, live
joins under ids, the calls that consume and produce them, and which failures end the query. The
class `Session` holds the streaming joins themselves, so `RunJoin` states the two together: a join
built, probed and finished through handles leaves tables that hold the declarative join. `Drive`
performs any sequence of the executor's calls; over the run it goes through no id is issued twice,
a handle once gone is never readable again, every resident table is well shaped and a dropped
session never comes back.

Each module is in the file of its name (`JoinSessions`, `NodeSessions` and `Executors` in
`JoinSession.dfy`, `NodeSession.dfy` and `Executor.dfy`); `Basics` holds what several
share. `dafny verify dfyconfig.toml` checks the whole project.

## Where the code is not what one might expect

- A sort-preserving merge of a single run does not apply its `fetch`
  (`cpp/src/node_session.cpp:526`, `:557-561`). `SortMerge.OneRunIsNotCut` gives an input, and
  `SortMerge.CollapseLimits` says exactly when the limit is met.
- A limit is a 64-bit number that the sort and the merge narrow to a signed 32-bit row count
  (`cpp/src/operators/sort.cpp:59`, `cpp/src/node_session.cpp:550`): LIMIT 4294967297 cuts to one row
  and LIMIT 2147483648 fails. `SortMerge.LimitWraps` gives these inputs; `SortMerge.NarrowedCut`,
  `SortMerge.TopN` and `SortMerge.CollapseLimits` say exactly when the limit is met.
- LIMIT 0 over a single partition is not applied: the sort cuts only to a positive limit and the
  collapse of one run cuts to none. `SortMerge.TopN` includes the case.
- A probe after finish is refused after its batch has been taken
  (`cpp/src/node_session.cpp:819-821`), although the refusal is documented as one that started
  nothing (`cpp/src/plan_executor.h:148-153`). `JoinProbe` states which refusals cost the batch, and
  `SessionRuns.ProbeAfterFinish` makes such a call.
- A call that maps over partitions registers an output before it looks up the next partition's
  inputs, so a caller that guesses an id can name an output of the same call as an input of it
  (`cpp/src/node_session.cpp:657-675`). `NodeSessions.OutputsResident` says an output is readable
  after the call exactly when the call did not name it, and `SessionRuns.GuessedId` makes such a call.
- A call can pass every check and then read past the end of the handles it was given: a node that
  maps, handed a first child with no partitions, runs once and reads that child's first partition;
  a collapse or a scatter handed no children reads its first child
  (`cpp/src/node_session.cpp:495-501`, `:580-583`, `:645-661`). `ReadsPastEnd` is the exact
  condition: `ExecuteNode` ends in `Undefined` if and only if it holds. `SessionRuns.EmptyLane` gives
  such an input, and inputs next to it that are refused instead.
- A merge without keys over no rows answers NULL for a count, where no rows count 0
  (`AggregateRuns.MergeOfNothing`). Every partial answers a row, so a merge over at least one table
  never meets this; a merge handed nothing is refused.
- A grouping-set mask given twice answers each of its groups twice;
  `GroupingSets.GroupingSetAggregate` states this as an equivalence.
- A postfix entry reads back as its join only for edge indices below 2^31; `Postfix.RoundTrip` is
  an equivalence. The capacity check computes `2n - 1` in 32 bits; `Postfix.DphypSolve` states
  what it then refuses.
- A hoisted comparison with a literal puts the literal's column on the side opposite its other
  operand, where a comment says the same side (`cpp/src/operators/join_session.cpp:247-251`). Either
  would do: `JoinResidual.Hoist` is proved for what the code does.
- A failed `begin_plan` leaves the earlier session standing (`cpp/src/gpu_executor.cpp:244`).

## Model

| member | source | states |
|---|---|---|
| `Dphyp.Solve` | peacockdb-dphyp/src/lib.rs:62-81 | For all inputs: a count is refused iff it is 0 or past 64, an edge iff it is the first with an empty side, a relation past n or a relation on both sides; anything else gets the whole decision (budget, disconnected, optimum with its cost and pair count) with the cost callback asked once per connected compound set and never otherwise |
| `Dphyp.SolveWellFormed` | peacockdb-dphyp/src/enumerate.rs:47-77 | The same decision for a well-formed graph, by running the enumeration and reading the table |
| `Dphyp.BudgetDecides` | peacockdb-dphyp/src/enumerate.rs:79-81 | The counter exceeds the budget iff the graph has more csg-cmp pairs than the budget |
| `Dphyp.AskedAll` | peacockdb-dphyp/src/enumerate.rs:153-161 | No set is asked twice, only connected compound sets are asked, and all of them when the budget lasts |
| `Dphyp.TableAnswers` | peacockdb-dphyp/src/enumerate.rs:64-76 | After all pairs, the full set has a plan iff it is connected, and its tree is an optimum at the stored cost |
| `Dphyp.TableHoldsConnected` | peacockdb-dphyp/src/enumerate.rs:1-5 | After all pairs, a set has a plan iff it is connected |
| `Dphyp.ReadTree` | peacockdb-dphyp/src/enumerate.rs:174-183 | The recursion through the table gives the tree the table describes |
| `PlanTable.Tree` | peacockdb-dphyp/src/enumerate.rs:174-183 | The tree covers exactly the set, joins without cross products on the first edge between its sides, and costs what the table says |
| `PlanTable.NoTreeIsCheaper` | peacockdb-dphyp/src/enumerate.rs:148-172 | With all pairs emitted, no valid tree over any set is cheaper than that set's plan |
| `PlanTable.EmitKeeps` | peacockdb-dphyp/src/enumerate.rs:148-172 | Emitting a new pair keeps every table invariant, changes no plan that was already complete and any other only for a strictly cheaper one |
| `PlanTable.CompleteIsPlanned` | peacockdb-dphyp/src/enumerate.rs:103-112 | Once all pairs of a set are emitted, its presence in the table is its connectivity |
| `PlanTable.UnionUnused` | peacockdb-dphyp/src/enumerate.rs:148-172 | No pair emitted so far uses a union that is only now being built, which is what makes used subplans final |
| `Hypergraph.Progress` | peacockdb-dphyp/src/enumerate.rs:83-116 | A connected set that meets C and is not inside C has an edge from inside C to a side wholly in the rest |
| `Hypergraph.TreeConnects` | peacockdb-dphyp/src/lib.rs:21-39 | The relations of a valid tree are connected |
| `Hypergraph.ConnectedHasTree` | peacockdb-dphyp/src/lib.rs:21-39 | A connected set has a valid tree |
| `Hypergraph.CostAddsUp` | peacockdb-dphyp/src/enumerate.rs:162-162 | A tree's cost is the sum of the costs of the sets its joins produce, each once |
| `Hypergraph.PairOneWay` | peacockdb-dphyp/src/enumerate.rs:1-5 | Two disjoint connected sets an edge links are one csg-cmp pair, one way round |
| `Hypergraph.MalformedIs` | peacockdb-dphyp/src/lib.rs:74-79 | An edge passes the mask tests iff it has no empty side, no relation past n and none on both sides |
| `Hypergraph.DirectedReads` | peacockdb-dphyp/src/enumerate.rs:30-35 | The directed list is exactly every edge both ways under its index |
| `Regions.Reaches` | peacockdb-dphyp/src/enumerate.rs:83-93 | Every connected set still to be reached from (S, X) meets the neighborhood N(S, X) |
| `Regions.RegionCover` | peacockdb-dphyp/src/enumerate.rs:103-116 | One level's growths and the recursive calls' regions together are exactly the region |
| `Regions.GrownStep` | peacockdb-dphyp/src/enumerate.rs:105-112 | Each growth adds at most its own set to those emitted, and it is a new one |
| `Regions.DeeperStep` | peacockdb-dphyp/src/enumerate.rs:113-115 | Each recursive call's region is disjoint from all before it |
| `Coverage.SeedCover` | peacockdb-dphyp/src/enumerate.rs:118-129 | The pairs grown from every seed are exactly the pairs with that csg |
| `Coverage.SeedStep` | peacockdb-dphyp/src/enumerate.rs:122-128 | Descending seeds with the lower neighbors excluded visit disjoint families |
| `Coverage.LookupDecides` | peacockdb-dphyp/src/enumerate.rs:137-141 | A table lookup plus an edge decides membership among the csg-cmp pairs |
| `Coverage.EarlierForGrown` | peacockdb-dphyp/src/enumerate.rs:103-116 | Ascending submasks finish every connected proper subset before the set itself |
| `Coverage.GrownDecides` | peacockdb-dphyp/src/enumerate.rs:109-111 | When a growth is looked up all its pairs are out, so the lookup is its connectivity |
| `Coverage.EarlierForDeeper` | peacockdb-dphyp/src/enumerate.rs:113-115 | The same order holds on entry to every recursive call |
| `Coverage.AllSettled` | peacockdb-dphyp/src/enumerate.rs:57-63 | When every connected set is finished the emitted pairs are all pairs |
| `Enumerate.EdgeBetweenIsFirst` | peacockdb-dphyp/src/enumerate.rs:95-101 | Finds an edge iff one spans the sets, and then the one of lowest index |
| `Enumerate.Dp.constructor` | peacockdb-dphyp/src/enumerate.rs:29-56 | A fresh solver with a free plan for each relation satisfies the invariants |
| `Enumerate.Dp.NeighborhoodOf` | peacockdb-dphyp/src/enumerate.rs:83-93 | The accumulated mask is N(S, X), outside S and X |
| `Enumerate.Dp.EmitCsgCmp` | peacockdb-dphyp/src/enumerate.rs:148-172 | Adds exactly this pair, counts it once, keeps the invariants and every complete plan; within the budget the union is asked for once and its plan replaced iff the pair is strictly cheaper |
| `Enumerate.Dp.EnumerateCmpRec` | peacockdb-dphyp/src/enumerate.rs:131-146 | With budget left, emits exactly the pairs of S with its region, each new; never leaves the invariants |
| `Enumerate.Dp.EmitCsg` | peacockdb-dphyp/src/enumerate.rs:118-129 | With budget left, emits exactly the pairs of S |
| `Enumerate.Dp.EnumerateCsgRec` | peacockdb-dphyp/src/enumerate.rs:103-116 | With budget left, finishes exactly the connected sets of its region |
| `Enumerate.Dp.EnumerateFrom` | peacockdb-dphyp/src/enumerate.rs:57-63 | One round of the outer loop finishes the connected sets with that lowest relation |
| `Enumerate.Dp.Run` | peacockdb-dphyp/src/enumerate.rs:47-63 | Completes iff the budget lasts, and then has emitted every csg-cmp pair exactly once |
| `RelSets.Submasks` | peacockdb-dphyp/src/enumerate.rs:195-203 | Every non-empty subset, once, masks strictly increasing, subsets before supersets |
| `RelSets.WrappingStep` | peacockdb-dphyp/src/enumerate.rs:195-203 | `(current - set) & set` in wrapping 64-bit arithmetic is the next subset |
| `RelSets.StepIsSuccessor` | peacockdb-dphyp/src/enumerate.rs:195-203 | No subset's mask lies between a subset and its step |
| `RelSets.BelowOrAtIsMask` | peacockdb-dphyp/src/enumerate.rs:186-193 | The word is the relations 0..=r, at r of 63 and above too |
| `RelSets.MaskRoundTrip` | peacockdb-dphyp/src/lib.rs:18-19 | Words and relation sets correspond one to one |
| `RelSets.WordStands` | peacockdb-dphyp/src/lib.rs:18-19 | A word's set holds a relation iff the word has its bit, and the set's mask is the word |
| `Postfix.WritePostfix` | peacockdb-dphyp/src/ffi.rs:70-79 | Appends the tree's entries to what the vector held |
| `Postfix.RoundTrip` | peacockdb-dphyp/src/ffi.rs:70-79 | The stack machine rebuilds the tree iff every edge index is below 2^31, and otherwise fails |
| `Postfix.EntryCount` | peacockdb-dphyp/src/ffi.rs:56-56 | A tree over n relations has 2n - 1 entries |
| `Postfix.MalformedWords` | peacockdb-dphyp/src/lib.rs:74-79 | What is wrong with an edge, told by the bits of its two words |
| `Postfix.AskedAsWords` | peacockdb-dphyp/src/ffi.rs:47-51 | The callback's words: none twice, each naming by its bits a connected set of two or more relations, and every such set when the budget lasts |
| `Postfix.PostfixOf` | peacockdb-dphyp/src/ffi.rs:53-62 | A solved tree's entries fill 2n - 1 places and read back as it |
| `Postfix.SolveToCode` | peacockdb-dphyp/src/ffi.rs:47-67 | The code says which of the solver's answers it was; code 0 comes with an optimum that reads back |
| `Postfix.DphypSolve` | peacockdb-dphyp/src/ffi.rs:20-68 | Each return code iff its cause, -2 iff some edge's words have an empty one, a bit past n or a common bit; nothing ever written past the capacity; a set costs what the callback answers for the word whose bits are its relations, and no word is asked twice |
| `JoinResidual.ConjunctsMean` | cpp/src/operators/join_residual.cpp:84-93 | A condition IS TRUE iff every conjunct of its AND-chain is, NULLs included |
| `JoinResidual.AndIsLower` | cpp/src/operators/join_residual.cpp:285-287 | AND is the lower of its operands where false, NULL and true are in this order |
| `JoinResidual.OperandsInOrder` | cpp/src/operators/join_residual.cpp:270-283 | A comparison meets its operands' values left first |
| `JoinResidual.ReadsWhatItNames` | cpp/src/operators/join_residual.cpp:95-105 | An expression reads a side iff it names, however deep, a filter column of it |
| `JoinResidual.DependsOnReads` | cpp/src/operators/join_residual.cpp:95-105 | An expression's value depends only on the sides it is found to read |
| `JoinResidual.TrueOnMeans` | cpp/src/operators/join_residual.cpp:144-159 | Evaluating one side's conjuncts over that side alone gives their value on every pair |
| `JoinResidual.FlipInRange` | cpp/src/operators/join_session.cpp:268-276 | Flipping the column map keeps every expression in range |
| `JoinResidual.PlainAstMeans` | cpp/src/operators/join_residual.cpp:285-301 | The AST over two condition tables, flipped or not, has the value of the plan's expression on the pair |
| `JoinResidual.ConjunctAstMeans` | cpp/src/operators/join_residual.cpp:270-283 | So does a comparison whose operands were hoisted past each side's width |
| `JoinResidual.CrossAstMeans` | cpp/src/operators/join_residual.cpp:285-301 | The folded AST IS TRUE iff every conjunct taken IS TRUE on the pair |
| `JoinResidual.Hoist` | cpp/src/operators/join_session.cpp:223-266 | Hoists exactly the comparisons whose operands each read at most one side, one of them some side, and that compare; the result stands for the conjunct, and earlier ones still do |
| `JoinResidual.SplitCross` | cpp/src/operators/join_session.cpp:152-161 | The AST part stands for the conjuncts it took, and what is left over is exactly the conjuncts neither the AST takes nor hoisting helps |
| `JoinSpec.PairListRows` | cpp/src/operators/join_session.cpp:429-453 | Gathering any pair list, in any order, gives the declarative pairs |
| `JoinSpec.PairListBits` | cpp/src/operators/join_columns.cpp:98-106 | The indices in a pair list are exactly the rows with a match |
| `JoinSpec.BitsThen` | cpp/src/operators/join_columns.cpp:98-106 | OR-ing a batch's indices in makes the matched bits those of all batches so far |
| `JoinSpec.ProbePartThen` | cpp/src/operators/join_session.cpp:278-344 | The answers to two batches are together the answer to both |
| `JoinSpec.SemiAndAnti` | cpp/src/operators/join_session.cpp:346-357 | Semi and anti answers of a side are together that side, each row in exactly one, NULL conditions included |
| `JoinCounts.MatchesMeans` | cpp/src/operators/join_session.cpp:297-308 | A pair matches iff each key column equals its partner, NULLs meeting only where the plan says so, and the condition is true of the row its filter columns make |
| `JoinCounts.ProbePartCount` | cpp/src/operators/join_session.cpp:278-344 | Per type, how often the probe rows' part holds a row: matching pairs side by side, unmatched probe rows after NULLs, probe rows with a match or without one |
| `JoinCounts.BuildPartCount` | cpp/src/operators/join_session.cpp:588-624 | Per type, how often the build rows' part holds a row: unmatched build rows before NULLs, build rows with a match, without one, or marked with whether they have one |
| `JoinCounts.CountsAddUp` | cpp/src/operators/join_session.cpp:278-344 | The two counts add up to the whole answer's, each of the nine types told by quantifiers over matching rows |
| `JoinCounts.RowsAreWide` | cpp/src/operators/join_columns.cpp:62-69 | A row that is answered is as wide as the width its projection is checked against |
| `JoinCounts.JoinAnswer` | cpp/src/operators/join_columns.cpp:62-69 | Rows that hold the declarative join are, cell by cell as the projection names them, rows that occur as often as the counts say |
| `Cudf.EntriesSplit` | cpp/src/operators/join_columns.cpp:108-116 | Whatever out-of-range value marks a miss, range tests split hits from misses |
| `Cudf.LeftJoinRows` | cpp/src/operators/join_session.cpp:309-324 | Gathering with nullify gives the pairs and the padded misses |
| `Cudf.DistinctKeys` | cpp/src/operators/join_columns.cpp:166-180 | One of each key, NULL keys dropped unless they compare equal |
| `JoinArms.MatchSplits` | cpp/src/operators/join_session.cpp:188-221 | A pair matches iff keys and cross conjuncts match and each side passes its own conjuncts |
| `JoinArms.ProbeSemiMeans` | cpp/src/operators/join_session.cpp:346-357 | For RightSemi and RightAnti: filtering the build early and the probe late is testing the whole condition |
| `JoinArms.BuildSemiMeans` | cpp/src/operators/join_session.cpp:603-620 | For LeftSemi, LeftAnti and LeftMark: filtering the probe early and the build at finish is testing the whole condition |
| `JoinArms.ArmAnswers` | cpp/src/operators/join_session.cpp:278-344 | What an arm owes for the pushed-down sides is the declarative probe part |
| `JoinArms.AstRowwise` | cpp/src/operators/join_session.cpp:466-509 | The conditional semi join, either way round, finds exactly the rows the conjuncts match |
| `JoinArms.MixedRowwise` | cpp/src/operators/join_session.cpp:359-379 | The mixed semi join, either way round, finds exactly the rows keys and condition match |
| `JoinArms.DistinctRowwise` | cpp/src/operators/join_session.cpp:325-340 | Probing distinct keys hits exactly where probing all keys would |
| `JoinArms.PairListFilters` | cpp/src/operators/join_residual.cpp:161-196 | Candidates kept by the residual mask are exactly the matching pairs |
| `JoinArms.ArmRowsThen` | cpp/src/operators/join_residual.cpp:303-318 | Answers to consecutive ranges are together the answer to the whole |
| `JoinSessions.Chunks` | cpp/src/operators/join_residual.cpp:303-318 | Consecutive ranges cover the batch once, even if the byte count wraps; while it does not, they are the fewest whose budgets hold the bytes, capped by the rows |
| `JoinSessions.SplitResidual` | cpp/src/operators/join_session.cpp:188-221 | Every conjunct goes where the sides it reads say, and none is lost |
| `JoinSessions.JoinSession.constructor` | cpp/src/operators/join_session.cpp:95-184 | The session's invariant holds with nothing probed |
| `JoinSessions.JoinSession.Prepare` | cpp/src/operators/join_session.cpp:140-184 | What the later arm needs is there: condition table, hash or distinct keys, or the empty-build mark when nothing can match |
| `JoinSessions.JoinSession.KeptProbeRows` | cpp/src/operators/join_session.cpp:346-357 | The kept rows are those the semi type keeps, late conjuncts included, and anti keeps the complement |
| `JoinSessions.JoinSession.Derive` | cpp/src/operators/join_session.cpp:429-453 | From surviving pairs alone: matched bits, pairs and padded rows of a chunk |
| `JoinSessions.JoinSession.KeepAndDerive` | cpp/src/operators/join_session.cpp:576-586 | Candidates completed by the leftover conjuncts answer the chunk |
| `JoinSessions.JoinSession.ProbePairs` | cpp/src/operators/join_session.cpp:405-427 | Keyed candidates, chunked, answer the batch's declarative part and keep the bits |
| `JoinSessions.JoinSession.ProbeMixed` | cpp/src/operators/join_session.cpp:359-379 | The mixed arm answers the same |
| `JoinSessions.JoinSession.ProbeNested` | cpp/src/operators/join_session.cpp:455-464 | Every keyless arm it chooses answers the same |
| `JoinSessions.JoinSession.ProbeNestedRowwise` | cpp/src/operators/join_session.cpp:466-509 | The row-wise arm answers the same, for the eight types that reach it |
| `JoinSessions.JoinSession.ProbeNestedCandidates` | cpp/src/operators/join_session.cpp:511-537 | The candidate arm answers the same, Full included |
| `JoinSessions.JoinSession.ProbeNestedCross` | cpp/src/operators/join_session.cpp:539-560 | The index-product arm answers the same |
| `JoinSessions.JoinSession.ProbeCross` | cpp/src/operators/join_session.cpp:562-574 | The cross join answers the same |
| `JoinSessions.JoinSession.ProbeHashed` | cpp/src/operators/join_session.cpp:297-344 | The hash and distinct-hash arms answer the same |
| `JoinSessions.JoinSession.ProbeEmptyBuild` | cpp/src/operators/join_session.cpp:381-403 | With no build row able to match, each type's answer without a join |
| `JoinSessions.JoinSession.Probe` | cpp/src/operators/join_session.cpp:278-344 | Refused iff finished; thrown iff a key, a needed filter column or a projected column does not exist; otherwise the batch's share of the declarative join, counted by matching rows, and the bits of all batches |
| `JoinSessions.FinishRows` | cpp/src/operators/join_session.cpp:588-624 | The build rows' part by type from the matched bit, each row as often as its matches among the probe rows say |
| `JoinSessions.JoinSession.Finish` | cpp/src/operators/join_session.cpp:588-624 | Once: the declarative build part over every probe row, counted by matching rows; thrown iff a needed filter column or a projected column does not exist |
| `JoinSessions.Open` | cpp/src/operators/join_session.cpp:95-161 | Refuses exactly the unusable plans, in the order the code looks, and then exactly the filter maps that miss a column where the build side looks one up |
| `JoinSessions.RefusedFor` | cpp/src/operators/join_session.cpp:106-134 | Each refusal of a plan iff its own cause is there and no earlier one is |
| `JoinSessions.StreamedJoin` | cpp/src/operators/join_session.cpp:95-624 | Any plan, type, build side and batching: refused iff `Open` refuses, broken off iff one of its calls meets a column that does not exist, and otherwise probe and finish outputs together are the declarative join of the whole inputs: each row, before projection, as often as the matching pairs, the unmatched rows or the matched rows of its type say |
| `JoinSessions.JoinSession.ProbeBreaks` | cpp/src/operators/join_columns.cpp:62-69 | What breaks a probe, told by the plan and the build side alone |
| `SortMerge.NullsLand` | cpp/src/operators/sort.cpp:17-21 | NULLs come first iff the plan says so, ascending and descending |
| `SortMerge.ByValue` | cpp/src/operators/sort.cpp:23-50 | Numbers and booleans come in their own order, reversed by a descending key |
| `SortMerge.LeqTotal` | cpp/src/operators/sort.cpp:23-50 | The multi-key order is total |
| `SortMerge.LeqTransitive` | cpp/src/operators/sort.cpp:23-50 | The multi-key order is transitive |
| `SortMerge.LeqMeans` | cpp/src/operators/sort.cpp:23-50 | A row may precede another iff, at every key before which their columns agree, the other's value does not come first: the key columns taken in order |
| `SortMerge.SortedUnique` | cpp/src/operators/sort.cpp:23-69 | Sorted permutations of the same rows have the same key sequence |
| `SortMerge.ExecuteSort` | cpp/src/operators/sort.cpp:23-69 | A permutation in the order of the key columns, cut to the narrowed fetch when there is one, a failure when that is negative |
| `SortMerge.NarrowedCut` | cpp/src/operators/sort.cpp:58-66 | A cut is the first n rows iff n fits 31 bits or the rows are no more than what the narrowing left of n |
| `SortMerge.CutOne` | cpp/src/node_session.cpp:519-556 | Cutting one run to n before merging changes no key among the first n |
| `SortMerge.CutAll` | cpp/src/node_session.cpp:519-556 | Nor does cutting every run |
| `SortMerge.MergeRuns` | cpp/src/node_session.cpp:526-547 | The merge is a sorted permutation of all runs |
| `SortMerge.Collapse` | cpp/src/node_session.cpp:487-570 | Which collapse merges, which cuts and to what the fetch narrows, which only concatenates; refused iff there is no run, or runs to merge by a key that is no column; failed iff the fetch narrows to a negative number |
| `SortMerge.TopNFromRuns` | cpp/src/node_session.cpp:519-556 | Two or more runs sorted and cut to n, merged and cut, have the keys of the global top n |
| `SortMerge.TopNMeans` | cpp/src/node_session.cpp:519-556 | Rows with the global top n keys are that many, in order, and no other row comes before one of them |
| `SortMerge.TopN` | cpp/src/operators/sort.cpp:53-66 | The whole pipeline, for every limit and any number of partitions: the global top n for the narrowed limit, hence for n itself iff n fits or the rows are no more than what is left of it; the rows kept are in order and none left out comes before one kept |
| `SortMerge.CollapseLimits` | cpp/src/node_session.cpp:526-561 | The limit is met iff a merge had none, one that fits or few enough rows, and a single run no more rows than it |
| `SortMerge.LimitWraps` | cpp/src/node_session.cpp:549-556 | Limits of 2^32 + 1 and 2^31 that are not met |
| `SortMerge.OneRunIsNotCut` | cpp/src/node_session.cpp:557-561 | An input on which the limit is not met |
| `Aggregate.PartialThen` | cpp/src/operators/aggregate.cpp:139-193 | Merging two batches' states is the state of both together, for every function, no values included |
| `Aggregate.MomentsMerge` | cpp/src/operators/aggregate.cpp:122-134 | The parallel formula gives count, mean and m2 of the concatenation |
| `Aggregate.EmptyStateIsNeutral` | cpp/src/operators/aggregate.cpp:427-455 | The empty state is the state over no rows, and merging it changes nothing, on either side |
| `Aggregate.PartialPermutes` | cpp/src/operators/aggregate.cpp:139-193 | A state depends on the values, not on their order |
| `Aggregate.StatesMerge` | cpp/src/operators/aggregate.cpp:183-189 | Merging states is commutative and gives states |
| `Aggregate.StatesRegroup` | cpp/src/operators/aggregate.cpp:183-189 | Merging states is associative |
| `Aggregate.MergeAllPermutes` | cpp/src/operators/aggregate.cpp:255-273 | A group's states merge to the same whatever their order |
| `GroupCells.ExtremesMean` | cpp/src/operators/aggregate.cpp:156-165 | MIN and MAX are NULL iff no value is valid, and otherwise a valid value that none is below or above |
| `GroupCells.StateHolds` | cpp/src/operators/aggregate.cpp:139-193 | A group's state is what its rows say: the least or greatest value that occurs, their sum, their number, their mean and squared distances from it |
| `Groups.CarriesThen` | cpp/src/operators/aggregate.cpp:255-273 | Tables of states of two batches, one under the other, merge to the state of both, key by key, NULL keys included |
| `Groups.CarriesPermutes` | cpp/src/operators/aggregate.cpp:255-273 | So does any reordering of such a table |
| `Groups.PartialCarries` | cpp/src/operators/aggregate.cpp:255-273 | A partial phase's table merges to itself |
| `Groups.GroupPartialPermutes` | cpp/src/operators/aggregate.cpp:255-273 | Grouping ignores the order of the rows |
| `AggregateNode.CheckShape` | cpp/src/operators/aggregate.cpp:64-84 | Accepts exactly the functions of the right arity, and no count at a merge |
| `AggregateNode.RequestOf` | cpp/src/operators/aggregate.cpp:148-191 | The request and readbacks of a function give its state whatever the group, the device's NULL moments as zeros |
| `AggregateNode.AddRequests` | cpp/src/operators/aggregate.cpp:136-193 | Earlier columns are untouched and the new ones hold the function's answer for every group |
| `AggregateNode.NodeRequests` | cpp/src/operators/aggregate.cpp:195-203 | All functions' answers in order, or a refusal iff one is misshapen |
| `AggregateNode.AppendStateColumns` | cpp/src/operators/aggregate.cpp:227-255 | The columns read back are the ones declared, in order |
| `AggregateNode.GroupedAggregate` | cpp/src/operators/aggregate.cpp:257-273 | One row per key, NULL keys included, holding the functions' answers for that key's rows; for functions over values, the least, the greatest, the sum, the number and the moments of the values those rows have |
| `AggregateNode.AggregatesHold` | cpp/src/operators/aggregate.cpp:257-273 | Every table of a node's answers holds, group by group, what the rows say |
| `AggregateNode.KeylessHold` | cpp/src/operators/aggregate.cpp:366-417 | So does the row without keys |
| `AggregateNode.KeylessAggregate` | cpp/src/operators/aggregate.cpp:366-417 | One row: each function's answer over all rows, said of the rows' values; refused iff a function is misshapen or there is none |
| `AggregateNode.KeylessWelfordAggregate` | cpp/src/operators/aggregate.cpp:457-468 | The detour through one constant key answers the same row, over no rows too |
| `AggregateNode.KeylessEmptyState` | cpp/src/operators/aggregate.cpp:427-455 | The row owed over no rows is the functions' answer over no rows |
| `AggregateRuns.PlannedShapes` | cpp/src/operators/aggregate.cpp:64-84 | The plan's partial and merge nodes are never refused for their shapes |
| `AggregateRuns.PartialLists` | cpp/src/operators/aggregate.cpp:257-273 | A partial node's rows are the groups' states in their columns |
| `AggregateRuns.MergeAnswer` | cpp/src/operators/aggregate.cpp:150-191 | At a merge, each function read from its state columns answers the merged state, a count by `sum` |
| `AggregateRuns.MergeLists` | cpp/src/operators/aggregate.cpp:257-273 | A merge node's rows are the merged groups |
| `AggregateRuns.ListedHold` | cpp/src/operators/aggregate.cpp:257-273 | Listed groups hold what the rows say, function by function in their columns |
| `AggregateRuns.AnyMergeTree` | cpp/src/operators/aggregate.cpp:139-273 | Any batching, any tree of merges, any row order in between: the states of one partial phase over all rows, one row per key whose cells are what all the rows of that key say |
| `AggregateRuns.KeylessBatches` | cpp/src/operators/aggregate.cpp:427-468 | Without keys: one merge over the rows of some batches, empty ones among them, is the row of all of them |
| `AggregateRuns.AnyKeylessTree` | cpp/src/operators/aggregate.cpp:366-468 | Without keys too: any batching, any tree of merges, any row order in between give the row of one partial phase over all rows, which is what all the rows say |
| `AggregateRuns.MergeOfNothing` | cpp/src/operators/aggregate.cpp:150-171 | A merge over no rows is the state over no rows iff no function is a count |
| `GroupingSets.GroupingIdColumn` | cpp/src/operators/aggregate.cpp:275-296 | Refuses past 64 keys; otherwise the id is the mask's number and fits the width chosen, nothing lost to the shift or the cast |
| `GroupingSets.IdDigits` | cpp/src/operators/aggregate.cpp:275-296 | The id has one bit per key, the first key's the highest, set iff the key is masked |
| `GroupingSets.IdTellsApart` | cpp/src/operators/aggregate.cpp:275-296 | Masks over the same keys share an id iff they are equal |
| `GroupingSets.SetAggregates` | cpp/src/operators/aggregate.cpp:347-359 | Grouping on masked keys and adding the id is grouping on both |
| `GroupingSets.SetsApart` | cpp/src/operators/aggregate.cpp:323-364 | A set's keys never meet those of other sets, so a NULL key is not a masked one |
| `GroupingSets.ApartAggregates` | cpp/src/operators/aggregate.cpp:361-363 | Aggregates of inputs that share no key concatenate to the aggregate of both |
| `GroupingSets.GroupingSetAggregate` | cpp/src/operators/aggregate.cpp:323-364 | Its refusals exactly, and the concatenation is the grouping by keys and id iff no mask is given twice (or there are no rows); every row is a group of one set, masked keys NULL and the id last, and every input row has its group in each |
| `GroupingSets.SetTwice` | cpp/src/operators/aggregate.cpp:343-360 | A mask given twice breaks it for every non-empty input |
| `GroupingSets.SetsSurviveMerging` | cpp/src/operators/aggregate.cpp:323-364 | After any tree of merges each set's groups hold what that set alone would answer over all rows, said of the rows as the set masks them, each once, and nothing else is there |
| `GroupingSets.ExecuteAggregate` | cpp/src/operators/aggregate.cpp:470-501 | Which path a node takes and what it answers, said of the rows for functions over values; a partial node handed nothing answers for no rows, a merge refuses |
| `Scatter.HashPartition` | cpp/include/peacock/partitioning.hpp:38-61 | The device's contract: a reordering in which each partition's rows are exactly one range |
| `Scatter.ScatterTable` | cpp/src/node_session.cpp:576-640 | The slices are a disjoint cover of the rows, slice p holding a row as often as the input iff its key's hash is p modulo the count, otherwise not at all; refuses a bad count, fails iff the count narrows to a negative one |
| `Scatter.LanesAggregate` | cpp/src/node_session.cpp:612-637 | Lane by lane aggregates, put together, aggregate the lanes together |
| `Scatter.ScatterThenPartial` | cpp/src/node_session.cpp:576-640 | Scatter, then a partial per lane: the groups of the whole input |
| `Scatter.ScatterThenMerge` | cpp/src/node_session.cpp:576-640 | A table of states scattered and merged per lane: the groups of the rows it carries |
| `LaneTrees.ScattersAdd` | cpp/src/node_session.cpp:572-587 | The slices of two calls, lane by lane, are a scatter of both batches |
| `LaneTrees.CarriesInLane` | cpp/src/node_session.cpp:612-637 | A lane of a table of states carries exactly the rows of that lane |
| `LaneTrees.LaneTreeCarries` | cpp/src/operators/aggregate.cpp:255-273 | Slices merged along any tree, in any order, carry the rows of all of them |
| `LaneTrees.ScatteredBatchesMerge` | cpp/src/node_session.cpp:572-640 | Any batches, each scattered by its own call, every lane merged along its own tree: the groups of all the rows, each in the lane of its key's hash, its cells what all the rows of its key say |
| `NodeSessions.ClampRowRange` | cpp/src/node_session.cpp:728-741 | Exactly the rows of the table in the range, the sum never overflowing |
| `NodeSessions.Session.RegisterHandle` | cpp/src/node_session.cpp:364-384 | A well-shaped table gets the next id, anything else changes nothing |
| `NodeSessions.Session.TakeAll` | cpp/src/node_session.cpp:501-508 | The named tables, each gone once; succeeds if all are resident and none named twice |
| `NodeSessions.Session.MapPartitions` | cpp/src/node_session.cpp:657-676 | Output p is what the operator answers for one table per child, the one under the child's p-th handle; exactly the children's handles are gone, outputs under consecutive new ids |
| `NodeSessions.ExecutedMeans` | cpp/src/node_session.cpp:426-677 | What a call did, handle by handle: the first child's tables for a collapse or a scatter, one table per child for a node that maps, none for a scan |
| `NodeSessions.Session.ExecuteNode` | cpp/src/node_session.cpp:426-677 | For every arm and every input: undefined iff it reads past the end of its handles; on success, kind by kind, how many outputs, the tables each is computed from in their order, the handles gone and the new ids; and it fails only where something stood in its way |
| `NodeSessions.Session.ExecuteScanRowgroups` | cpp/src/node_session.cpp:679-726 | One new table for a scan node and a non-empty list, otherwise nothing changes |
| `NodeSessions.Session.SliceHandle` | cpp/src/node_session.cpp:743-770 | The range's rows under a new id, the input gone; an unknown handle changes nothing |
| `NodeSessions.Session.JoinBuild` | cpp/src/node_session.cpp:785-806 | Opens iff node, table and plan allow; then a new join over the build rows under the next id; the build table is gone once the node is a join, whether it opens or not |
| `NodeSessions.Session.JoinProbe` | cpp/src/node_session.cpp:808-824 | When it refuses, what a refusal costs, exactly when it succeeds; then the batch is gone and its share of the declarative join of the build side is resident |
| `NodeSessions.Session.JoinFinish` | cpp/src/node_session.cpp:826-839 | Refuses an unknown or finished join unchanged, otherwise finishes it even when it throws; then what the build rows' fates add is resident |
| `NodeSessions.Session.JoinRelease` | cpp/src/node_session.cpp:841-844 | Both join maps lose the id together, the other joins stand |
| `NodeSessions.Session.Adopt` | cpp/src/node_session.cpp:846-850 | A well-shaped table under a new id, anything else changes nothing |
| `NodeSessions.Session.TableFor` | cpp/src/node_session.cpp:894-899 | The table under the handle, well shaped, and nothing changes |
| `NodeSessions.Session.Release` | cpp/src/node_session.cpp:901-901 | Only that handle goes |
| `NodeSessions.MidwayStep` | cpp/src/node_session.cpp:327-339 | Taking and registering, in any interleaving, keeps the session's invariant and the step every call keeps |
| `NodeSessions.OutputsResident` | cpp/src/node_session.cpp:657-675 | An output is readable after its call iff the call did not name it as an input; an input never is |
| `SessionRuns.GoneForGood` | cpp/src/node_session.cpp:369-396 | Between any two states of a run: a handle gone stays gone, one that stays names the same table, ids only grow |
| `SessionRuns.RunJoin` | cpp/src/node_session.cpp:785-839 | A join built, probed and finished through handles: its resident answers together hold the declarative join of the build table and the batches, counted by matching rows, and it gets there if every column exists and nothing else stands in its way |
| `SessionRuns.EmptyLane` | cpp/src/node_session.cpp:642-661 | Inputs that read past the end, and neighbours that are refused |
| `SessionRuns.CallOnEmptyLane` | cpp/src/node_session.cpp:642-661 | A call at such an input is undefined |
| `SessionRuns.GuessedId` | cpp/src/node_session.cpp:657-675 | A call that succeeds and answers a handle already gone |
| `SessionRuns.ProbeAfterFinish` | cpp/src/node_session.cpp:808-824 | A refused probe whose batch is gone |
| `Executors.Executor.BeginPlan` | cpp/src/gpu_executor.cpp:239-254 | A fresh session numbering from one, or the earlier one untouched |
| `Executors.Executor.ExecuteNode` | cpp/src/gpu_executor.cpp:256-286 | The session's answer, computed from the tables it names, or no session left, or the undefined read, iff the arguments reach it |
| `Executors.Executor.ExecuteScanRowgroups` | cpp/src/gpu_executor.cpp:288-316 | An empty list is refused with everything as it was, any later failure drops the session |
| `Executors.Executor.SliceHandle` | cpp/src/gpu_executor.cpp:318-337 | Succeeds iff the handle is resident; otherwise no session left |
| `Executors.Executor.JoinBuild` | cpp/src/gpu_executor.cpp:339-360 | A new join iff it opens, otherwise no session left |
| `Executors.Executor.JoinProbe` | cpp/src/gpu_executor.cpp:362-396 | After a failure the session stands iff it was a refusal, and then exactly what changed |
| `Executors.Executor.JoinFinish` | cpp/src/gpu_executor.cpp:398-403 | After a failure the session stands, unchanged, iff it was a refusal |
| `Executors.Executor.ResultFromHandle` | cpp/src/gpu_executor.cpp:453-496 | Ships exactly the range's rows and never changes the session |
| `Executors.Executor.HandleSchema` | cpp/src/gpu_executor.cpp:498-521 | The names under a resident handle, and nothing changes |
| `Executors.Executor.HandleFromArrow` | cpp/src/gpu_executor.cpp:569-595 | A failed adoption leaves everything as it was |
| `Executors.Executor.JoinRelease` | cpp/src/gpu_executor.cpp:405-407 | Only that join goes, and the session stands |
| `Executors.Executor.HandleRelease` | cpp/src/gpu_executor.cpp:523-525 | Only that handle goes, and the session stands |
| `Executors.Executor.EndPlan` | cpp/src/gpu_executor.cpp:527-529 | No session left |
| `Executors.Perform` | cpp/src/gpu_executor.cpp:239-595 | Every entry point keeps the step, and exactly the undefined calls are reported |
| `Executors.Drive` | cpp/src/gpu_executor.cpp:239-595 | Any sequence of calls, up to the first undefined one, goes through a run: each state a step from the one before, every resident table well shaped |
| `Executors.OneSession` | cpp/src/gpu_executor.cpp:239-407 | Over any sequence of calls with no plan begun in between, a live session was live throughout and kept every call's promise |
| `Executors.HandlesAreSafe` | cpp/src/gpu_executor.cpp:256-407 | Over any sequence of calls, a handle gone is never readable again in its session, and what is readable is well shaped |
| `Executors.DroppedStaysDropped` | cpp/src/gpu_executor.cpp:276-285 | A dropped session is beyond reach until the next plan |

## Left out

- Floating point: costs, values and moments are real numbers, without rounding and NaN.
- cuDF, rmm, CUDA, Arrow and FlatBuffers: each device call used is a method whose contract is what
  the code relies on.
- The expression engine: what a node computes, which conjuncts the AST takes and which operand
  types compare are arbitrary functions of the model, so the join results hold for all of them.
- Column types, decimal widths and scales, names versus ordinals, shared column ownership and
  timing regions. A decimal sum without keys goes through a one-group groupby in the source; the
  model reduces every sum alike.
- Size refusals: tables past 2^31 - 1 rows, and handle, join and pair counters past 2^64, do not
  arise in the model.
- Computed arguments and sort or group keys other than column references, which the source
  evaluates beforehand or refuses.
- The raw-address side of the C interfaces: null arguments, `out_stats`, the flat handle array and its
  grouping by child counts.
- Collecting timed regions, and the calls that need no executor (version, device, pool, partition
  ids).
- The column-at-a-time layout of aggregation results: the model reads back one group at a time.
- `set_cost` is a function of the set: a callback that answers differently each time is not
  modelled, though it is shown to be asked once.
- The planner, the driver and the interval and expression sources, and everything outside the
  files cited above.
- Dphyp.Solve: edge indices are unbounded, where the source keeps them in 32 bits.
- RelSets.Submasks: the subsets are listed before they are used, where the source produces them
  one at a time.
- JoinSessions.JoinSession.Probe: what a call that is broken off leaves of the match bits is not
  modelled (they stay as they were); the executor drops the session.
- SortMerge.ExecuteSort: a sort key past the table's columns, which the source refuses, reads as NULL.
  So does an argument column of an aggregation.
- JoinSessions.StreamedJoin: a build side and batches have the widths their schemas declare; a
  session that is handed a table of another width fails the call, where the source runs it with
  whatever columns it finds.
- NodeSessions.Session.JoinProbe: the names of a join's output columns are not modelled.
- Executors.Executor.ExecuteNode: the text of the last error is not modelled, only its kind.
