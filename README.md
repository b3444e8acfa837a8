# flc_toolkit, modelled in Dafny

This is a Dafny model of the core of `flc_toolkit`, a teaching toolkit for formal languages and compilers. The toolkit works on two kinds of object.

- **Finite-state machines.** A machine is named by a character. Its states carry integer ids, initial and final flags, and labelled transitions.
- **Machine nets.** A net is a set of machines, one per nonterminal. An uppercase transition label calls the machine of that name, and the machine `S` is the axiom.

The model covers the following:

- **The ELR(1) pilot.** The closure of a pilot state, following the lookahead sets through the net. Collecting and shifting the outgoing labels. The `insert` that merges states with equal base sets. The worklist that builds the whole pilot. The shift-reduce, reduce-reduce and convergence conflict reports. The merged candidate rows of the pilot's Graphviz rendering.
- **Net outputs before the pilot.** The net validator, the follower (lookahead) computation, and the text parser for net files.
- **The machine validator.**
- **Nerode minimisation.** The table of distinguishable pairs and its refinement pass. The maximal cliques of indistinguishable states (Bron–Kerbosch). Building the minimised machine from the equivalence classes.
- **Epsilon elimination.** Backward and forward, with the transitive closure of the epsilon moves, the path search, the flag propagation and the removal of the epsilon moves.
- **Brzozowski–McCluskey (BMC) state elimination.** Turning a machine into a regular expression.
- **The Berry–Sethi construction**, over the local sets of a numbered regular expression.
- **Regular expressions.** The recursive-descent parser, the symbol-by-symbol formatter (plain and numbered output) and the plain `Display` printer.

Each module has the name of the Rust file it models: `Fsm`, `FsmValidation`, `Mnet`, `MnetValidation`, `ElrPilot`, `ElrConflicts`, `ElrDot`, `NetParser`, `Nerode`, `EpsilonElim`, `Bmc`, `RegLang`, `BerrySethi`, `Regex`, `RegexParser`, `RegexFormatter`. `Wrappers` (Option) and `Util` (sorted sets, cardinality facts) are shared helpers.

How each kind of source code is modelled:

- **Pure Rust code** becomes functions with named results, plus lemmas.
- **Loops** become methods whose invariants prove them against a specification function.
- **Objects the source mutates** become classes with `modifies` frames. These are the pilot, the machine of epsilon elimination, the BMC machine, the parsers and the formatter.
- **`&mut` borrows of plain values** (a `PilotState` in `closure`, the distinguishability table) become in/out parameters.

## Model

| member | source | states |
|---|---|---|
| Fsm.NonterminalIffUppercaseLetter | src/fsm.rs:8-10 | a label is a nonterminal exactly when it is one of the 26 ASCII uppercase letters |
| Fsm.LookupState | src/fsm.rs:28-35 | defined only when some state has the id, which is where the toolkit would panic; the result is the first state carrying that id |
| Fsm.TryLookupState | src/fsm/validation.rs:39 | None exactly when no state has the id; otherwise a state of the machine with that id |
| Fsm.FindTransition | src/nerode.rs:92 | None exactly when no transition has the label; otherwise the first transition with that label |
| FsmValidation.ValidateStateCount | src/fsm/validation.rs:7-15 | false exactly when the machine has no states |
| FsmValidation.ValidateAnyInitialState | src/fsm/validation.rs:17-24 | true exactly when some state is initial |
| FsmValidation.ValidateAnyFinalState | src/fsm/validation.rs:26-33 | true exactly when some state is final |
| FsmValidation.ValidateTransitions | src/fsm/validation.rs:35-46 | true exactly when every transition's destination names a state of the same machine |
| FsmValidation.Validate | src/fsm/validation.rs:49-57 | true exactly when all four checks hold |
| FsmValidation.ValidMachineLookups | src/fsm/validation.rs:35-46 | in a validated machine, looking up the destination of any transition succeeds |
| Mnet.FirstMachineIndex | src/mnet.rs:13-15 | the position of the first machine with the given name |
| Mnet.LookupMachine | src/mnet.rs:17-19 | defined only when the machine exists, which is where the toolkit would panic; the result is the first machine with that name |
| Mnet.TryLookupMachine | src/mnet.rs:13-15 | None exactly when no machine has the name; otherwise the first machine with that name |
| Mnet.NetLookupState | src/mnet.rs:26-28 | the state with the given id in the named machine |
| Mnet.TryLookupNetState | src/mnet.rs:21-24 | None when the machine is missing; otherwise the same as that machine's own lookup |
| Mnet.NetStateFacts | src/mnet.rs:26-28 | a state that exists is among the net's pairs, and its transitions are among the net's transitions |
| Mnet.FollowersFrom | src/mnet.rs:30-50 | the specification of `followers_impl`: the visited set only grows and includes the state it was called on |
| Mnet.FollowersFromBounds | src/mnet.rs:30-50 | an already visited state returns nothing and changes nothing; a final state contributes the inherited followers; every terminal label leaving the state is a follower; the result lies within the inherited followers plus the net's terminal labels |
| Mnet.FollowTransitionsBounds | src/mnet.rs:40-48 | the loop over the transitions keeps what it has collected and adds every terminal label; it adds nothing outside the inherited followers and the terminal labels |
| Mnet.FollowTransitions | src/mnet.rs:40-48 | the loop over a state's transitions never removes a pair from the visited set |
| Mnet.FollowersImpl | src/mnet.rs:30-50 | the recursive method with its shared `visited` set returns exactly the followers and visited set of the specification |
| Mnet.FollowTerminalStep | src/mnet.rs:41-42 | a terminal transition adds its label and leaves `visited` untouched |
| Mnet.FollowNonterminalStep | src/mnet.rs:43-46 | a nonterminal transition first computes the followers after the call, then the initials of the called machine with those as lookahead, threading `visited` through both |
| Mnet.Followers | src/mnet.rs:52-55 | the followers starting from an empty visited set are the specification's result, contain `next` for a final state, contain every terminal label leaving the state, and lie within `next` plus the net's terminal labels |
| MnetValidation.ValidateMachineCount | src/mnet/validation.rs:4-11 | false exactly when the net has no machines |
| MnetValidation.ValidateStart | src/mnet/validation.rs:13-21 | true exactly when a machine named `S` exists |
| MnetValidation.ValidateNotReentrant | src/mnet/validation.rs:23-37 | false exactly when some transition of some machine enters a state 0 |
| MnetValidation.ValidateStateCount | src/mnet/validation.rs:39-49 | true exactly when every machine has a state |
| MnetValidation.ValidateSingleInitialState | src/mnet/validation.rs:51-66 | true exactly when, in every machine, a state is initial if and only if its id is 0 |
| MnetValidation.ValidateAnyFinalState | src/mnet/validation.rs:68-77 | true exactly when every machine has a final state |
| MnetValidation.ValidateStateTransitions | src/mnet/validation.rs:83-99 | for one state: true exactly when every destination exists in the machine, every uppercase label names a machine, and no two transitions share a label |
| MnetValidation.ValidateTransitions | src/mnet/validation.rs:79-104 | the same condition over every state of every machine |
| MnetValidation.Validate | src/mnet/validation.rs:106-116 | true exactly when all seven checks hold |
| MnetValidation.ValidNetMayLackInitialState | src/mnet/validation.rs:106-116 | a net whose only machine `S` holds just a final state 1 passes every check, yet has no state `S`/0 for the pilot to start from |
| MnetValidation.ValidateWithInitialStates | src/mnet/validation.rs:106-116 | the seven checks plus "every machine has an initial state": true exactly when all eight hold |
| MnetValidation.ValidatedNetIsWellFormed | src/mnet/validation.rs:106-116 | a net passing the eight checks is one every lookup of the follower search and of the pilot succeeds on, and it has state `S`/0 |
| MnetValidation.MachineHasStateZero | src/mnet/validation.rs:51-66 | with the eight checks, every machine has a state 0 for a call into it to enter |
| ElrPilot.BaseSet | src/elr_pilot.rs:228-230 | a candidate is in the base set exactly when it is a candidate of the state and is not on a state 0 |
| ElrPilot.SuccessorsValid | src/elr_pilot.rs:379-390 | every candidate the closure derives from a valid candidate is valid and sits on the called machine's state 0 |
| ElrPilot.AppendNew | src/elr_pilot.rs:384-390 | the list is extended only by members of the new set that were not in it yet, and afterwards every member of that set is in the list |
| ElrPilot.TransitionSuccessors | src/elr_pilot.rs:383-390 | the candidates added for one uppercase transition are the called machine's state 0 with each follower of the transition's destination as lookahead |
| ElrPilot.AddSuccessors | src/elr_pilot.rs:377-391 | processing one candidate appends only new candidates it derives, and afterwards everything it derives is in the list |
| ElrPilot.Closure | src/elr_pilot.rs:374-394 | the closure extends the candidate list, appends only new candidates derived from earlier ones, and ends with every derived candidate present |
| ElrPilot.ClosureKeepsBase | src/elr_pilot.rs:374-394 | the closure leaves the base set unchanged and keeps a duplicate-free list duplicate-free |
| ElrPilot.ClosureMeasure | src/elr_pilot.rs:376 | the closure loop ends: the appended candidates are distinct and drawn from the finite set of valid candidates |
| ElrPilot.CollectTransitions | src/elr_pilot.rs:396-407 | the labels come out strictly increasing, and a label is included exactly when it leaves the machine state of some candidate |
| ElrPilot.ShiftCandidate | src/elr_pilot.rs:409-418 | None exactly when the candidate's state has no transition on the label; otherwise the candidate moved along the first such transition, with finality taken from the destination and a valid candidate kept valid |
| ElrPilot.ShiftedIsBase | src/elr_pilot.rs:409-418 | in a net with no re-entry into a state 0, every shifted candidate is a base candidate |
| ElrPilot.IndexOf | src/elr_pilot.rs:427 | None exactly when the candidate is absent; otherwise a position holding it |
| ElrPilot.ShiftResultsAt | src/elr_pilot.rs:424-425 | the shift computed for each position is `shift_candidate` of that position's candidate |
| ElrPilot.OriginsMembers | src/elr_pilot.rs:426 | the origin pairs are exactly the (machine, state) pairs of the source candidates that shift |
| ElrPilot.ShiftAt | src/elr_pilot.rs:425 | the method returns the shift of candidate `i` |
| ElrPilot.RecordShift | src/elr_pilot.rs:426-433 | one step of the `shift` loop keeps its invariant: the map is sound and complete so far, destinations are numbered by first appearance, and the origins are those of the sources seen |
| ElrPilot.Shift | src/elr_pilot.rs:420-438 | the new state has no duplicates and exactly the shifted candidates. Each map entry (i, j) sends source i to destination j, every shifting source has one entry, and entries are in source order. Destinations are numbered by first appearance. The multiplicity is the number of distinct origin states and at most the number of entries |
| ElrPilot.ShiftElems | src/elr_pilot.rs:424-435 | a candidate is in the shifted state exactly when some source candidate shifts to it |
| ElrPilot.Pilot.LookupState | src/elr_pilot.rs:301-308 | the first state with the given id (its absence is the panic) |
| ElrPilot.Pilot.SetTransitions | src/elr_pilot.rs:292-299 | only the transitions of the first state with the id are replaced; every other state is unchanged |
| ElrPilot.Pilot.Insert | src/elr_pilot.rs:310-321 | with an equivalent state present, nothing changes and the id of the first such state is returned. Otherwise the closure of the new state is appended under the next id, and all earlier states are kept |
| ElrPilot.ShiftAll | src/elr_pilot.rs:457-459 | one shift per collected label, in order |
| ElrPilot.InsertShifts | src/elr_pilot.rs:460-464 | each shifted state is inserted in turn; each transition's target is a state whose base set is that of the shifted state, and earlier states keep their candidates |
| ElrPilot.DestIds | src/elr_pilot.rs:465 | the ids appended to the worklist are the targets of the new transitions, in order |
| ElrPilot.ExpandState | src/elr_pilot.rs:455-466 | expanding a state sets its transitions to sorted, correctly labelled transitions whose targets hold the shifted base sets; it keeps the existing states and returns the targets |
| ElrPilot.StatesBound | src/elr_pilot.rs:446-467 | a pilot whose states have pairwise distinct base sets has at most 2^n states, n being the number of valid candidates; so the worklist loop ends |
| ElrPilot.CreatePilot | src/elr_pilot.rs:440-469 | state 0 starts with ⟨S0, $⟩ and every state is closed with pairwise distinct base sets. Every state has the sorted transitions of its candidates' labels, each leading to the state holding the shifted base set. There are at most 2^n states |
| ElrConflicts.OutgoingLabels | src/elr_pilot/conflicts.rs:25-27 | a character is an outgoing label exactly when some transition of the state carries it |
| ElrConflicts.ShiftReduceConflicts | src/elr_pilot/conflicts.rs:24-35 | every reported index is a final candidate whose lookahead labels an outgoing transition; every such index is reported; indices come in increasing order |
| ElrConflicts.ReduceReduceConflicts | src/elr_pilot/conflicts.rs:37-49 | the nested loops produce the conflicts pair by pair in the order of the loops |
| ElrConflicts.ReduceReduceMembers | src/elr_pilot/conflicts.rs:37-49 | a conflict is reported exactly for the index pairs i < j of two final candidates with the same lookahead |
| ElrConflicts.ConvergenceConflicts | src/elr_pilot/conflicts.rs:51-69 | the three nested loops produce the conflicts in their order |
| ElrConflicts.ConvergenceMembers | src/elr_pilot/conflicts.rs:51-69 | a conflict is reported exactly for two positions p < q of one transition's map that send their sources to the same destination candidate, with the right states and indices |
| ElrConflicts.ConflictNeedsFinal | src/elr_pilot/conflicts.rs:28-44 | a shift-reduce or reduce-reduce conflict implies the state has a final candidate |
| ElrConflicts.NoFinalNoConflicts | src/elr_pilot/conflicts.rs:24-49 | a state without final candidates has no shift-reduce and no reduce-reduce conflicts |
| ElrConflicts.ConvergenceNeedsSharedTarget | src/elr_pilot/conflicts.rs:51-69 | a transition with convergence conflicts has two map positions with the same destination |
| ElrConflicts.DistinctTargetsNoConvergence | src/elr_pilot/conflicts.rs:51-69 | a transition whose map has pairwise distinct destinations has no convergence conflict |
| ElrConflicts.ReduceReduceInRange | src/elr_pilot/conflicts.rs:81-86 | the indices of every reduce-reduce conflict name candidates of the state, so the report's lookups are in range |
| ElrConflicts.ConvergenceInRange | src/elr_pilot/conflicts.rs:88-96 | in a pilot built from a net without re-entry, the states and candidate indices of every convergence conflict exist, so the report's lookups are in range |
| ElrConflicts.ConvergenceFromOk | src/elr_pilot/conflicts.rs:88-96 | the map entries of a correctly built transition index existing source and destination candidates |
| ElrConflicts.TotalZeroIff | src/elr_pilot/conflicts.rs:98-120 | the conflict count is zero exactly when no state reports a conflict of any kind |
| ElrConflicts.CountConflicts | src/elr_pilot/conflicts.rs:98-120 | the loop counts every reported conflict, and "no conflicts" is reported exactly when every state is conflict-free |
| ElrDot.InsertByKey | src/elr_pilot/dot_formatter.rs:25 | inserting keeps the multiset of elements and adds the new one |
| ElrDot.InsertByKeySorted | src/elr_pilot/dot_formatter.rs:25 | inserting into a list sorted by key keeps it sorted |
| ElrDot.SortByKey | src/elr_pilot/dot_formatter.rs:25 | the sort by (machine ranked with `S` as `@`, state) is a sorted permutation |
| ElrDot.Dedup | src/elr_pilot/dot_formatter.rs:26 | `dedup` keeps the same elements and the first, leaves no two equal neighbours, and keeps a sorted list sorted |
| ElrDot.InsertChar | src/elr_pilot/dot_formatter.rs:34 | inserting keeps the multiset of lookaheads and adds the new one |
| ElrDot.InsertCharSorted | src/elr_pilot/dot_formatter.rs:34 | inserting into a sorted list of characters keeps it sorted |
| ElrDot.SortChars | src/elr_pilot/dot_formatter.rs:34 | the lookahead sort is a sorted permutation |
| ElrDot.StatePairs | src/elr_pilot/dot_formatter.rs:22-24 | the machine state of each candidate, position by position |
| ElrDot.Matching | src/elr_pilot/dot_formatter.rs:28-30 | the filter keeps exactly the candidates on the machine state, and its first element is the first such candidate |
| ElrDot.FirstOn | src/elr_pilot/dot_formatter.rs:35 | the position of the first candidate on the machine state |
| ElrDot.DisplayLookaheads | src/elr_pilot/dot_formatter.rs:31-33 | the end marker `$` is displayed as `⊣`, every other lookahead as itself |
| ElrDot.DisplayLookahead | src/elr_pilot/dot_formatter.rs:31-33 | the end marker `$` never shows in the picture; every other lookahead shows as itself |
| ElrDot.MergeOne | src/elr_pilot/dot_formatter.rs:27-37 | a row carries its machine state and the sorted displayed lookaheads of all candidates on it; finality comes from the first of them |
| ElrDot.MergeAll | src/elr_pilot/dot_formatter.rs:27-37 | one row per key, in key order |
| ElrDot.MergedKeys | src/elr_pilot/dot_formatter.rs:22-26 | the keys are exactly the candidates' machine states, sorted, with no equal neighbours |
| ElrDot.MergedCandidates | src/elr_pilot/dot_formatter.rs:21-38 | one merged row per key, in key order |
| ElrDot.MergedRowKeys | src/elr_pilot/dot_formatter.rs:21-38 | the rows carry exactly the keys they were merged for, in order |
| ElrDot.MergedCandidatesSpec | src/elr_pilot/dot_formatter.rs:21-38 | the rows cover exactly the machine states of the candidates, sorted with `S` first; when no machine is named `@`, each machine state appears once |
| ElrDot.PairOfCandidate | src/elr_pilot/dot_formatter.rs:22-24 | a machine state is among the pairs exactly when some candidate sits on it |
| ElrDot.BaseRows | src/elr_pilot/dot_formatter.rs:45-51 | the rows above the separator are those on a state other than 0 |
| ElrDot.ClosureRows | src/elr_pilot/dot_formatter.rs:52-58 | the rows below the separator are those on a state 0 |
| ElrDot.RowsPartition | src/elr_pilot/dot_formatter.rs:45-58 | base and closure rows together are all rows, each once |
| ElrDot.DoubleEdges | src/elr_pilot/dot_formatter.rs:78-85 | an edge is drawn double exactly when its multiplicity exceeds one |
| ElrDot.SeveralOrigins | src/elr_pilot.rs:426-436 | there is more than one origin exactly when two shifting sources sit on different machine states |
| ElrDot.DoubleEdgeIffSeveralOrigins | src/elr_pilot/dot_formatter.rs:78-85 | in a correctly built pilot, an edge is drawn double exactly when two candidates on different machine states shift along it |
| Nerode.Ordered | src/nerode.rs:33-39 | the normalised pair is the two ids, smaller first |
| Nerode.FindStatePair | src/nerode.rs:41-47 | the lookup does not depend on the order of the two ids |
| Nerode.InsertStatePair | src/nerode.rs:33-39 | inserting adds at most the one normalised pair, after which the lookup succeeds in both orders |
| Nerode.InsertKeepsOthers | src/nerode.rs:33-39 | inserting a pair changes no lookup of another pair |
| Nerode.DistTableLen0 | src/nerode.rs:75-83 | the initial table holds exactly the pairs of states at positions i < j that differ in finality |
| Nerode.FinalityPairsSpec | src/nerode.rs:75-83 | with distinct ids, two states are in the initial table exactly when one is final and the other is not |
| Nerode.DistinguishableGrows | src/nerode.rs:91-105 | a larger table tells apart at least the same pairs |
| Nerode.UpdateStep | src/nerode.rs:87-109 | one position pair of the pass keeps the invariant, inserting and counting only a new distinguishable pair |
| Nerode.UpdateRow | src/nerode.rs:87-110 | the pairs (a, b) for every b after a keep the invariant of the pass |
| Nerode.DistTableUpdate | src/nerode.rs:85-112 | the table only grows, and the count is the number of added pairs. Every pair the starting table shows distinguishable ends up in the table. Every added pair belongs to two states the final table tells apart |
| Nerode.Neighbours | src/nerode.rs:56-64 | a vertex is a neighbour of `v` exactly when an edge joins them, in either direction |
| Nerode.NoCommonNeighbourMaximal | src/nerode.rs:51-53 | a clique that no vertex extends (P and X empty) is maximal |
| Nerode.CommonNeighboursAdd | src/nerode.rs:65-68 | adding `v` to R keeps, of the common neighbours, those adjacent to `v` |
| Nerode.BranchReady | src/nerode.rs:54-68 | branching on `v` gives the recursive call a clique, the right candidate sets and a smaller P |
| Nerode.BronKerbosch | src/nerode.rs:50-72 | entries are only appended to the result, and every appended entry is a maximal clique |
| Nerode.GraphEdgesSpec | src/nerode.rs:116-122 | two ids are adjacent exactly when two different states carry them and the table lacks their pair |
| Nerode.DistinctIdsNoSelfLoops | src/nerode.rs:116-122 | with distinct state ids the graph has no loops |
| Nerode.Cliques | src/nerode.rs:114-126 | every reported set is a maximal clique of the graph of indistinguishable states |
| Nerode.InsertByMin | src/nerode.rs:146 | inserting keeps the multiset of sets and adds the new one |
| Nerode.InsertByMinSorted | src/nerode.rs:146 | inserting into a list sorted by least member keeps it sorted |
| Nerode.SortByMin | src/nerode.rs:146 | sorting the classes by least member is a sorted permutation |
| Nerode.Members | src/nerode.rs:147-149 | an id is a member exactly when some class holds it |
| Nerode.LastIndex | src/nerode.rs:147-149 | collecting into a map keeps, for each id, the last class that holds it |
| Nerode.OldToNew | src/nerode.rs:147-149 | the renaming is defined on exactly the ids of the classes, and sends each id to the last class that holds it |
| Nerode.OldToNewDisjoint | src/nerode.rs:147-149 | for pairwise disjoint classes, an id is renamed to k exactly when class k holds it |
| Nerode.AnyInitial | src/nerode.rs:151 | the fold is true exactly when some member of the class is initial |
| Nerode.Remap | src/nerode.rs:154-157 | each transition keeps its label and has its destination renamed |
| Nerode.Representative | src/nerode.rs:152 | the member chosen to represent the class belongs to it |
| Nerode.SortedSetsOk | src/nerode.rs:146 | sorting keeps the members and the requirements on the classes |
| Nerode.NewStateSpec | src/nerode.rs:150-161 | the state of class k has id k and the sorted ids of its class. It is initial exactly when some member is. It has some member's finality and renamed transitions |
| Nerode.FromMachineAndEquivSets | src/nerode.rs:145-163 | the minimised machine keeps the name and has one state per class, built in sorted class order |
| Nerode.MinimizedSpec | src/nerode.rs:145-163 | the classes of the result are a permutation of the input classes, with ids 0, 1, … and ascending original ids. The states are ordered by least original id, and initiality is inherited from the members |
| Nerode.LeastIsFirst | src/nerode.rs:158 | the first of the sorted original ids is the least member of the class |
| Nerode.RenamedIntoItsClass | src/nerode.rs:147-161 | every old id is renamed to a state that lists it among its original ids |
| NetParser.ParsedBody | src/parser.rs:70-89 | the specification of the item loop: a successful parse ends after the closing brace, beyond its start |
| NetParser.ParsedState | src/parser.rs:65-91 | the specification of `parse_state`: a successful parse consumes at least one token and stays in the stream |
| NetParser.ParsedStates | src/parser.rs:105-113 | the specification of the state loop of `parse_machine` |
| NetParser.ParsedMachine | src/parser.rs:93-115 | the specification of `parse_machine` |
| NetParser.ParsedMachines | src/parser.rs:130-137 | the specification of the machine loop of `parse_mnet` |
| NetParser.ParsedNet | src/parser.rs:126-139 | the specification of `parse_mnet` |
| NetParser.Parser.LookaheadAt | src/parser.rs:6-9 | the lookahead is the token at the parser's position, or none at the end of the stream |
| NetParser.Parser.constructor | src/parser.rs:44-47 | a new parser holds the first token as lookahead |
| NetParser.Parser.LexNext | src/parser.rs:45 | the lexer hands out the next token or nothing at the end |
| NetParser.Parser.Advance | src/parser.rs:57-63 | `advance` returns the old lookahead and moves one token on, and does nothing at the end of the stream |
| NetParser.Parser.Expect | src/parser.rs:17-31 | `expect!` succeeds exactly when the lookahead is the expected token, and then consumes it |
| NetParser.Parser.ExpectNumber | src/parser.rs:67 | succeeds exactly when the lookahead is a number, then returns its value and consumes it |
| NetParser.Parser.ParseState | src/parser.rs:65-91 | the method returns what the specification parses and stops where it stops |
| NetParser.Parser.ParseBody | src/parser.rs:70-89 | the item loop returns what the specification parses and stops where it stops |
| NetParser.Parser.ParseItem | src/parser.rs:71-84 | one item (`initial;`, `final;` or `x -> N;`) moves on and leaves the rest of the parse as the specification says; an item that fails makes the whole body fail |
| NetParser.Parser.ParseMachine | src/parser.rs:93-115 | the method returns what the specification parses and stops where it stops; a lowercase name is refused |
| NetParser.Parser.ParseMachineFile | src/parser.rs:117-124 | the result is the machine the file specification parses, followed by the end of the file |
| NetParser.Parser.ParseMnet | src/parser.rs:126-139 | the method returns what the specification parses and stops where it stops |
| NetParser.Parser.ParseMnetFile | src/parser.rs:141-148 | the result is the net the file specification parses, followed by the end of the file |
| NetParser.TransitionsDetermined | src/parser.rs:80-83 | transitions are determined by their labels and destinations |
| NetParser.BodyReads | src/parser.rs:70-89 | in a parsed state body, the state ends up initial or final exactly when the body says so, and its transitions are the body's `x -> N` items in order |
| NetParser.FlagReads | src/parser.rs:71-76 | the same for a body that starts with `initial;` or `final;` |
| NetParser.ArrowReads | src/parser.rs:77-84 | the same for a body that starts with `x -> N;` |
| NetParser.StateReads | src/parser.rs:65-91 | a parsed state starts with `state N {` and ends with `}`; it is initial or final exactly when the keyword occurs inside; its transition labels and destinations are the body's identifiers and numbers in order |
| NetParser.StatesKeepName | src/parser.rs:103-112 | appending states does not change the machine's name |
| NetParser.MachineNamed | src/parser.rs:95-102 | a parsed machine is named by the uppercase letter after `machine` |
| NetParser.MachinesNamed | src/parser.rs:130-136 | every machine the net loop appends has an uppercase name |
| NetParser.NetNamed | src/parser.rs:141-148 | every machine of a parsed net file has an uppercase name |
| NetParser.TransitionsRoundTrip | src/parser.rs:77-89 | printed transitions and a closing brace parse back to exactly those transitions, appended in order |
| NetParser.StateRoundTrip | src/parser.rs:65-91 | a printed state parses back to itself and stops right after it |
| NetParser.FlagsRoundTrip | src/parser.rs:71-76 | the printed flags set exactly the flags of the state |
| NetParser.StatesRoundTrip | src/parser.rs:105-113 | printed states and a closing brace parse back to those states, appended in order |
| NetParser.MachineRoundTrip | src/parser.rs:93-115 | a printed machine with an uppercase name parses back to itself |
| NetParser.MachinesRoundTrip | src/parser.rs:130-137 | printed machines and a closing brace parse back to those machines, appended in order |
| NetParser.NetRoundTrip | src/parser.rs:126-139 | a printed net whose machines have uppercase names parses back to itself |
| NetParser.NetFileRoundTrip | src/parser.rs:141-148 | a file holding a printed net parses back to that net |
| NetParser.MachineFileRoundTrip | src/parser.rs:117-124 | a file holding a printed machine parses back to that machine |
| EpsilonElim.AddEdge | src/epsilon_elim.rs:39-44 | only the first state with the source id changes: the transition is appended unless it is already there. Flags and other states are unchanged, and the edge is present afterwards |
| EpsilonElim.AddEdgeNoDup | src/epsilon_elim.rs:39-44 | adding never makes a state's transitions contain a duplicate |
| EpsilonElim.ApplyEdges | src/epsilon_elim.rs:74-76 | adding the collected edges in order keeps the states and flags and only appends transitions. Every collected edge is present, and every appended transition is a collected edge |
| EpsilonElim.ApplyEdgesNoDup | src/epsilon_elim.rs:74-76 | applying edges never creates a duplicate transition |
| EpsilonElim.FindStateIsLookup | src/fsm.rs:28-35 | where the id exists, the linear search finds the first state with that id |
| EpsilonElim.FindState | src/fsm.rs:28-35 | the state found carries the id searched for; it is one of the states when the id exists, and otherwise the stand-in state with no transitions and no flags |
| EpsilonElim.HopsMembers | src/epsilon_elim.rs:21-25 | the innermost loop lists exactly the second steps of the requested kind, each as source, label and final destination |
| EpsilonElim.PathsOfMembers | src/epsilon_elim.rs:18-26 | the loops over one state's transitions list exactly the two-step paths of the requested shape from that state |
| EpsilonElim.AllPathsMembers | src/epsilon_elim.rs:17-28 | the collected list holds exactly the edges short-cutting a two-step path of the requested shape (epsilon then epsilon, epsilon then labelled, labelled then epsilon) |
| EpsilonElim.AllPathsSound | src/epsilon_elim.rs:17-28 | every collected edge short-cuts some path of the shape |
| EpsilonElim.AllPathsComplete | src/epsilon_elim.rs:17-28 | every path of the shape is collected |
| EpsilonElim.ClosurePathsSound | src/epsilon_elim.rs:17-28 | every edge the closure collects is an epsilon move from a state of the machine to an epsilon destination |
| EpsilonElim.AddEpsilonStep | src/epsilon_elim.rs:4-12 | adding an epsilon move keeps the ids and the epsilon destinations; a change adds a new epsilon pair |
| EpsilonElim.EpsPairsBound | src/epsilon_elim.rs:14-36 | the epsilon pairs lie in a fixed finite universe, so the closure's outer loop ends |
| EpsilonElim.QuietPassTransitive | src/epsilon_elim.rs:33-35 | a pass that adds nothing leaves every two-epsilon path short-cut by one epsilon move |
| EpsilonElim.ClosureStepClosed | src/epsilon_elim.rs:30-32 | adding a collected epsilon move keeps every destination existing |
| EpsilonElim.FinalSourcesMembers | src/epsilon_elim.rs:47-54 | the collected ids are exactly those of states with an epsilon move into a final state |
| EpsilonElim.InitialTargetsMembers | src/epsilon_elim.rs:81-90 | the collected ids are exactly the epsilon destinations of initial states |
| EpsilonElim.SetFlag | src/epsilon_elim.rs:56 | only the first state with the id gets the flag; no id, transition or other flag changes |
| EpsilonElim.SetFlags | src/epsilon_elim.rs:55-57 | after the marking loop, a state has the flag exactly when it had it or is the first state of a listed id |
| EpsilonElim.NonEpsilonMembers | src/epsilon_elim.rs:118-120 | the filter keeps exactly the transitions not labelled `_` |
| EpsilonElim.NonEpsilonAppend | src/epsilon_elim.rs:118-120 | the filter keeps the order of the transitions |
| EpsilonElim.NonEpsilonIdentity | src/epsilon_elim.rs:118-120 | a list without `_` is kept as is |
| EpsilonElim.CollectHops | src/epsilon_elim.rs:21-25 | the innermost loop collects the second steps of the requested kind |
| EpsilonElim.EpsilonMachine.constructor | src/fsm.rs:22-25 | the object holds the machine's name and states |
| EpsilonElim.EpsilonMachine.AddEpsilonTransition | src/epsilon_elim.rs:4-12 | returns true exactly when the source lacked the epsilon move, which it then has; the states become those of the edge addition |
| EpsilonElim.EpsilonMachine.AddTransition | src/epsilon_elim.rs:39-44 | the states become those of the edge addition |
| EpsilonElim.EpsilonMachine.CollectPaths | src/epsilon_elim.rs:17-28 | the loops collect every path of the shape, in order |
| EpsilonElim.EpsilonMachine.CollectPathsOf | src/epsilon_elim.rs:18-26 | the loops over one state collect its paths of the shape, in order |
| EpsilonElim.EpsilonMachine.AddAll | src/epsilon_elim.rs:74-76 | the collected edges are added in order |
| EpsilonElim.EpsilonMachine.ClosurePass | src/epsilon_elim.rs:16-35 | one pass keeps the states, flags and ids, adds only epsilon moves, and keeps every destination existing. A pass that reports no change changed nothing and leaves the epsilon relation transitive. A pass that reports a change added a new epsilon pair |
| EpsilonElim.EpsilonMachine.EpsilonTransClosure | src/epsilon_elim.rs:14-37 | the loop ends with the epsilon moves transitively closed, only epsilon moves added, and flags and ids unchanged |
| EpsilonElim.EpsilonMachine.CollectFinalSources | src/epsilon_elim.rs:47-54 | the loops collect the states with an epsilon move into a final state |
| EpsilonElim.EpsilonMachine.CollectInitialTargets | src/epsilon_elim.rs:81-90 | the loops collect the epsilon destinations of initial states |
| EpsilonElim.EpsilonMachine.SetFlagsAll | src/epsilon_elim.rs:55-57 | every listed id's first state gets the flag |
| EpsilonElim.EpsilonMachine.MarkNewFinal | src/epsilon_elim.rs:46-58 | exactly the states with an epsilon move into a state final before the pass become final |
| EpsilonElim.EpsilonMachine.MarkNewInitial | src/epsilon_elim.rs:80-94 | exactly the epsilon successors of states initial before the pass become initial |
| EpsilonElim.EpsilonMachine.BackwardPropagation | src/epsilon_elim.rs:60-78 | every path of an epsilon move then a labelled move is short-cut by a labelled move; only transitions are appended; exactly the states with an epsilon move into a final state become final. The new states are fully determined: the collected shortcut edges are added in order, and then the final flags are set |
| EpsilonElim.EpsilonMachine.ForwardPropagation | src/epsilon_elim.rs:96-114 | every path of a labelled move then an epsilon move is short-cut by a labelled move; only transitions are appended; exactly the epsilon successors of initial states become initial. The new states are fully determined: the collected shortcut edges are added in order, and then the initial flags are set |
| EpsilonElim.EpsilonMachine.RemoveEpsilonTrans | src/epsilon_elim.rs:116-123 | every state keeps exactly its transitions not labelled `_`, in order, and nothing else changes |
| EpsilonElim.WithShortcuts | src/epsilon_elim.rs:74-76 | adding all collected shortcuts keeps the states and only appends transitions; the result is still closed |
| EpsilonElim.PropagationDone | src/epsilon_elim.rs:74-77 | after adding the collected edges and marking, every path of the shape is short-cut |
| EpsilonElim.PropagationClosed | src/epsilon_elim.rs:74-76 | the edges a propagation adds are labelled and lead to existing states |
| EpsilonElim.MarkFinalAfterBackward | src/epsilon_elim.rs:74-77 | the labelled moves added first do not change which states `mark_new_final` marks |
| EpsilonElim.MarkInitialAfterForward | src/epsilon_elim.rs:110-113 | the labelled moves added first do not change which states `mark_new_initial` marks |
| Bmc.ConvertEdges | src/bmc.rs:56-65 | one converted edge per transition, in order |
| Bmc.ConvertEdge | src/bmc.rs:57-64 | a converted transition keeps its destination; `_` becomes exactly the empty regex, and a letter becomes a literal of that letter numbered one past the counter |
| Bmc.ConvertState | src/bmc.rs:55-74 | a converted state keeps its id and has neither flag; it has one edge per transition, plus a `_` edge to -2 exactly when it was final, and that edge comes last |
| Bmc.ConvertStates | src/bmc.rs:54-75 | one converted state per old state, in order |
| Bmc.ConvertTransitions | src/bmc.rs:55-65 | the transition loop converts `_` to the empty regex and numbers each letter with the next value of the counter |
| Bmc.NormalizeStates | src/bmc.rs:29-79 | the states of `from_machine` are the normalised machine |
| Bmc.NormalizedShape | src/bmc.rs:29-79 | the old states keep their ids and order, followed by the new initial state -1 and the new final state -2; only -1 is initial and only -2 is final |
| Bmc.ConvertStateAt | src/bmc.rs:53-75 | the counter runs on from one state to the next |
| Bmc.ConvertEdgeAt | src/bmc.rs:56-65 | each converted transition keeps its destination; `_` becomes the empty regex, a letter its literal numbered after the letters before it |
| Bmc.InitialEdgesMembers | src/bmc.rs:33-42 | state -1 has an empty-regex edge to exactly the initial states |
| Bmc.FinalEdge | src/bmc.rs:66-68 | a final old state gains one empty-regex edge to -2 after its own edges; a non-final state gains nothing |
| Bmc.ConvertEdgesIndices | src/bmc.rs:56-65 | the letters of one state are numbered consecutively from the counter on |
| Bmc.ConvertStatesIndices | src/bmc.rs:53-75 | the letters of the states are numbered consecutively across states |
| Bmc.NormalizedNumbering | src/bmc.rs:29-79 | the letters of the whole machine are numbered 1, 2, 3, … in the order of states and transitions |
| Bmc.Others | src/bmc.rs:136 | `retain` keeps the edges not going to the destination, and never adds any |
| Bmc.MergeEdges | src/bmc.rs:82-97 | the nested loops on one state's edges compute the merged edges |
| Bmc.MergeStep | src/bmc.rs:84-96 | one round of the outer loop absorbs, into edge `i`, the later edges to its destination |
| Bmc.MergedFrom | src/bmc.rs:84-96 | the merge from `i` on is edge `i` with the later parallel labels, then the merge of the remaining edges |
| Bmc.MergeInto | src/bmc.rs:85-95 | the inner loop folds every later edge to the same destination into edge `i`, removes those, and keeps every other edge in order |
| Bmc.Absorb | src/bmc.rs:87-91 | one step joins edge `j`'s label into edge `i` as a union and removes edge `j` |
| Bmc.DestsOthers | src/bmc.rs:136 | removing the edges to `d` removes exactly `d` from the destinations |
| Bmc.MergedDests | src/bmc.rs:81-99 | merging keeps the set of destinations |
| Bmc.MergedDistinct | src/bmc.rs:81-99 | after merging, no two edges of a state share a destination |
| Bmc.GatherIsUnion | src/bmc.rs:87-91 | the folded label is the left-nested union of the first label and the labels of the parallel edges |
| Bmc.MergedLabels | src/bmc.rs:81-99 | each merged edge is labelled by the left-nested union of the labels of all the original edges to its destination, in order |
| Bmc.BmcMachine.MergeParallelTransitions | src/bmc.rs:81-99 | every state's edges are merged, and nothing else changes |
| Bmc.Ids | src/bmc.rs:135 | the ids of the states, in order |
| Bmc.IndexOf | src/bmc.rs:112 | the position of the first state with the id |
| Bmc.EdgesInto | src/bmc.rs:111 | the edges of one state into the id, each paired with that state's id |
| Bmc.TransitionsTo | src/bmc.rs:111 | every listed pair is an edge into the id with the id of an existing state as source |
| Bmc.TransitionsToMembers | src/bmc.rs:111 | `transitions_to` lists exactly the edges into the id, each paired with its source's id |
| Bmc.TransitionsToHas | src/bmc.rs:111 | every edge into the id is listed, paired with its source's id |
| Bmc.Costs | src/bmc.rs:104-107 | one cost per state |
| Bmc.BestIn | src/bmc.rs:102-107 | `min_by_key` over the inner states: None exactly when there is none; otherwise the first inner state of least cost |
| Bmc.BmcMachine.ChooseBestState | src/bmc.rs:101-108 | None exactly when every state is initial or final; otherwise the id of the first inner state whose cost (in-edges from other states times out-edges to other states) is least |
| Bmc.Bypass | src/bmc.rs:124-131 | one bypass edge per outgoing edge: the entry label then the edge's label, to the edge's destination |
| Bmc.NewEdges | src/bmc.rs:117-133 | each incoming pair gets its source and its bypass edges, the entry label passing through the self-loop's star when there is one |
| Bmc.Retarget | src/bmc.rs:135-137 | rewiring one source keeps the ids |
| Bmc.Rewire | src/bmc.rs:134-138 | rewiring every pair keeps the ids |
| Bmc.CollectNewEdges | src/bmc.rs:116-133 | the first loop of `eliminate` collects the bypass edges of every incoming pair |
| Bmc.BypassEdges | src/bmc.rs:124-131 | the inner loop builds the bypass edges |
| Bmc.BmcMachine.FromMachine | src/bmc.rs:29-79 | `from_machine` makes generation 1 of the normalised machine, under the old machine's name |
| Bmc.BmcMachine.RewireAll | src/bmc.rs:134-138 | every source drops its edges into the eliminated state and gains its bypass edges |
| Bmc.BmcMachine.Eliminate | src/bmc.rs:110-141 | defined for an existing state with at most one self-loop, as the assertion demands; the states become those of the elimination, and the generation goes up by one |
| Bmc.OthersMembers | src/bmc.rs:136 | the kept edges are exactly those not going to the destination |
| Bmc.IntoMembers | src/bmc.rs:114 | the loop edges are exactly those going to the state itself |
| Bmc.OthersAppend | src/bmc.rs:136 | `retain` distributes over concatenation |
| Bmc.OthersNone | src/bmc.rs:136 | edges that avoid the destination are all kept |
| Bmc.WithoutStateMembers | src/bmc.rs:139 | the states removed are exactly those with the eliminated id |
| Bmc.FlatForMembers | src/bmc.rs:134-138 | the new edges of a source are exactly the edges of its pairs |
| Bmc.RetargetAt | src/bmc.rs:134-138 | with distinct ids, rewiring one source changes only that state: its edges into the eliminated state are dropped and the new ones appended |
| Bmc.RewireAt | src/bmc.rs:134-138 | with distinct ids, after all pairs a source has its edges avoiding the state plus all its new edges in order; other states are unchanged |
| Bmc.RetargetTwice | src/bmc.rs:134-138 | a source met again only gains its new edges |
| Bmc.BypassPairsAvoid | src/bmc.rs:113-133 | no new edge goes to the eliminated state |
| Bmc.SourceIff | src/bmc.rs:117-138 | with distinct ids, a state gets new edges exactly when it has an edge into the eliminated state |
| Bmc.FlatForBypassed | src/bmc.rs:117-133 | with distinct ids, the new edges of a state are exactly its bypass edges. Each bypass edge is an edge into the eliminated state, then through the self-loop's star, then an edge out of it to another state |
| Bmc.RewiredState | src/bmc.rs:134-138 | with distinct ids, every state after the rewiring keeps its id and flags, its edges avoiding the eliminated state, and gains its bypass edges |
| Bmc.EliminateRewires | src/bmc.rs:110-141 | every other state survives the elimination, rewired as above |
| Bmc.EliminateRemoves | src/bmc.rs:110-141 | after the elimination no state has the eliminated id and no edge enters it |
| RegLang.SetProd | src/reg_lang.rs:26-34 | the product holds exactly the pairs drawn from `a` and `b`, it has size(a) times size(b) of them, and it is empty exactly when one of the sets is |
| RegLang.ProdCard | src/reg_lang.rs:26-34 | the product of two sets has size(a) times size(b) pairs |
| RegLang.RowCard | src/reg_lang.rs:29-31 | the inner loop inserts as many pairs as `b` has members |
| RegLang.ProdSplit | src/reg_lang.rs:28-32 | one round of the outer loop adds a row disjoint from the pairs before |
| RegLang.NumberedFollowers | src/reg_lang.rs:45-54 | the map has an entry for exactly the numbered terminals, and `f` follows `t` exactly when `(t, f)` is a digram |
| RegLang.EmptyEntries | src/reg_lang.rs:47-49 | an empty entry for exactly the given terminals |
| RegLang.AddDigrams | src/reg_lang.rs:50-52 | the keys stay, and each entry gains exactly the second members of the digrams starting with its key |
| BerrySethi.NewState | src/berry_sethi.rs:30-33 | a new state has no transitions and is final exactly when its label is |
| BerrySethi.CollectTransitions | src/berry_sethi.rs:35-40 | the sorted, duplicate-free characters of the label's terminals, exactly those characters |
| BerrySethi.Shift | src/berry_sethi.rs:42-49 | the shifted label holds exactly the followers of the label's terminals named `c`, and is final exactly when one of those terminals is final |
| BerrySethi.ShiftWithin | src/berry_sethi.rs:42-49 | a shifted label only holds followers |
| BerrySethi.BSMachine.constructor | src/berry_sethi.rs:69 | a named machine without states |
| BerrySethi.BSMachine.LookupState | src/fsm.rs:28-35 | the first state with the id |
| BerrySethi.BSMachine.SetTransitions | src/berry_sethi.rs:92 | only the transitions of the first state with the id change |
| BerrySethi.BSMachine.Insert | src/berry_sethi.rs:53-65 | a label already present returns the id of its first state and changes nothing; otherwise the state is appended with its position as id |
| BerrySethi.InsertFound | src/berry_sethi.rs:58-60 | an `insert` that finds the label keeps the states consistent and the transition points at the state with that label |
| BerrySethi.InsertAppended | src/berry_sethi.rs:61-64 | an `insert` of a new label appends an unexpanded state that the new transition points at |
| BerrySethi.InsertShifts | src/berry_sethi.rs:86-90 | one transition per shift, on its character, to the state carrying the shifted label; the old states are untouched and the new ones are all targets without transitions |
| BerrySethi.Dests | src/berry_sethi.rs:91 | the destinations of the transitions, in order |
| BerrySethi.ExpandState | src/berry_sethi.rs:81-92 | expanding a state keeps the states consistent, gives it exactly one transition per character to the state of each shift, and adds only targets of those transitions |
| BerrySethi.ReplaceTransitionsOk | src/berry_sethi.rs:92 | setting the transitions of one state keeps the states consistent and every label |
| BerrySethi.NewTargets | src/berry_sethi.rs:86-91 | every state the shifts added is in the destinations pushed on the worklist and is labelled by a shift |
| BerrySethi.ExpandedAfter | src/berry_sethi.rs:81-92 | after the shifts and the transitions are stored, the state is expanded |
| BerrySethi.BuildSkip | src/berry_sethi.rs:75-78 | popping a visited id keeps the worklist invariant |
| BerrySethi.ExpandedStable | src/berry_sethi.rs:74-93 | expansion survives appending states and setting the transitions of other states |
| BerrySethi.StepWithin | src/berry_sethi.rs:42-49 | every label stays within the initial terminals and the followers |
| BerrySethi.StepWorklist | src/berry_sethi.rs:75-91 | the worklist names only existing states |
| BerrySethi.StepCoverage | src/berry_sethi.rs:75-91 | every state is visited or still waiting |
| BerrySethi.BuildStep | src/berry_sethi.rs:74-93 | one round of the worklist loop keeps the invariant |
| BerrySethi.FlagFamilyMembers | src/berry_sethi.rs:7-10 | the family holds exactly the terminal sets of the states with that final flag |
| BerrySethi.FlagFamilyCard | src/berry_sethi.rs:53-65 | with distinct labels, the two families together have one member per state |
| BerrySethi.StatesBound | src/berry_sethi.rs:53-65 | distinct labels over the terminals `u` allow at most twice 2 to the power of the number of terminals in `u` states, which is why the loop ends |
| BerrySethi.BuildStart | src/berry_sethi.rs:69-73 | the first `insert` sets up the worklist invariant |
| BerrySethi.BerrySethiImpl | src/berry_sethi.rs:68-95 | the machine `b` has state 0 with the initial label as its only initial state, ids by position, finality from the labels, distinct labels, every state expanded, and at most twice 2 to the power of the number of terminals in `u` states |
| BerrySethi.BerrySethi | src/berry_sethi.rs:97-103 | the construction on the local sets of an expression, with the same guarantees: state 0 initial, ids by position, distinct labels, every state expanded, and at most twice 2 to the power of the number of initial terminals and followers states |
| BerrySethi.ExpandedDeterministic | src/berry_sethi.rs:35-40 | the machine is deterministic: the transitions of every state are on strictly increasing characters, to existing states |
| BerrySethi.ExpandedLabels | src/berry_sethi.rs:82-90 | a state has a transition on `c` exactly when one of its terminals is named `c` |
| BerrySethi.ExpandedTarget | src/berry_sethi.rs:82-90 | the target of a transition on `c` holds exactly the followers of the terminals named `c`, and is final exactly when one of those is final |
| Regex.Precedence | src/regex.rs:16-23 | leaves bind tightest (0), then the postfix operators (-1), then concatenation (-2), then union (-3) |
| Regex.DisplayLetters | src/regex.rs:34-58 | with literals that are not the printer's own characters, dropping the parentheses and operators from the printed text leaves exactly the literals, left to right |
| Regex.ChildLetters | src/regex.rs:25-31 | an operand, grouped or not, prints its literals in order |
| Regex.LettersAppend | src/regex.rs:34-58 | the printer's pieces are joined without changing their letters |
| Regex.LettersWrap | src/regex.rs:27 | parentheses add no letters |
| Regex.LettersOperator | src/regex.rs:37-54 | `_`, `*`, `+` and the bar add no letters |
| Regex.DisplayBalanced | src/regex.rs:34-58 | the printed text has balanced parentheses and no spaces |
| Regex.ChildBalanced | src/regex.rs:25-31 | an operand prints balanced, with or without its group |
| Regex.DepthAppend | src/regex.rs:34-58 | the nesting depth of joined pieces adds up |
| Regex.BalancedAppend | src/regex.rs:47-55 | joining balanced pieces stays balanced |
| Regex.BalancedWrap | src/regex.rs:27 | a balanced text in parentheses stays balanced |
| Regex.NoParensBalanced | src/regex.rs:37-38 | a leaf prints without parentheses, hence balanced |
| Regex.NoParensDepth | src/regex.rs:37-38 | a text without parentheses has depth 0 |
| Regex.PlainLiteralsParts | src/regex.rs:6-13 | the operands of a regex with plain literals have plain literals |
| Regex.Interval | src/regex/parser.rs:157-160 | the numbers from `lo` up to `hi`, one per literal |
| Regex.IntervalAt | src/regex/parser.rs:157-160 | the `k`-th literal number is `lo + k` |
| Regex.IntervalAppend | src/regex/parser.rs:180-208 | consecutive runs of numbers join into one |
| Regex.JoinIndices | src/regex/parser.rs:180-208 | joining two consecutively numbered operands numbers the whole consecutively |
| Regex.IntervalDistinct | src/regex/parser.rs:157-160 | no two literals share a number |
| RegexParser.FromChar | src/regex/parser.rs:27-52 | every character gives a token at its offset: a literal exactly for ASCII lowercase letters, a symbol token exactly for its own symbol, and an invalid token for everything else |
| RegexParser.Utf8Len | src/regex/parser.rs:61-63 | a character takes one to four bytes of UTF-8 |
| RegexParser.AsciiOffsets | src/regex/parser.rs:69-76 | token locations are byte offsets, which equal positions only over ASCII text |
| RegexParser.SkipWs | src/regex/parser.rs:69-76 | the lexer skips exactly the ASCII whitespace before the next character |
| RegexParser.TokensAt | src/regex/parser.rs:69-76 | one token per listed position |
| RegexParser.NonWs | src/regex/parser.rs:69-76 | the positions after `p` that hold something other than whitespace |
| RegexParser.NonWsSkips | src/regex/parser.rs:69-76 | the next non-whitespace position is where the lexer stops |
| RegexParser.LexTokens | src/regex/parser.rs:56-77 | the lexer yields one token per character that is not whitespace, in order, each at that character's byte offset |
| RegexParser.Parser.constructor | src/regex/parser.rs:120-124 | the parser starts with the first token as lookahead and the literal counter at 0 |
| RegexParser.Parser.LexNext | src/regex/parser.rs:69-76 | the lexer reads the next token and moves past it; it yields none only at the end of the text |
| RegexParser.Parser.Advance | src/regex/parser.rs:138-144 | hands back the lookahead and reads the next token; at the end of the text nothing changes |
| RegexParser.NextToken | src/regex/parser.rs:69-76 | the lexer yields a token exactly when something other than whitespace is left |
| RegexParser.NextPos | src/regex/parser.rs:69-76 | the lexer stops at the end of the text or just past the first character after the whitespace it skipped |
| RegexParser.Lex | src/regex/parser.rs:56-77 | at most one token per character, and no token exactly when only whitespace is left |
| RegexParser.LexStep | src/regex/parser.rs:69-76 | the token sequence is the next token followed by the tokens after it |
| RegexParser.NonWsCount | src/regex/parser.rs:69-76 | the number of tokens read before a position is at most that position |
| RegexParser.LexAt | src/regex/parser.rs:69-76 | a whitespace character adds no token; any other character adds its own token in front |
| RegexParser.LexSuffix | src/regex/parser.rs:69-76 | the tokens from a position on are the whole token sequence less the tokens before that position |
| RegexParser.NextTokenIndex | src/regex/parser.rs:69-76 | the token read from a position is the next unread token of the whole sequence, and there is none exactly when all have been read |
| RegexParser.Parser.LookaheadAt | src/regex/parser.rs:120-144 | the lookahead is the token at the parser's index into the whole token sequence, and there is none exactly at its end |
| RegexParser.ReadTerm | src/regex/parser.rs:146-165 | `(` reads a union closed by `)`; `[` reads a union closed by `]` as that union or the empty word; `_` reads the empty regex; a letter reads a literal with the next number; anything else is an error. A term always consumes a token |
| RegexParser.ReadGroup | src/regex/parser.rs:147-154 | a group fails when its union fails or is not followed by the closing bracket, and otherwise consumes up to and including that bracket |
| RegexParser.GroupStep | src/regex/parser.rs:147-154 | the three cases of a group: a failing union, a missing closing bracket, and a closed group that reads as its union |
| RegexParser.ReadPostfix | src/regex/parser.rs:168-177 | the trailing `*` and `+` each wrap everything before them, so `a*+` is `(a*)+`; the loop stops only before a token that is neither |
| RegexParser.PostfixStep | src/regex/parser.rs:168-177 | one turn of the postfix loop: `*` wraps in a star, `+` in a plus, anything else stops |
| RegexParser.ReadStar | src/regex/parser.rs:167-178 | a term followed by its postfix operators; it fails exactly when the term fails, and stops only before a token that is neither `*` nor `+` |
| RegexParser.ReadConcatStep | src/regex/parser.rs:183-191 | one turn of the concatenation loop: an optional `.` and then a star, joined on the right of what came before |
| RegexParser.ReadConcatRest | src/regex/parser.rs:181-195 | the loop goes on while the lookahead is `.` or starts a term, joining each star on the right, so `abc` groups as `(ab)c`; it stops only before a token that can do neither |
| RegexParser.ReadConcat | src/regex/parser.rs:180-196 | a star and then the concatenation loop; it fails when the first star fails, and stops only before a token that cannot continue it |
| RegexParser.ReadUnionStep | src/regex/parser.rs:201-203 | one turn of the union loop: the bar and then a concatenation, joined on the right of what came before |
| RegexParser.ReadUnionRest | src/regex/parser.rs:199-207 | the loop goes on while the lookahead is the bar, so a chain of three alternatives groups to the left and a concatenation always sits below a union; it stops only before a token that is not the bar and cannot continue a concatenation |
| RegexParser.ReadUnion | src/regex/parser.rs:198-208 | a concatenation and then the union loop; it fails when the first concatenation fails |
| RegexParser.ReadRegexFrom | src/regex/parser.rs:210-222 | no token at all reads as the empty regex; otherwise the union must use up every token, and a trailing token is an error |
| RegexParser.ReadRegex | src/regex/parser.rs:210-222 | a blank text reads as the empty regex, the literals of a result are numbered 1, 2, 3, … from left to right, and a text whose first token cannot start a term is rejected |
| RegexParser.TermNumbers | src/regex/parser.rs:157-160 | a term numbers its literals consecutively from the counter it starts with |
| RegexParser.GroupNumbers | src/regex/parser.rs:147-154 | a group numbers its literals consecutively from the counter it starts with |
| RegexParser.PostfixNumbers | src/regex/parser.rs:168-177 | `*` and `+` do not change the numbers of their operand |
| RegexParser.StarNumbers | src/regex/parser.rs:167-178 | a star numbers its literals consecutively from the counter it starts with |
| RegexParser.ConcatStepNumbers | src/regex/parser.rs:183-191 | one concatenation step appends the numbers of the new operand to those of the left one |
| RegexParser.ConcatRestNumbers | src/regex/parser.rs:181-195 | the concatenation loop appends consecutive numbers to those of the left operand |
| RegexParser.ConcatNumbers | src/regex/parser.rs:180-196 | a concatenation numbers its literals consecutively from its starting counter |
| RegexParser.UnionStepNumbers | src/regex/parser.rs:201-203 | one union step appends the numbers of the new operand to those of the left one |
| RegexParser.UnionRestNumbers | src/regex/parser.rs:199-207 | the union loop appends consecutive numbers to those of the left operand |
| RegexParser.UnionNumbers | src/regex/parser.rs:198-208 | a union numbers its literals consecutively from its starting counter |
| RegexParser.RegexFromNumbers | src/regex/parser.rs:210-222 | a whole regex numbers its literals consecutively from its starting counter |
| RegexParser.Parser.ParseTerm | src/regex/parser.rs:146-165 | the tree, the token index and the literal counter afterwards are exactly those of the grammar rule `ReadTerm`, and an error is an error there too; a success consumes input |
| RegexParser.Parser.ParseGroup | src/regex/parser.rs:147-154 | the tree, token index and counter are those of `ReadGroup`, so a missing closing bracket is an error; a success consumes input |
| RegexParser.Parser.ParseStar | src/regex/parser.rs:167-178 | the tree, token index and counter are those of `ReadStar` |
| RegexParser.Parser.ParseConcat | src/regex/parser.rs:180-196 | the tree, token index and counter are those of `ReadConcat` |
| RegexParser.Parser.ParseConcatOperand | src/regex/parser.rs:183-191 | the tree, token index and counter are those of one step `ReadConcatStep` |
| RegexParser.Parser.ParseUnion | src/regex/parser.rs:198-208 | the tree, token index and counter are those of `ReadUnion` |
| RegexParser.Parser.ParseUnionOperand | src/regex/parser.rs:201-203 | the tree, token index and counter are those of one step `ReadUnionStep` |
| RegexParser.Parser.ParseRegex | src/regex/parser.rs:210-222 | the result is that of `ReadRegexFrom`; a success has used up the whole text |
| RegexParser.Parse | src/regex/parser.rs:210-222 | the result is exactly the grammar reading `ReadRegex` of the text: a blank text reads as the empty regex, the literals of a result are numbered 1, 2, 3, … from left to right, and a text that starts with a token that cannot start a term is rejected |
| RegexRoundTrip.CharValues | src/regex/parser.rs:56-77 | the characters other than whitespace, each as its token value; no more values than characters |
| RegexRoundTrip.CharValuesAppend | src/regex/parser.rs:56-77 | lexing two texts one after the other gives the two value sequences one after the other |
| RegexRoundTrip.CharValuesOne | src/regex/parser.rs:27-52 | a printed character that is not whitespace lexes to its own token value |
| RegexRoundTrip.LexValues | src/regex/parser.rs:56-77 | the lexer's tokens from a position, value for value, are the characters after it that are not whitespace |
| RegexRoundTrip.LexDisplay | src/regex.rs:25-58 | the text `Display` prints lexes to the regex's token spelling, brackets and operators included |
| RegexRoundTrip.LexChild | src/regex.rs:44-57 | an operand, parenthesised or not, lexes to its token spelling |
| RegexRoundTrip.FirstStarts | src/regex.rs:25-58 | a printed regex starts with a token that starts a term |
| RegexRoundTrip.ChildStarts | src/regex.rs:44-57 | a printed operand starts with a token that starts a term |
| RegexRoundTrip.OccursSplit | src/regex/parser.rs:180-208 | two spellings side by side sit one after the other in the tokens |
| RegexRoundTrip.OccursFirst | src/regex/parser.rs:146-165 | a spelling that sits at an index starts with the token there |
| RegexRoundTrip.OccursSuffix | src/regex/parser.rs:180-208 | every suffix of the tokens sits where it starts |
| RegexRoundTrip.NumberedParts | src/regex/parser.rs:180-208 | consecutive numbers over two operands split into consecutive numbers for each |
| RegexRoundTrip.StopPostfix | src/regex/parser.rs:168-177 | the postfix loop stops at once on a token other than `*` and `+` |
| RegexRoundTrip.StopConcat | src/regex/parser.rs:181-195 | the concatenation loop stops at once on a token that is not `.` and cannot start a term |
| RegexRoundTrip.StopUnion | src/regex/parser.rs:199-207 | the union loop stops at once on a token other than the bar |
| RegexRoundTrip.ConcatFirst | src/regex/parser.rs:180-196 | a concatenation is its first star and the loop after it |
| RegexRoundTrip.UnionFirst | src/regex/parser.rs:198-208 | a union is its first concatenation and the loop after it |
| RegexRoundTrip.ConcatAfterStar | src/regex/parser.rs:180-196 | a star with no postfix operator after it starts the concatenation loop |
| RegexRoundTrip.GroupNext | src/regex/parser.rs:147-154 | a group is the union after its opening bracket when the closing bracket follows |
| RegexRoundTrip.UnionNext | src/regex/parser.rs:201-203 | on the bar the union loop joins one more concatenation on the right |
| RegexRoundTrip.LeafReads | src/regex/parser.rs:155-160 | a printed `_` or lowercase letter reads as itself, a letter taking the next number |
| RegexRoundTrip.StarReads | src/regex/parser.rs:167-178 | a printed readable operand, parenthesised as under a `*`, reads as that operand and leaves the postfix loop right after it |
| RegexRoundTrip.PostfixOperandReads | src/regex/parser.rs:167-178 | a printed `*` or `+` regex read as an operand extends its operand's postfix loop by one operator |
| RegexRoundTrip.StarFirst | src/regex/parser.rs:167-178 | a star is a term and the postfix loop after it |
| RegexRoundTrip.BracketsSplit | src/regex/parser.rs:147-154 | a bracketed spelling is the opening bracket, the spelling and the closing bracket |
| RegexRoundTrip.GroupReads | src/regex/parser.rs:147-150 | `(` followed by a printed readable regex and `)` reads as that regex with its literals' numbers |
| RegexRoundTrip.GroupCloses | src/regex/parser.rs:147-154 | an opening bracket, a printed readable regex and the closing bracket read as that regex |
| RegexRoundTrip.OptionReads | src/regex/parser.rs:151-154 | `[` followed by a printed readable regex and `]` reads as the union of that regex with the empty word |
| RegexRoundTrip.ConcatNext | src/regex/parser.rs:181-195 | on a `.` or a term the concatenation loop joins one more star on the right |
| RegexRoundTrip.RightOperandSpelled | src/regex.rs:44-57 | a right operand of a concatenation that is not itself one is printed as it would be under a `*` |
| RegexRoundTrip.ConcatStepReads | src/regex/parser.rs:181-195 | a printed readable right operand advances the concatenation loop by one join |
| RegexRoundTrip.ConcatReads | src/regex/parser.rs:180-196 | a printed readable regex read as a concatenation is the regex itself, with the loop left just after it |
| RegexRoundTrip.ConcatPairReads | src/regex/parser.rs:180-196 | a printed readable concatenation reads as its left operand with its right operand joined on |
| RegexRoundTrip.LeftGroupReads | src/regex/parser.rs:180-196 | a union as the left operand of a concatenation is read inside its parentheses |
| RegexRoundTrip.UnionStepReads | src/regex/parser.rs:199-207 | a printed readable right operand advances the union loop by one join |
| RegexRoundTrip.UnionPairReads | src/regex/parser.rs:198-208 | a printed readable union reads as its left operand with its right operand joined on |
| RegexRoundTrip.UnionReads | src/regex/parser.rs:198-208 | a printed readable regex read as a union is the regex itself, with the loop left just after it |
| RegexRoundTrip.ReadsAs | src/regex/parser.rs:210-222 | a text reads as its token values do |
| RegexRoundTrip.LexBracketed | src/regex/parser.rs:56-77 | a bracketed printed regex lexes to the two brackets around its spelling |
| RegexRoundTrip.OccursWhole | src/regex/parser.rs:210-222 | the tokens sit at their own start |
| RegexRoundTrip.ReadsWhole | src/regex/parser.rs:210-222 | a text whose tokens all make up one union reads as that union |
| RegexRoundTrip.SpelledReads | src/regex/parser.rs:198-208 | tokens spelling a readable regex, and nothing else, read as that regex with every token used |
| RegexRoundTrip.ReadDisplay | src/regex/parser.rs:210-222 | the text the plain printer (src/regex.rs:25-58) writes for a readable regex numbered 1, 2, 3, … reads back as that same regex |
| RegexRoundTrip.TermIsWhole | src/regex/parser.rs:198-222 | a term that takes all the tokens is the whole union |
| RegexRoundTrip.ReadGrouped | src/regex/parser.rs:147-150 | parentheses around a printed readable regex read as the regex itself |
| RegexRoundTrip.ReadOptional | src/regex/parser.rs:151-154 | square brackets around a printed readable regex read as that regex or the empty word |
| RegexRoundTrip.ReadPrecedence | src/regex/parser.rs:167-208 | the bar binds loosest, then adjacency, then `*`: the text a, b, bar, c, star reads as the union of the concatenation of a and b with the star of c, numbered 1, 2, 3 |
| RegexRoundTrip.ReadParenthesised | src/regex/parser.rs:146-196 | parentheses override the binding: the union of a and b in parentheses followed by `c+` reads as the concatenation of that union with the plus of c |
| RegexRoundTrip.ReadLeftNested | src/regex/parser.rs:180-196 | concatenation groups to the left: `abc` reads as `(ab)c` |
| RegexFormatter.DigitChar | src/regex/formatter.rs:60 | the digit character of a value below ten |
| RegexFormatter.Decimal | src/regex/formatter.rs:60 | a literal's index is printed as a non-empty run of digits |
| RegexFormatter.DecimalRoundTrip | src/regex/formatter.rs:60 | the printed index reads back as the same number |
| RegexFormatter.RenderAppend | src/regex/formatter.rs:32-69 | writing two runs of symbols is writing the first, then the second after the first's last symbol |
| RegexFormatter.Formatter.constructor | src/regex/formatter.rs:108-112 | a formatter starts with an empty buffer, after `Ini` |
| RegexFormatter.Formatter.Write | src/regex/formatter.rs:32-69 | `write` appends the optional space and the symbol, and remembers the symbol's class |
| RegexFormatter.Formatter.FmtChild | src/regex/formatter.rs:71-79 | an operand is written, in parentheses when the parent binds tighter |
| RegexFormatter.Formatter.Fmt | src/regex/formatter.rs:81-103 | `fmt` appends what the regex's symbols render to and ends after its last symbol |
| RegexFormatter.OutIsRender | src/regex/formatter.rs:81-103 | what `fmt` writes is the rendering of the regex's symbol sequence |
| RegexFormatter.OutChildIsRender | src/regex/formatter.rs:71-79 | the same for an operand |
| RegexFormatter.TokensPostfix | src/regex/formatter.rs:85-92 | a star or plus renders as its operand followed by the operator |
| RegexFormatter.TokensConcat | src/regex/formatter.rs:93-96 | a concatenation renders as its operands one after the other |
| RegexFormatter.TokensUnion | src/regex/formatter.rs:97-101 | a union renders as its operands around the bar |
| RegexFormatter.RenderOne | src/regex/formatter.rs:32-69 | a single symbol renders as one `write` |
| RegexFormatter.RenderPostfix | src/regex/formatter.rs:85-92 | an operator after a run renders after the run's last symbol |
| RegexFormatter.RenderInfix | src/regex/formatter.rs:97-101 | an operator between two runs renders between them |
| RegexFormatter.ChildRenderGroup | src/regex/formatter.rs:72-75 | a grouped operand renders as `(`, the operand, then `)` |
| RegexFormatter.RenderGroup | src/regex/formatter.rs:72-75 | the group's pieces render one after the other |
| RegexFormatter.LastAppend | src/regex/formatter.rs:68 | the remembered class after two runs is the second run's last |
| RegexFormatter.ToPlainString | src/regex/formatter.rs:106-116 | the unnumbered formatter prints exactly what the plain printer of the regex prints |
| RegexFormatter.ToStringNumbered | src/regex/formatter.rs:118-128 | the numbered formatter's text |
| RegexFormatter.UnnumberedIsDisplay | src/regex/formatter.rs:32-103 | unnumbered, the formatter puts no spaces and agrees with the plain printer whatever came before |
| RegexFormatter.UnnumberedChild | src/regex/formatter.rs:71-79 | the same for an operand |
| RegexFormatter.GoodTokensAppend | src/regex/formatter.rs:81-103 | the written symbols stay well formed when runs are joined |
| RegexFormatter.TokensGood | src/regex/formatter.rs:81-103 | `fmt` never writes `Ini`, and each operator with its own character |
| RegexFormatter.Tokens | src/regex/formatter.rs:81-103 | `fmt` writes at least one symbol; the first is a literal or an opening parenthesis, and the last a literal, a closing parenthesis or a postfix operator |
| RegexFormatter.ChildTokens | src/regex/formatter.rs:71-79 | the same holds for an operand, whether it is grouped or not |
| RegexFormatter.ChildTokensGood | src/regex/formatter.rs:71-79 | the same for an operand |
| RegexFormatter.FirstNotSpace | src/regex/formatter.rs:33-36 | nothing is spaced after `Ini` |
| RegexFormatter.NumberedNoLeadingSpace | src/regex/formatter.rs:118-128 | the numbered text is never empty and does not start with a space |
| RegexFormatter.ChildTokensNonEmpty | src/regex/formatter.rs:71-79 | an operand always writes something |
| RegexFormatter.StripAppend | src/regex/formatter.rs:32-69 | removing spaces and digits distributes over joined text |
| RegexFormatter.StripDigits | src/regex/formatter.rs:60 | a printed index vanishes once digits are removed |
| RegexFormatter.StripEmit | src/regex/formatter.rs:32-69 | one numbered `write` without its spaces and digits is the unnumbered one |
| RegexFormatter.StripSingle | src/regex/formatter.rs:52 | a space or a digit is removed, any other character kept |
| RegexFormatter.StripRender | src/regex/formatter.rs:32-69 | a numbered run without its spaces and digits is the unnumbered run |
| RegexFormatter.NumberedStripsToDisplay | src/regex/formatter.rs:106-128 | the numbered text is the plain text with spaces and literal indices added |
| RegexFormatter.EmitShape | src/regex/formatter.rs:32-69 | a numbered `write` puts no space before a postfix operator, and none between two `(` or two `)` |
| RegexFormatter.RenderSpacing | src/regex/formatter.rs:32-69 | a numbered run keeps those spacing rules |
| RegexFormatter.RenderHead | src/regex/formatter.rs:32-69 | a run starts with its first piece |
| RegexFormatter.JoinSpacing | src/regex/formatter.rs:32-69 | joining pieces that keep the spacing rules keeps them, when the seam is clean |
| RegexFormatter.JoinNoSpaceBefore | src/regex/formatter.rs:47 | no space before an operator survives joining |
| RegexFormatter.JoinNoSpacedRepeat | src/regex/formatter.rs:41-46 | no `( (` or `) )` survives joining |
| RegexFormatter.Seam | src/regex/formatter.rs:41-46 | no `( (` or `) )` straddles two consecutive pieces |
| RegexFormatter.NumberedSpacing | src/regex/formatter.rs:118-128 | the numbered text puts no space before `*` or `+` and never spaces two `(` or two `)` apart |

## Left out

- The command-line driver in `src/main.rs` is not part of this model: it handles argument parsing, file reading and exit codes, which are I/O.
- The Graphviz text is not modelled: `src/fsm/dot_formatter.rs`, `src/mnet/dot_formatter.rs`, the HTML tables and edge strings of `PilotState::to_dot`/`Pilot::to_dot`, and the `DotFormat` of Berry–Sethi labels. These are string templates. Only their decisions are modelled: the merged candidate rows, the base/closure split and the double edges.
- Diagnostics are not modelled. This covers every `eprintln!`, including the caret display of both parsers' `emit_error`, the text of the conflict reports, and `dump_local_sets`. Only the returned booleans, options and counts are modelled; `ElrConflicts.CountConflicts` models the counts.
- `src/validation.rs` is a generic wrapper over implementations found elsewhere, so it is not part of this model.
- The net file lexer (`crate::lexer`) is not part of this model. The net parser reads an abstract token sequence.
- The lexer's token type, `transitions_to`, `lookup_state_mut` and a machine's `try_lookup_state` are not among the modelled sources. They appear as `NetParser.TokenValue`, `Bmc.TransitionsTo`, the `SetTransitions`/`SetFlag` updates of the first state with the id, and `Fsm.TryLookupState`.
- Integer widths are not modelled. Ids (`i32`) and counters (`usize`) are unbounded integers. The `as i32` casts in the two `insert`s would only wrap past 2^31 states.
- Iteration over `HashSet`/`HashMap` is modelled with an arbitrary element (`:|`), or through sets. This covers the closure's lookaheads, the branch order of Bron–Kerbosch, `set_prod` and `numbered_followers`. The contracts speak about membership only, never about that order.
- Sorting (`sort`/`sort_by_key`/`dedup`) is modelled as insertion into a strictly ordered sequence. The contracts state the result: sorted, duplicate-free, same members.
- The older copies in `src/elr_pilot.rs` of the net lookups, `followers`, a six-check validator and the conflict detectors are not modelled again. The copies in `src/mnet.rs`, `src/mnet/validation.rs` and `src/elr_pilot/conflicts.rs` are modelled instead.
- Panics are preconditions, not behaviour. This covers a missing machine or state in the lookups (`Fsm.LookupState`, `Mnet.LookupMachine`, `Mnet.NetLookupState`, `ElrPilot.Pilot.LookupState`, `BerrySethi.BSMachine.LookupState`). It also covers the `unwrap` in `numbered_followers` (`RegLang.NumberedFollowers` requires every digram to start with a numbered terminal) and the self-loop assertion of `eliminate` (`Bmc.BmcMachine.Eliminate`).
- ElrPilot.CreatePilot: requires a well-formed net that has state 0 of `S`. Every destination and every called machine must exist, which is what the lookups inside the construction rely on (see Findings).
- Mnet.Followers: proved equal to a recursive specification that mirrors the depth-first search with its visited cut-off, and proved to lie within the lookahead set plus the net's terminals. It is not claimed to be the least fixpoint of the follower equations.
- Nerode.BronKerbosch: proves soundness only, meaning every reported set is a maximal clique and earlier results are kept. That every maximal clique is reported is not proved.
- Nerode.Cliques: requires the graph to have no self-loops, which `Nerode.DistinctIdsNoSelfLoops` gives for machines with distinct state ids.
- Nerode.Representative: the member "any will do" picks is modelled as the least member of the class.
- Nerode.DistTableUpdate: the count is a `nat`, so `usize` overflow is not modelled. The early `continue` on a pair already in the table is folded into the condition of the same step.
- EpsilonElim.SetFlag: like `lookup_state_mut`, it marks only the first state with the id. Machines with repeated ids are therefore not treated specially.
- EpsilonElim.FindState: a missing destination gives a stand-in state without transitions where the toolkit would panic. The stand-in is never reached in a machine whose destinations exist.
- Bmc.BmcMachine.FromMachine: BMC state labels are not kept. The machine keeps only its name and generation counter, not the HTML label text.
- Regex.Display: `src/regex.rs` has `Literal(char)` without an index. The model shares one `Regex` datatype with the numbered parser and formatter, and the plain printer ignores the index.
- RegexRoundTrip.ReadDisplay: the round trip is proved for regexes whose literals are lowercase ASCII letters numbered 1, 2, 3, … from left to right, and in which no right operand of a concatenation is a concatenation and no right operand of a union is a union. The reader groups both operators to the left, so a right-grouped tree prints like its left-grouped twin and reads back as that twin. Other literals are not letters to the lexer, and the reader renumbers literals from 1.
- NetParser.Parser.ParseState: a `StateLabel`'s `id` equals the state id and is not stored separately. The machine name (`m_name`) set on every state's label is not stored on states, since the machine holding them carries it.
- Several loops are split into one helper method per loop body: `Nerode.UpdateRow`, `ElrPilot.ShiftAt`/`ElrPilot.RecordShift`, `NetParser.Parser.ParseItem`, `RegexParser.Parser.ParseConcatOperand`/`ParseUnionOperand`, `Bmc.MergeInto` and others. Each is tied to the loop it models by the contracts above.

## Findings

| source | as written | input that shows it | evidently intended | confidence | as-written member | corrected member |
|---|---|---|---|---|---|---|
| src/mnet/validation.rs:106-116 | `validate` accepts a net whose machine has no state 0. None of the seven checks requires state 0 to exist, yet `create_pilot` starts with `lookup_state('S', 0)` (src/elr_pilot.rs:441). | a net with one machine `S` holding only state 1, final, without transitions | every machine has its initial state 0, as the machine validator demands of machines with `validate_any_initial_state` | not executed | MnetValidation.ValidNetMayLackInitialState | MnetValidation.ValidateWithInitialStates, with MnetValidation.ValidatedNetIsWellFormed and MnetValidation.MachineHasStateZero |
