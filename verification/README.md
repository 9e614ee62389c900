# Sohara: a verified model

Sohara runs record-processing flows, and a control plane with one agent per node
keeps instances of those flows in the state an operator asked for. This project
models the parts whose correctness spans many functions or a whole run, and
proves what they promise: the expression language, the flow graph and its
executor, the plane/agent protocol and the supervisor below it, the relay
mailbox, the linear pipeline and the gateway's choice of targets.

`dafny verify dfyconfig.toml` checks everything. One module models one component:

| module | models |
|---|---|
| `Json`, `Payload`, `Numbers` | JSON values, dot paths on payloads, naturals |
| `Ast`, `Lexer`, `Grammar`, `Parsing`, `Printer`, `Readings` | the expression language: tokens, the parser, a printer, the round trip, and what texts are read as |
| `Eval`, `EvalLaws`, `MapStep` | evaluation, its frame and its laws, the map and filter steps |
| `Graph`, `Reachability`, `Flow` | cycle checks, reachability, route wiring and graph assembly |
| `Join`, `Batch`, `Delivery`, `StepState`, `Turns` | what the executor's buffers, markers, states and retries do over whole runs |
| `Routing`, `Walks`, `Runs` | what each step hands on, what a walk may change, and whole runs, as relations |
| `Logs`, `Ledgers` | the history of a run, and what buffers, states and the store owe to it |
| `Execution` | the executor in place: the recursive walk with all of these |
| `Pipeline` | the linear pipeline |
| `Supervisor`, `Plane`, `Agent` | one supervised instance, the plane's registry, the node agent |
| `Protocol`, `Convergence` | plane and agents as one system with a lossy network; how fast it settles |
| `Relay` | the mailbox and the bridge that pulls from it |
| `Gateway` | eligible targets, hash order and round robin |

Code that computes a value is a function; code that updates things step by step
is a method or a class, proved against such a function. What the outside world
answers (transforms, sinks, stores, spawns, posts, probes, clocks, the iteration
order of hash maps) is arbitrary: a parameter or a nondeterministic choice. Each
evaluation of an expression has its own moment (clock, random id, environment),
so what a step hands on is a relation; it is a function where the conditions are
steady, that is, call none of `now`, `uuid` and `env`.

Findings that the theorems make exact:

- The keyword `not` is recognised only where a `not` expression may start, so
  `"a" + not(x)` calls a function named `not`, although the documented grammar
  (sohara-core/src/expr/mod.rs:3-5) lists it only as an operator (`Printer.NotNamesAFunctionAfterAnOperator`; the image of
  the parser is `Printer.ParsedIffPrintable`).
- The runtime cycle check also rejects edges that start at an unknown id
  (`Graph.CheckAcyclic`).
- An acknowledgement names no node, so it can clear another node's command,
  which is then never executed (`Protocol.AcknowledgedElsewhere`); this is the
  only way to lose one (`Protocol.NothingLost`).
- An agent does not acknowledge a skipped command again. So once a command is
  executed and its acknowledgement lost, the operation is withheld from the
  instance until an acknowledgement with the same number happens to arrive from
  another node (`Protocol.LostAckBlocks`, with a run in `Protocol.StuckReached`
  and `Protocol.StoppedForGood`; then it is issued again, `Convergence.AckUnblocks`).
- An explicit idempotency key that spells the hash text of another payload
  suppresses that record (`Delivery.SameKeyIff`).
- A key is sent exactly as often as a send of it slipped, by a crash, a failed
  mark or a marker that could not be loaded, and once more if it is marked
  (`Delivery.SentExactly`, with a duplicate in `Delivery.SentTwice`).
- With one record in flight, a loop step on a steady condition runs to its limit
  or not at all, because nothing below it changes the state it reads
  (`Walks.SteadyLoop`); on a condition that asks for the time it can stop after
  any number of rounds (`Routing.ClockStopsLoop`).
- The code flushes batch buffers in the order of a hash map. Upstream first
  leaves them all empty (`Runs.FlushEmpties`). A node without condition, size
  limit or window that is flushed before one with an unconditional route to it
  ends up filled again if that one has something to flush
  (`Runs.DownstreamFirstRefills`, with a run in `Execution.RefillReached`).
- The plane moves a subscriber's cursor even when its response is lost, so what
  a lost response carried never reaches the bridge (`Relay.LostForGood`).
- A step that updates state without declaring any forgets it on every resume
  (`StepState.UndeclaredForgets`).
- The supervisor is at rest between steps exactly while no pause or resume post
  is accepted without a process (`Supervisor.RunSettledIff`), and such a post can
  be reached (`Supervisor.StrayPostReached`).

## Model

| member | source | states |
|---|---|---|
| `Lexer.Scan` | sohara-core/src/expr/token.rs:36-50 | the tokenizer loop returns exactly the tokens of the specification, or fails with it |
| `Lexer.ScanToken` | sohara-core/src/expr/token.rs:52-106 | one token: same token, same rest of the input, same failures |
| `Lexer.ReadString` | sohara-core/src/expr/token.rs:108-127 | quoted text with escapes; fails exactly on a missing closing quote |
| `Lexer.ReadNumber` | sohara-core/src/expr/token.rs:129-140 | takes the longest run of digits and dots; fails on more than one dot |
| `Lexer.ReadIdent` | sohara-core/src/expr/token.rs:142-149 | takes the longest identifier |
| `Lexer.TokenizeRender` | sohara-core/src/expr/token.rs:36-149 | writing well-formed tokens, with spaces only where two would run together, and tokenizing gives the same tokens back |
| `Lexer.TokenizeWellFormed` | sohara-core/src/expr/token.rs:36-149 | the tokenizer yields only well-formed tokens |
| `Parsing.Parser.ParseOr` | sohara-core/src/expr/parser.rs:60-68 | the left-associative `or` loop agrees with the grammar on result and remaining input |
| `Parsing.Parser.ParseAnd` | sohara-core/src/expr/parser.rs:70-78 | the same for `and` |
| `Parsing.Parser.ParseUnary` | sohara-core/src/expr/parser.rs:80-86 | the same for prefix `not` |
| `Parsing.Parser.ParseCmp` | sohara-core/src/expr/parser.rs:88-114 | the same for comparisons and `in` |
| `Parsing.Parser.ParseAdd` | sohara-core/src/expr/parser.rs:116-132 | the same for sums |
| `Parsing.Parser.ParseMul` | sohara-core/src/expr/parser.rs:134-151 | the same for products |
| `Parsing.Parser.ParseAtom` | sohara-core/src/expr/parser.rs:153-167 | the same for literals, parentheses, lists, paths and calls |
| `Parsing.Parser.ParseCall` | sohara-core/src/expr/parser.rs:183-200 | the same for calls, whose name decides how arguments are read |
| `Parsing.Parser.ParseNameCall` | sohara-core/src/expr/parser.rs:202-214 | `env` and `var` take one name or text and nothing else |
| `Parsing.Parser.ParseItems` | sohara-core/src/expr/parser.rs:235-249 | comma-separated items up to the closing symbol, no trailing comma |
| `Parsing.Parser.ParseIdentPath` | sohara-core/src/expr/parser.rs:216-223 | a bare identifier path and the input left after it |
| `Parsing.Parser.ParseDollarPath` | sohara-core/src/expr/parser.rs:225-233 | a path after a dollar sign needs at least one segment |
| `Parsing.ParseText` | sohara-core/src/expr/parser.rs:10-18 | the whole parser returns the expression of the grammar and rejects left-over tokens |
| `Printer.ParsePrint` | sohara-core/src/expr/parser.rs:10-250 | every printable expression, printed with parentheses only where precedence and left associativity need them, parses back to itself |
| `Printer.ParsedIffPrintable` | sohara-core/src/expr/parser.rs:10-250 | an expression is the parse of some text if and only if it is printable |
| `Printer.PrintKeepsParse` | sohara-core/src/expr/parser.rs:10-250 | reprinting any text that parses keeps its meaning |
| `Printer.PrintInjective` | sohara-core/src/expr/parser.rs:10-250 | two different printable expressions never print alike |
| `Printer.NotNamesAFunctionAfterAnOperator` | sohara-core/src/expr/parser.rs:80-86 | a concrete text in which `not` is parsed as the name of a function |
| `Readings.Precedence` | sohara-core/src/expr/parser.rs:60-151 | of two operators between any operands the second takes the middle one exactly if it binds tighter (or < and < comparisons and in < + - < * / %), else the first does, so operators of one kind are taken from the left |
| `Readings.NotPrecedence` | sohara-core/src/expr/parser.rs:80-86 | prefix `not` takes everything up to an `and` or `or` |
| `Readings.SumOfProduct` | sohara-core/src/expr/parser.rs:116-151 | `a + b * c` is the sum of a and a product |
| `Readings.DifferenceOfProduct` | sohara-core/src/expr/parser.rs:116-151 | `a * b - c` is the difference of a product and c |
| `Readings.NotOfComparison` | sohara-core/src/expr/parser.rs:80-114 | `not a == b` negates the comparison |
| `Readings.GroupMeans` | sohara-core/src/expr/parser.rs:153-167 | in parentheses any expression is an operand |
| `Readings.NameMeans` | sohara-core/src/expr/parser.rs:169-223 | a name other than the constants and `not` is the path of one segment |
| `Readings.NumeralMeans` | sohara-core/src/expr/parser.rs:153-167 | a numeral is the number it writes |
| `Readings.TextMeans` | sohara-core/src/expr/token.rs:108-127 | a text in quotes, without quotes and backslashes inside, stands for itself |
| `Readings.EscapedMeans` | sohara-core/src/expr/token.rs:108-127 | a backslash takes the next character as it is |
| `Readings.ConstantMeans` | sohara-core/src/expr/parser.rs:169-181 | `true`, `false` and `null` are these values |
| `Readings.ListReads` | sohara-core/src/expr/parser.rs:235-249 | a list holds its items in the order written |
| `Readings.PairReads` | sohara-core/src/expr/parser.rs:235-249 | the same for two items, written out |
| `Readings.CallReads` | sohara-core/src/expr/parser.rs:183-200 | a call has its name and its arguments in the order written |
| `Readings.NamedReads` | sohara-core/src/expr/parser.rs:202-214 | `env` and `var` take a bare name as text |
| `Readings.PathReads` | sohara-core/src/expr/parser.rs:216-233 | a path has its segments in the order written, with or without a dollar sign in front |
| `Readings.CharactersAre` | sohara-core/src/expr/token.rs:129-149 | which characters names and numerals are made of |
| `Readings.WholePartIs` | sohara-core/src/expr/parser.rs:153-167 | the digits of a whole part are its decimal value |
| `Payload.Lookup` | sohara-core/src/record.rs:75-82 | the get loop finds the value at a path, or nothing |
| `Payload.Insert` | sohara-core/src/record.rs:84-106 | the set loop computes the set function, creating objects and stopping at a non-object |
| `Payload.SetThenGet` | sohara-core/src/record.rs:75-106 | a set is read back, unless a non-object blocks it, and then nothing changes at all |
| `Payload.SetFrame` | sohara-core/src/record.rs:75-106 | a set changes no path that does not overlap it |
| `Payload.SetCommutes` | sohara-core/src/record.rs:84-106 | sets at paths that do not overlap commute |
| `Payload.SegmentsAreParts` | sohara-core/src/record.rs:75-106 | the segments of a path, put together with dots, are the path, and none contains a dot |
| `Payload.SegmentsOfParts` | sohara-core/src/record.rs:75-106 | there is no other way to cut a path into parts without dots |
| `Eval.EvaluateFrame` | sohara-core/src/expr/eval.rs:28-103 | setting a path an expression does not read changes neither its value nor its failure |
| `Eval.SteadyEvaluates` | sohara-core/src/expr/eval.rs:28-208 | an expression that calls none of `now`, `uuid` and `env` has the same value, or failure, at every moment |
| `Eval.ShowsTimeValue` | sohara-core/src/expr/eval.rs:177-201 | an expression whose value is the time shown at its moment |
| `EvalLaws.AndMeans` | sohara-core/src/expr/eval.rs:59-64 | `and` is true if both operands hold, false if the first falls, whatever the second does, and fails exactly if an operand that is needed fails |
| `EvalLaws.OrMeans` | sohara-core/src/expr/eval.rs:66-71 | the same for `or` |
| `EvalLaws.NotMeans` | sohara-core/src/expr/eval.rs:33-33 | `not` is true exactly for a value that is `false` or `null` |
| `EvalLaws.DeMorgan` | sohara-core/src/expr/eval.rs:59-71 | De Morgan's laws, failures included |
| `EvalLaws.ListMeans` | sohara-core/src/expr/eval.rs:51-57 | a list has the values of its items in order and fails if one of them does |
| `EvalLaws.InMeans` | sohara-core/src/expr/eval.rs:73-87 | `in` asks for an equal element of a list and fails on anything else |
| `EvalLaws.CompareMeans` | sohara-core/src/expr/eval.rs:36-40 | a comparison gets both operands in the order written |
| `EvalLaws.ArithmeticMeans` | sohara-core/src/expr/eval.rs:114-150 | so does arithmetic |
| `EvalLaws.LiteralMeans` | sohara-core/src/expr/eval.rs:30-30 | a literal is its value |
| `EvalLaws.PathMeans` | sohara-core/src/expr/eval.rs:94-103 | a path is followed field by field from the front; anything missing fails |
| `EvalLaws.NamesMean` | sohara-core/src/expr/eval.rs:210-232 | `var` reads a flow variable, `env` the environment; both fail on a name that is not set |
| `EvalLaws.MomentMeans` | sohara-core/src/expr/eval.rs:196-208 | `now` and `uuid` answer from the moment and take no argument |
| `EvalLaws.ConversionsMean` | sohara-core/src/expr/eval.rs:177-194 | a conversion sees its argument's value; an unknown function fails |
| `EvalLaws.LastArgumentCounts` | sohara-core/src/expr/eval.rs:164-194 | of several arguments all are evaluated and the last one counts |
| `MapStep.Transform` | sohara-builtins/src/transforms.rs:113-130 | the map loop is evaluation and assignment in sequence, then the projection |
| `MapStep.Keeps` | sohara-builtins/src/transforms.rs:54-68 | the filter's decision, with inversion and failure |
| `MapStep.SequenceIsAtOnce` | sohara-builtins/src/transforms.rs:114-119 | when no expression reads an earlier target the loop is simultaneous assignment against the original record, failures included, each expression evaluated at its own moment |
| `MapStep.EarlierTargetIsRead` | sohara-builtins/src/transforms.rs:114-119 | a concrete step that reads an earlier target, where the two differ |
| `MapStep.OrderDoesNotMatter` | sohara-builtins/src/transforms.rs:114-119 | with disjoint targets and independent expressions every order of the fields gives the same payload, or fails |
| `MapStep.TargetsHoldTheirValues` | sohara-builtins/src/transforms.rs:114-119 | after such a step every unblocked target holds its expression's value on the original record, and nothing outside the targets has changed |
| `MapStep.ProjectHolds` | sohara-builtins/src/transforms.rs:120-129 | a projection has exactly the listed fields that exist, each with its value |
| `Graph.IndegreeMap` | sohara-runtime/src/routes.rs:67-80 | one in-degree per id, every parallel route counted |
| `Graph.LowerAll` | sohara-runtime/src/routes.rs:41-66 | lowering the in-degrees of a popped node never goes below zero and queues exactly the nodes that reach zero |
| `Graph.PopAll` | sohara-runtime/src/routes.rs:41-66 | the pop order is topological, and every node left over has a predecessor left over |
| `Graph.CheckAcyclic` | sohara-runtime/src/routes.rs:41-66 | the runtime check accepts exactly the acyclic multigraphs whose edges start at known ids |
| `Graph.CheckConfigAcyclic` | sohara-config/src/validate.rs:141-178 | the configuration check accepts exactly the acyclic multigraphs, for every adjacency map |
| `Graph.RankFalls` | sohara-runtime/src/routes.rs:41-66 | the rank from a topological order falls along every edge |
| `Graph.TopologicalIsAcyclic` | sohara-runtime/src/routes.rs:41-66 | a graph with a topological order has no cycle |
| `Graph.SourcelessHasCycle` | sohara-runtime/src/routes.rs:41-66 | a finite set of nodes that all have a predecessor in it contains a cycle |
| `Reachability.Reach` | sohara-runtime/src/warnings.rs:50-64 | the search terminates with exactly the reflexive-transitive closure of its starts |
| `Reachability.Adjacencies` | sohara-runtime/src/warnings.rs:32-48 | the two maps hold the same edges, reversed |
| `Reachability.Unreachable` | sohara-runtime/src/warnings.rs:12-30 | the two warnings name exactly the nodes no source reaches and those from which no sink can be reached |
| `Flow.WireRoutes` | sohara-runtime/src/graph.rs:215-288 | the loops give each id its chain or edge routes followed by the targets its control step names; fails exactly on a condition that does not parse |
| `Flow.WireChain` | sohara-runtime/src/graph.rs:215-250 | without edges the steps form a chain, skipping those that route explicitly |
| `Flow.ChainIs` | sohara-runtime/src/graph.rs:219-231 | without edges each step leads to the next, unless it routes explicitly |
| `Flow.EdgesLead` | sohara-runtime/src/graph.rs:232-248 | each edge leads from its start to its end, in the order declared, on its own condition |
| `Flow.ExplicitIffTargets` | sohara-runtime/src/graph.rs:249-297 | switches, parallel steps and loops with a body route explicitly, and which targets they name |
| `Flow.WiredIs` | sohara-runtime/src/graph.rs:215-288 | configured routes come first, then the targets the step names, without condition |
| `Flow.ReadCondition` | sohara-runtime/src/graph.rs:233-241 | the condition of an edge is the parse of its text; fails exactly when there is a text that does not parse |
| `Flow.CountIncoming` | sohara-runtime/src/routes.rs:10-18 | incoming counts are in-degrees of the wired multigraph |
| `Flow.ValidateTargets` | sohara-runtime/src/routes.rs:21-38 | accepts exactly when every target is known and no route loops on its node |
| `Flow.AssembleNodes` | sohara-runtime/src/graph.rs:157-184 | builds every node with its routes and incoming count; fails exactly on a sink with routes |
| `Flow.Assemble` | sohara-runtime/src/graph.rs:70-87 | assembly accepts exactly the buildable configurations |
| `Flow.AcceptedMeans` | sohara-runtime/src/graph.rs:70-87 | a flow is buildable exactly if every condition parses, routes join known steps, no walk along routes returns to its start and no sink has a route |
| `Flow.NodesAre` | sohara-runtime/src/graph.rs:157-184 | a built node is the configured step with its wired routes; its incoming count is zero exactly if nothing leads to it |
| `Flow.BuiltIsRanked` | sohara-runtime/src/graph.rs:70-87 | in an accepted graph every target the interpreter can walk to is a wired route, and the pop order ranks it lower |
| `Flow.NeverBack` | sohara-runtime/src/walker.rs:14-111 | no walk from a node's target comes back to the node |
| `Join.JoinChunks` | sohara-runtime/src/control.rs:205-231 | for each correlation the arrivals are released in order, exactly a threshold at a time |
| `Join.JoinCounts` | sohara-runtime/src/control.rs:205-231 | k arrivals release k / T groups and leave k mod T |
| `Join.ParallelJoinsOnce` | sohara-runtime/src/control.rs:205-231 | b arrivals of a correlation at a join of incoming count b release exactly one group: those arrivals in order |
| `Join.CopiesJoinOnce` | sohara-runtime/src/control.rs:205-231 | whatever waits, as many copies of one arrival as the threshold release exactly one more group: what waited, filled up with copies |
| `Join.MergeRecords` | sohara-runtime/src/control.rs:233-248 | the merge loop computes the merge |
| `Join.MergedFields` | sohara-runtime/src/control.rs:233-248 | each merged field comes from the last object that holds it; a first record that is no object wins outright |
| `Join.AnyReleasesEach` | sohara-runtime/src/control.rs:205-231 | a join in mode any sends each record on alone |
| `Join.ModesRelease` | sohara-runtime/src/control.rs:205-231 | in mode n, or all, it sends on a group for every n records, or for as many as it has incoming routes |
| `Batch.BatchKeepsOrder` | sohara-runtime/src/control.rs:250-295 | over every run, emitted batches and buffer concatenate to the arrivals in order; no batch is empty; the buffer stays below max(size, 1) |
| `Batch.FlushEmitsAll` | sohara-runtime/src/runner.rs:84-95 | after a flush everything that arrived has been emitted |
| `Batch.UnlimitedKeepsAll` | sohara-runtime/src/control.rs:250-279 | without a size limit or window everything that arrives between flushes stays in the buffer |
| `Batch.BatchesAreFull` | sohara-runtime/src/control.rs:250-279 | without a window, batches that arrivals complete hold exactly as many records as the size limit says |
| `Batch.WindowReleases` | sohara-runtime/src/control.rs:250-279 | once the window has passed an arrival releases what has been waiting, but the first since the last batch does not |
| `Batch.BatchRecordHolds` | sohara-runtime/src/control.rs:284-295 | a batch goes on as an object whose one field is the list of its payloads in order |
| `Batch.BatchItems` | sohara-runtime/src/control.rs:284-295 | the items of the records that batches go on as are the payloads of all batched records in order |
| `Delivery.SentExactly` | sohara-runtime/src/persist.rs:82-100 | over every sequence of runs, crashes and resumes the sends of a key are exactly those that slipped (a crash or failed mark after them, or a marker that could not be loaded) and one more if the key is marked |
| `Delivery.SentTwice` | sohara-runtime/src/persist.rs:82-100 | a run that sends a key twice: whenever the first send is not marked, or its marker is not loaded |
| `Delivery.SentAtLeastOnce` | sohara-runtime/src/walker.rs:39-69 | a record that reaches a sink without a send error has its key sent |
| `Delivery.SameKeyIff` | sohara-runtime/src/persist.rs:168-175 | records share a key exactly under one run id with the same explicit key, or the same payload hash where neither has one, or where one key spells the other's hash |
| `Delivery.SuppressedByTwin` | sohara-runtime/src/persist.rs:82-100 | a record is suppressed only because one of the same identity was sent and marked before under the same run id |
| `Delivery.ResumesKeepRunId` | sohara-runtime/src/persist.rs:185-203 | every resume that can load the store runs under the id of the first run |
| `StepState.ComputeState` | sohara-runtime/src/control.rs:126-156 | the update loop computes the new state; a failing expression changes nothing |
| `StepState.StateIsFold` | sohara-runtime/src/persist.rs:33-54 | for a declared state, memory and store are always folds of the state step from the declared value over arrivals with their own clock readings, over all failed saves, checkpoints, crashes and resumes |
| `StepState.SteadyNewState` | sohara-runtime/src/control.rs:126-156 | steady updates do not depend on when they are made |
| `StepState.ResumesLoseNothing` | sohara-runtime/src/persist.rs:205-226 | while the store works, memory is the fold over all completed updates, however often the run is resumed |
| `StepState.MemoryIsFold` | sohara-runtime/src/persist.rs:33-54 | within a run memory is the fold of what arrived from what the run began with, declared or not, whatever is saved meanwhile |
| `StepState.VisibleMeans` | sohara-runtime/src/persist.rs:22-31 | beside a state, `record` is the payload and `state` the state; without one the payload is seen itself |
| `StepState.NewStateFrom` | sohara-runtime/src/control.rs:126-156 | a step without a state starts from an empty object |
| `StepState.UpdatesSucceed` | sohara-runtime/src/control.rs:126-156 | an update succeeds exactly if all its expressions have a value on the state before the step |
| `StepState.UpdatesSetFields` | sohara-runtime/src/control.rs:126-156 | the last update of a field gives it its value; other fields keep theirs |
| `Routing.SteadySelects` | sohara-runtime/src/walker.rs:85-111 | with steady conditions what is selected is exactly the routes whose conditions hold, in order |
| `Routing.SteadyChooses` | sohara-runtime/src/control.rs:22-29 | with steady cases a switch can choose exactly the first that holds, else the default |
| `Routing.RoundsAre` | sohara-runtime/src/control.rs:55-71 | a loop stops at the first moment its condition fails, or at its limit |
| `Routing.ClockStopsLoop` | sohara-runtime/src/control.rs:55-71 | on a condition that asks for the time a loop can stop after any number of rounds up to its limit |
| `Routing.SteadySource` | sohara-runtime/src/runner.rs:41-65 | with steady conditions a source hands on exactly the selected routes of its records |
| `Routing.ConditionMeans` | sohara-runtime/src/walker.rs:85-111 | a condition holds if there is none, or if its value is neither `false` nor `null` |
| `Routing.SelectedIs` | sohara-runtime/src/walker.rs:85-111 | the selection is made route by route, in order, each on its condition |
| `Routing.ChosenIsFirst` | sohara-runtime/src/control.rs:22-29 | a switch chooses the first case that holds, and the default if none does |
| `Routing.ChildrenCarry` | sohara-runtime/src/control.rs:30-54 | the i-th child of a foreach carries the i-th item in the named field, or in `item`, and else what the record carries |
| `Routing.LoopHands` | sohara-runtime/src/control.rs:55-71 | in n rounds a loop hands the record to its body n times and nothing else |
| `Routing.SourceHandsOne` | sohara-runtime/src/runner.rs:41-65 | a source hands on nothing for an error, and along the selected routes for a record its condition lets in |
| `Routing.SourceHandsItems` | sohara-runtime/src/runner.rs:41-65 | and so on item by item |
| `Turns.TriesFailed` | sohara-runtime/src/executor.rs:123-202 | every call of a transform before the last failed, and a last failure has used up the retries |
| `Turns.RetriesAre` | sohara-runtime/src/executor.rs:123-202 | a turn ends with the first call that does not fail, or with the last its policy allows: one, or with retries as many more |
| `Turns.NextTurn` | sohara-runtime/src/executor.rs:123-202 | a further turn takes the calls its retries need, is counted if it filters the record, and stops the run exactly if it fails and its policy is not to continue |
| `Walks.SteadyPasses` | sohara-runtime/src/walker.rs:85-111 | along steady routes a step hands a record to exactly those whose conditions hold |
| `Walks.SteadySwitch` | sohara-runtime/src/control.rs:22-29 | a switch on steady cases hands the record to the first that holds, else to the default |
| `Walks.SteadyLoop` | sohara-runtime/src/control.rs:55-71 | a loop on a steady condition runs to its limit if the condition holds on its own state, else not at all |
| `Walks.SteadyTransform` | sohara-runtime/src/executor.rs:138-170 | along steady routes what a transform passes on goes to those whose conditions hold, and anything filtered or failed nowhere |
| `Walks.ParallelHands` | sohara-runtime/src/control.rs:72-89 | a parallel step hands every branch the record, in order and under one correlation |
| `Walks.SteadyBatch` | sohara-runtime/src/control.rs:250-295 | a batch step sends each batch that became due as one record to those routes whose conditions hold |
| `Walks.SteadyJoin` | sohara-runtime/src/control.rs:205-231 | a join sends each merged record to those routes whose conditions hold |
| `Walks.SteadyUpdate` | sohara-runtime/src/control.rs:126-156 | a state step takes the new state and sends the record on, or neither |
| `Ledgers.MovedSound` | sohara-runtime/src/walker.rs:85-111 | handing a record on leaves everything sound with one move due to land |
| `Ledgers.JoinedSound` | sohara-runtime/src/control.rs:205-231 | a join step keeps the ledger sound: the record lands, enters its group, and a full group is released |
| `Ledgers.BatchedSound` | sohara-runtime/src/control.rs:250-279 | a batch step keeps the ledger sound: the record lands and enters the buffer, and a complete batch is emitted |
| `Ledgers.FlushedSound` | sohara-runtime/src/runner.rs:84-95 | a flush keeps the ledger sound |
| `Ledgers.FiledSound` | sohara-runtime/src/persist.rs:104-115 | parking keeps the ledger sound: the record lands and waits if the store took it |
| `Ledgers.TriedSound` | sohara-runtime/src/walker.rs:39-69 | a delivery attempt keeps the ledger sound |
| `Ledgers.TurnSound` | sohara-runtime/src/executor.rs:123-202 | a transform step keeps the ledger sound: the record lands and gets one turn, the last one if it stops the run |
| `Ledgers.UpdatedSound` | sohara-runtime/src/control.rs:126-156 | a state step keeps the ledger sound: the record lands, and its payload arrives at the state, which becomes what that makes it |
| `Ledgers.CheckpointSound` | sohara-runtime/src/persist.rs:57-75 | a checkpoint keeps the ledger sound |
| `Ledgers.OpenedSound` | sohara-runtime/src/executor.rs:46-70 | a run starts sound on whatever explained store earlier runs left |
| `Ledgers.LeavesStartable` | sohara-runtime/src/persist.rs:205-226 | whatever a run leaves in the store, at any time, the next run can start on |
| `Logs.UnconditionalAdmits` | sohara-runtime/src/walker.rs:14-83 | a node without a condition admits everything that is moved to it |
| `Execution.Executor.constructor` | sohara-runtime/src/executor.rs:46-70 | an executor starts valid on whatever explained store an earlier run left, parked records included, each node's state loaded or not on its own |
| `Execution.Executor.Walk` | sohara-runtime/src/walker.rs:14-83 | every walk terminates, keeps all invariants, touches only nodes reachable from its start and does nothing where the condition fails; else it takes the record (a join, batch or approval logs exactly it, a transform gives it the next turn) and hands on what the step prescribes; it fails exactly if a transform has stopped the run |
| `Execution.Executor.HandOn` | sohara-runtime/src/walker.rs:85-111 | a record handed on is recorded and walked at its target before anything else happens |
| `Execution.Executor.Forward` | sohara-runtime/src/walker.rs:85-111 | a record goes along exactly the routes whose conditions hold when they are evaluated, in order; it fails exactly if a transform below has stopped the run |
| `Execution.Executor.Deliver` | sohara-runtime/src/walker.rs:39-69 | a sink makes one delivery attempt per record; processed follows the sends, and processed, duplicates and errors together grow by exactly one; a duplicate is counted only if a record with the same explicit key or hash was sent and marked before under the same run id, so any other record is offered to the sink |
| `Execution.Executor.ApplyTransform` | sohara-runtime/src/executor.rs:123-202 | a record the turn settles on passing goes along the routes, so do those of an expansion, in order; filtering and failure are counted, forward nothing and change nothing else; a failure stops the run unless the policy continues |
| `Execution.Executor.TryTransform` | sohara-runtime/src/executor.rs:123-202 | the retry loop settles on the first success or the failure after the last retry |
| `Execution.Executor.ApplySwitch` | sohara-runtime/src/control.rs:22-29 | the first case that holds gets the record, else the default; fails exactly if a transform has stopped the run |
| `Execution.Executor.ApplyForeach` | sohara-runtime/src/control.rs:30-54 | one child per item up to the limit, forwarded in order; fails exactly if a transform has stopped the run |
| `Execution.Executor.ApplyLoop` | sohara-runtime/src/control.rs:55-71 | one round for each evaluation of the condition that holds, up to the limit, the condition evaluated anew each round on the node's own state; fails exactly if a transform has stopped the run |
| `Execution.Executor.ApplyParallel` | sohara-runtime/src/control.rs:72-89 | every branch gets the record under one correlation, its own if it has one; fails exactly if a transform has stopped the run |
| `Execution.Executor.ApplyParallelIntoJoin` | sohara-runtime/src/control.rs:72-89 | one record through a parallel step whose branches are one join that waits for all of them and that nothing else feeds adds exactly one merged record |
| `Execution.Executor.ApplyJoin` | sohara-runtime/src/control.rs:205-231 | the record is logged as arrived under its correlation, and exactly the merged groups that became full are forwarded; fails exactly if a transform has stopped the run |
| `Execution.Executor.ApplyBatch` | sohara-runtime/src/control.rs:250-295 | the record is logged as arrived, and exactly the batches that became due are forwarded, as one record each; fails exactly if a transform has stopped the run |
| `Execution.Executor.ApplyState` | sohara-runtime/src/control.rs:126-156 | the record arrives at the state, which becomes the computed one, and goes on; if an expression fails neither happens and an error is counted; fails exactly if a transform has stopped the run |
| `Execution.Executor.ApplyApprove` | sohara-runtime/src/persist.rs:104-115 | with a store the record is logged and parked or counted as an error, and nothing goes on; without one it passes; fails exactly if a transform has stopped the run |
| `Execution.Executor.Park` | sohara-runtime/src/persist.rs:104-115 | a record the store takes waits behind the earlier ones; one it does not take is an error |
| `Execution.Executor.RunSource` | sohara-runtime/src/runner.rs:41-65 | every record of a source is put in, in order, and walked; every error item is counted; the source hands on exactly what its admitted records hand on; fails exactly if a transform has stopped the run |
| `Execution.Executor.FlushOne` | sohara-runtime/src/runner.rs:84-95 | a flushed buffer is empty and was handed on as one record along the routes; only what lies below the node changed besides; fails exactly if a transform has stopped the run |
| `Execution.Executor.FlushBatches` | sohara-runtime/src/runner.rs:84-95 | the buffers are flushed one after the other in the given order, each of them emitted; fails exactly if a transform has stopped the run |
| `Runs.FlushEmpties` | sohara-runtime/src/runner.rs:84-95 | if upstream nodes come first every buffer flushed stays empty |
| `Runs.DownstreamFirstRefills` | sohara-runtime/src/runner.rs:84-95 | in any order without repeats, if a batch node is flushed before one that has an unconditional route to it and something to flush, and it has no condition, size limit or window, its buffer is filled from then on to the end |
| `Execution.Executor.FlushDownstreamFirst` | sohara-runtime/src/runner.rs:84-95 | the same of a running executor, when nothing flushed earlier reaches the feeding node and that has something in its buffer |
| `Execution.RefillReached` | sohara-runtime/src/runner.rs:84-95 | such a run: a source, two batch nodes in a row, one record, the downstream one flushed first, and its buffer filled at the end |
| `Execution.Executor.EveryMoveLands` | sohara-runtime/src/walker.rs:14-111 | every record handed to a node or put in by a source has been walked there, in order |
| `Execution.Executor.JoinGuarantee` | sohara-runtime/src/control.rs:205-231 | every record a join admitted is in one of its groups: per correlation they are released in order, a threshold at a time, each group sent on merged, and the rest waits |
| `Execution.Executor.JoinsOnce` | sohara-runtime/src/control.rs:72-89 | once b records of a correlation were let in at a join of incoming count b, exactly one group was released for it: those b in order |
| `Execution.Executor.BatchGuarantee` | sohara-runtime/src/control.rs:250-295 | every record a batch node admitted is, in order, in one of its emitted batches or in its buffer; the items of the records it sent on, then the buffered payloads, are the payloads of all it admitted |
| `Execution.Executor.ApprovalGuarantee` | sohara-runtime/src/persist.rs:104-115 | what waits for approval is what waited before and every admitted record the store took |
| `Execution.Executor.DeliveryGuarantee` | sohara-runtime/src/walker.rs:39-69 | each record a sink admitted made one attempt, in order; over all resumed runs a key was sent exactly as often as it slipped and once more if marked, and at least once if an attempt of it met no send error |
| `Execution.Executor.SuppressionGuarantee` | sohara-runtime/src/persist.rs:82-100 | in the whole history an attempt was suppressed only because a record of the same identity was sent and marked before it under its run id |
| `Execution.Executor.StateGuarantee` | sohara-runtime/src/control.rs:126-156 | a state in memory is the fold of the node's updates over exactly the records it has admitted, in order and each with its own clock readings, from the state the run was started with |
| `Execution.Executor.ResumeGuarantee` | sohara-runtime/src/persist.rs:205-226 | while the store works, a declared state is the fold over every update that completed in any run so far |
| `Execution.Executor.TransformGuarantee` | sohara-runtime/src/executor.rs:123-202 | every record a transform admitted had one turn, in order; calls and filtered count their tries and their filtered ends; only the last can have stopped the run |
| `Execution.Executor.NeverStops` | sohara-runtime/src/executor.rs:123-202 | a flow without transforms is never stopped |
| `Execution.Executor.LeavesAStore` | sohara-runtime/src/persist.rs:185-226 | the next run can start on what this one leaves in the store, at any time |
| `Execution.RunFlow` | sohara-runtime/src/runner.rs:25-39 | a flow runs exactly if it can be built, on exactly the store, loads, transform, context and run id given; it ends well exactly if no transform stopped it and the sinks flushed; then every source put in all its records and all were walked, a source nothing else feeds handed on exactly what they hand on, every buffer was flushed along the trace, every state was saved last thing, and with upstream batch nodes first no buffer holds a record |
| `Pipeline.StageByStageIsDepthFirst` | sohara-core/src/pipeline.rs:107-125 | for pure transforms going stage by stage gives the same records in the same order and the same counts as taking each record depth first |
| `Pipeline.PassedThrough` | sohara-core/src/pipeline.rs:107-147 | a record that every stage passes on survives as what they make of it |
| `Pipeline.Ended` | sohara-core/src/pipeline.rs:107-147 | a stage that filters or fails a record ends it and is counted; an expansion sends each part on in order |
| `Pipeline.Run.ApplyOne` | sohara-core/src/pipeline.rs:128-147 | one call of a transform: what it passes on and what it counts |
| `Pipeline.Run.ApplyTransforms` | sohara-core/src/pipeline.rs:107-125 | the stage loop conserves records up to expansions and, for pure transforms, is the depth-first walk |
| `Pipeline.Run.ProcessRecord` | sohara-core/src/pipeline.rs:88-104 | every survivor is offered to the sink once, in order, and counted as processed or error |
| `Pipeline.Run.Over` | sohara-core/src/pipeline.rs:29-57 | a run that returns Ok satisfies processed + filtered + errors = source items + the sum over expansions of (size - 1), whatever the transforms and the sink do; for pure transforms the sink is offered the depth-first results |
| `Pipeline.Run.Collect` | sohara-core/src/pipeline.rs:60-85 | the collected records and counts are the depth-first ones, and conserved |
| `Supervisor.BackoffMonotone` | sohara-agent/src/policy.rs:11-18 | backoffs never shrink from attempt to attempt and are capped at 60 s |
| `Supervisor.BackoffIs` | sohara-agent/src/policy.rs:11-18 | a restart is allowed exactly while restarts are on and the budget lasts; the wait is the backoff times two to the attempts, at most ten counted, and at most a minute |
| `Supervisor.Instance.constructor` | sohara-agent/src/instance.rs:168-185 | supervision starts in the state its desired state asks for |
| `Supervisor.Instance.SpawnChild` | sohara-agent/src/process.rs:47-73 | spawning resolves the address once and ends running and healthy, or failed |
| `Supervisor.Instance.HandleCommand` | sohara-agent/src/process.rs:96-125 | the whole new state after a command |
| `Supervisor.Instance.RestartOrFail` | sohara-agent/src/process.rs:247-275 | the whole new state after a recovery |
| `Supervisor.Instance.ApplyHealth` | sohara-agent/src/process.rs:210-233 | the whole new state after a health report |
| `Supervisor.Instance.SuperviseTick` | sohara-agent/src/process.rs:163-194 | the whole new state after a tick |
| `Supervisor.CommandsDo` | sohara-agent/src/process.rs:96-125 | what each command does to an instance at rest |
| `Supervisor.TicksDo` | sohara-agent/src/process.rs:163-233 | what a tick does that needs no recovery: nothing where no probe is due, a good probe clears, a failed one counts |
| `Supervisor.RecoveriesDo` | sohara-agent/src/process.rs:235-275 | a recovery is counted, and spawns anew exactly within the budget |
| `Supervisor.NextSettledIff` | sohara-agent/src/process.rs:96-275 | from rest, a command or tick ends at rest (running, paused, stopped or failed; a child held exactly in the first two; failed is not healthy) if and only if it is not an accepted post without a child |
| `Supervisor.LaunchedSettledIff` | sohara-agent/src/instance.rs:168-185 | supervision starts at rest unless the pause of an instance that failed to spawn is accepted |
| `Supervisor.RunSettledIff` | sohara-agent/src/instance.rs:168-196 | a run is at rest between all its steps if and only if no stray post is accepted on the way |
| `Supervisor.NeverStopping` | sohara-agent/src/process.rs:171-178 | without stray posts the tick's stopping branch is unreachable |
| `Supervisor.StrayPostReached` | sohara-agent/src/process.rs:132-145 | a stray post can be reached: an instance launched stopped, with an address, whose pause is accepted |
| `Supervisor.RunCounts` | sohara-agent/src/process.rs:163-275 | the attempt and failure counters of every run follow its recoveries and probes |
| `Supervisor.RestartBudget` | sohara-agent/src/process.rs:247-275 | over every interleaving at most max(0, max_restarts - 1) automatic respawns happen, none with restarts off, with non-decreasing capped waits |
| `Supervisor.ProbeRestartNeedsFailures` | sohara-agent/src/process.rs:235-244 | a recovery by probe ends at least health_failures failed probes with no good probe or automatic respawn between |
| `Plane.Registry.ListDeclared` | sohara-plane/src/reconcile.rs:9-16 | the declarations of one node in map order |
| `Plane.Registry.EnqueueReconcile` | sohara-plane/src/reconcile.rs:19-40 | the loop numbers and queues one command per declared instance that needs one and has not asked already |
| `Plane.Registry.Heartbeat` | sohara-plane/src/registry.rs:160-182 | the whole new registry, the queued commands and the desired set returned |
| `Plane.Registry.Ack` | sohara-plane/src/registry.rs:185-190 | the number leaves the queue of every node |
| `Plane.EnqueuedAllExtends` | sohara-plane/src/reconcile.rs:19-40 | a reconcile only appends fresh consecutive numbers to its own node's queue, which stays ordered, and never issues what a queued command already asks |
| `Plane.WithoutKeeps` | sohara-plane/src/registry.rs:185-190 | an acknowledgement removes exactly its number and keeps the queue ordered |
| `Plane.OperationIs` | sohara-plane/src/reconcile.rs:77-108 | which operation an instance needs: never a restart, a start only where nothing runs, a stop only to stop |
| `Agent.NodeAgent.Execute` | sohara-agent/src/agent.rs:141-164 | the command reaches its manager, or is refused for an unknown instance |
| `Agent.NodeAgent.Dispatch` | sohara-agent/src/agent.rs:98-111 | the loop executes exactly the commands above the last number, in order, and acknowledges each |
| `Agent.NodeAgent.Reconcile` | sohara-agent/src/agent.rs:115-139 | the manager set becomes the reconciled one |
| `Agent.NodeAgent.HandleResponse` | sohara-agent/src/agent.rs:50-74 | one turn of the loop: the new agent and the acknowledgements sent; a failed heartbeat changes nothing |
| `Agent.AboveIs` | sohara-agent/src/agent.rs:98-111 | exactly the commands numbered above the last one are taken |
| `Agent.ExecutesAll` | sohara-agent/src/agent.rs:98-111 | an agent works off its whole inbox, in order |
| `Agent.ReconciledAt` | sohara-agent/src/agent.rs:115-139 | exactly the desired instances are managed, those managed before unchanged |
| `Agent.ReconciledLaunches` | sohara-agent/src/agent.rs:115-139 | an instance without a manager is launched in its desired state |
| `Protocol.NextKeeps` | sohara-plane/src/registry.rs:160-190 | every step of the lossy system keeps the protocol invariant of every node |
| `Protocol.HandledOnceInOrder` | sohara-agent/src/agent.rs:50-111 | in every run an agent executes each command at most once, in strictly increasing order and exactly as issued |
| `Protocol.QueueHasNoDuplicates` | sohara-plane/src/reconcile.rs:77-108 | in every run no two queued commands of a node share instance and operation |
| `Protocol.NothingLost` | sohara-plane/src/registry.rs:160-190 | in every run each issued number is executed, still queued and executable, or was executed by another node |
| `Protocol.OneNodeHasNoGaps` | sohara-agent/src/agent.rs:50-111 | with one node the executed commands are exactly the first last_seq ones issued |
| `Protocol.AcknowledgedElsewhere` | sohara-plane/src/registry.rs:185-190 | for any two nodes, a run in which one node's acknowledgement loses the other's command |
| `Protocol.LostAckBlocks` | sohara-plane/src/reconcile.rs:77-108 | while no acknowledgement of a queued command's number arrives, it stays queued and nothing asking the same was issued after it; once executed, its agent executes nothing asking the same again |
| `Convergence.AckUnblocks` | sohara-plane/src/reconcile.rs:77-108 | once an acknowledgement of a queued command's number arrives, the next heartbeat that reports the need has the operation issued again under a new number |
| `Protocol.StuckReached` | sohara-agent/src/agent.rs:98-111 | for any node and instance, a run to a state in which a stopped instance that should run gets no start |
| `Protocol.StoppedForGood` | sohara-agent/src/agent.rs:98-111 | from there no start is executed, however the run goes on, until an acknowledgement with that number arrives |
| `Convergence.MovedTwiceAgrees` | sohara-plane/src/reconcile.rs:77-108 | two commands bring any settled instance to agreement, and exactly an agreeing one needs none |
| `Convergence.LaunchAgrees` | sohara-agent/src/instance.rs:168-185 | a launch ends in agreement |
| `Convergence.WorkedOffFacts` | sohara-agent/src/agent.rs:98-111 | executing a received queue with acknowledgements arriving empties it and passes every command on |
| `Convergence.OpsForDeclared` | sohara-plane/src/reconcile.rs:19-40 | from an empty queue a reconcile sends each declared instance exactly the operation it needs |
| `Convergence.RoundManagesDeclared` | sohara-agent/src/agent.rs:115-139 | after a round the node manages exactly its declared instances |
| `Convergence.TwoRoundsAgree` | sohara-plane/src/registry.rs:160-190 | from any settled state with an empty queue two rounds bring every declared instance of a node into agreement |
| `Convergence.ThreeRoundsAgree` | sohara-plane/src/registry.rs:160-190 | with commands left over in the queue three rounds do |
| `Convergence.AgreementIsFinal` | sohara-plane/src/registry.rs:160-190 | in agreement a further round issues no command and changes no manager |
| `Convergence.DeclaredConverges` | sohara-plane/src/registry.rs:82-89 | two rounds after an instance is declared, or declared anew, it is managed and in its declared state |
| `Convergence.DesiredChangeConverges` | sohara-plane/src/registry.rs:100-110 | two rounds after the desired state is changed the instance is in it |
| `Convergence.RemovedIsDropped` | sohara-plane/src/registry.rs:92-97 | one round after an instance is removed it is no longer managed, and every other declared one is |
| `Relay.Mailbox.Publish` | sohara-plane/src/relay_api.rs:36-44 | the whole new mailbox after a publish |
| `Relay.Mailbox.Pull` | sohara-plane/src/relay_api.rs:48-94 | the messages, the next cursors and the whole new mailbox after a pull |
| `Relay.DrainIsSlice` | sohara-plane/src/relay_api.rs:48-94 | a pull takes one consecutive run of the buffer starting right above the cursor, at most a batch |
| `Relay.RunInOrder` | sohara-plane/src/relay_api.rs:36-94 | over every run each topic holds exactly its last min(seq, 1000) messages, and each subscriber receives each topic strictly increasing and as published, even when it resets `after` or repeats a topic |
| `Relay.RunComplete` | sohara-plane/src/relay_api.rs:48-94 | a subscriber that never asks above its floor has received every number its cursor passed, except those already dropped |
| `Relay.Bridge.RequestPull` | sohara-triggers/src/relay.rs:146-173 | the request asks every topic from the bridge's own cursor |
| `Relay.Bridge.ApplyResponse` | sohara-triggers/src/relay.rs:175-185 | every message is put on the local bus in order, then the cursors move |
| `Relay.AdvanceIs` | sohara-triggers/src/relay.rs:175-185 | answer by answer the cursor of the answered topic moves to where it says, and no other |
| `Relay.PullOneAnswers` | sohara-plane/src/relay_api.rs:48-94 | a pull answers the number of the last message it takes, and the plane keeps it as the floor |
| `Relay.BridgeInjectsOnce` | sohara-triggers/src/relay.rs:146-185 | with lost responses and restarts the bridge injects each message at most once, in order and as published |
| `Relay.BridgeMissesNothing` | sohara-triggers/src/relay.rs:146-185 | a bridge alone under its name skips nothing still buffered, and has injected all that was delivered to it if and only if no lost response carried a message |
| `Relay.LostForGood` | sohara-triggers/src/relay.rs:146-185 | a message in a lost response never reaches the local bus, whatever happens before and afterwards |
| `Relay.ResponseLost` | sohara-plane/src/relay_api.rs:48-94 | such a run: one message published, delivered in a response that is lost, and not injected |
| `Gateway.Selector.ListRunning` | sohara-plane/src/gateway.rs:151-169 | the loop lists the eligible targets in map order |
| `Gateway.Selector.SortByHash` | sohara-plane/src/gateway.rs:180-182 | the insertion loop computes the stable sort |
| `Gateway.Selector.RotateLeft` | sohara-plane/src/gateway.rs:184-187 | the rotation loop moves the first targets to the end |
| `Gateway.RunningTargetsAre` | sohara-plane/src/gateway.rs:151-169 | a target is listed once if its instance is in the flow, reported running and has a trigger, else not at all |
| `Gateway.TargetMeans` | sohara-plane/src/gateway.rs:151-169 | an instance is a target exactly if it belongs to the flow and the first report its node made about it says that it runs and where its trigger is |
| `Gateway.Selector.OrderTargets` | sohara-plane/src/gateway.rs:173-191 | the loops return the triggers in hash order for a sticky key, else rotated by the route's counter, which alone moves on |
| `Gateway.Selector.SelectTargets` | sohara-plane/src/gateway.rs:135-146 | no target leaves the counters alone; otherwise the ordered triggers |
| `Gateway.CandidatesAre` | sohara-plane/src/gateway.rs:173-191 | with a sticky key the targets in order of the hash of key and id, else from the route's counter on, which moves by one |
| `Gateway.RotatedIs` | sohara-plane/src/gateway.rs:183-188 | a rotation takes the targets round in a circle |
| `Gateway.SortedInOrder` | sohara-plane/src/gateway.rs:179-182 | the sort orders by hash |
| `Gateway.OrderIgnoredIff` | sohara-plane/src/gateway.rs:179-182 | the hash order is the same for every arrangement of the targets if and only if no two share a hash |
| `Gateway.StickyChoiceIsDetermined` | sohara-plane/src/gateway.rs:151-191 | with distinct hashes the candidates do not depend on the iteration order of the registry's map |
| `Gateway.OneMoreTarget` | sohara-plane/src/gateway.rs:179-182 | adding or removing one instance keeps the order of the others: the first choice stays or moves to or from that instance |
| `Gateway.RoundRobinIsFair` | sohara-plane/src/gateway.rs:183-188 | over any k * n consecutive round-robin calls for a route whose n targets stay the same, each call moving the real counter on, each is first exactly k times |

## Left out

- HTTP servers and clients, authentication, dashboards, the CLI, scaffolding, configuration files and templates: input and output around the modelled core.
- Extensions, the JavaScript bridge and the io crate: calls into foreign code.
- File, CSV and JSON formats and run histories: library-bound.
- Integer widths: sequence numbers, attempt, failure and round-robin counters are unbounded; their wrap-around after 2^32 or 2^64 steps is not modelled. Backoff saturation is.
- Floating point: a number is its numeral, identified by its text and not by its value; it is finite if and only if its whole part is below 2^1024 - 2^970. Arithmetic, comparison and the conversions are fixed but unknown functions.
- Moments: every evaluation has its own clock reading, random id and environment; two calls of `now` or of `uuid` within one evaluation give the same answer.
- Expressions: the nine binary variants are one constructor with an operator; error texts are not distinguished.
- Concurrency inside the executor: one record is in flight at a time and the branches of a parallel step run one after another; the pause gate and racing deliveries are not modelled.
- Durability: a record counts as sent when the sink's send returns Ok.
- Restarts of the plane or an agent: their counters live in memory, so every claim is about one plane lifetime and one agent lifetime; replacing a running instance's spec is not modelled either.
- Releasing and listing parked approvals, per-step statistics, the error ring and checkpoint timing beyond "due or not": they would only add easy members.
- Validation of versions, ids and step kinds in configurations, building steps from configurations, and the persisted registry file: easy members.
- Longest-prefix route matching, the retry on the second gateway target and the hash function itself: the hash is a parameter.
- Operations in commands are the five known ones; an unknown operation text, which the plane never issues, is not represented. The ok flag and error text of an acknowledgement are not carried by it, because the plane reads only its number.
- Payload.Insert: the nested objects are rebuilt on the way out instead of being updated through references; no aliasing is modelled.
- Execution.Executor.FlushBatches: the flush order is a parameter, where the code walks a hash map.
- Join.ParallelJoinsOnce: takes the b arrivals as given; `Execution.Executor.JoinsOnce` says it of records let in at a join of a running executor, and `Execution.Executor.ApplyParallelIntoJoin` of a parallel step whose branches are the join itself. With other steps in between, that each passes exactly one record on is up to them.
- Convergence.TwoRoundsAgree: between rounds the managers work off their mailboxes; supervision ticks in between, which do not change the state of a healthy instance, are not part of a round.
