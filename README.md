# Weighted work pipeline and text preprocessing, in Dafny

This project models three Java programs and proves properties of the model.

**WRR.java: the work pipeline.**
- A generic smooth weighted round-robin selector (`WeightedRoundRobin<T>`).
  - Every registered node has a fixed positive weight and a running current weight.
  - `next` raises each current weight by its node's weight and picks the first node holding the largest value; the comparison is strict, so ties go to the earliest-registered node.
  - The winner is then lowered by the total weight.
  - An empty selector answers nothing; a single-node selector answers its node without touching any weight.
- `main` registers three agents with weights 50, 100 and 200 and dispatches 950 tasks one `next` at a time.
  - Each task is submitted to a worker bound to the task id, the agent and its weight, and the agent is counted in a `LinkedHashMap` ledger.
  - The results are collected, sorted by task id and formatted as `%04d<TAB>agent` report lines.

**SP_TEST_02.java: the console tool.** It loads a word-to-vector dictionary (one `word#vector` line per entry) and a stopword list (one trimmed line per stopword). It then answers every input line with the vectors of its tokens, joined by spaces.
- A token contributes its vector only when its lower-cased word is in the dictionary and the vector is not a stopword.

**SP_TEST_03.java: the prediction server.** It uses the same loaders and the same preprocessing. A POST names a model and carries queries.
- The model is the first one with that name; an unknown name is answered with status 400.
- Each query is preprocessed and sent to the model's URL.
- The predicted code is translated into the label of the first class with that code, or `"unknown"`.

Files:
- `wrappers.dfy`: `Option`, `Outcome` and `Result`.
- `java_text.dfy` (module `JavaText`): the Java library behaviour the programs rely on.
  - `String.trim`.
  - `split` on one character and on `\s+`, including Java's removal of trailing empty strings.
  - `String.join`, first-match search, and `%0Nd` formatting with its inverse.
- `round_robin.dfy` (module `RoundRobin`): the selector.
  - A value-level specification (`NextStep`, `Schedule`) and its properties.
  - The classes `Node` and `WeightedRoundRobin`, which update the nodes in place and are proved against that specification.
- `pipeline.dfy` (module `Pipeline`): `main` of WRR.java.
  - Registration, the dispatch loop, the ledger, the workers, collection, an in-place sort of an array by task id, and the report lines.
  - A proof that the 950 dispatched tasks follow a period of seven calls (Agent#3, #2, #3, #1, #3, #2, #3).
  - The exact report and ledger that follow from it.
- `lexicon.dfy` (module `Lexicon`): the shared loaders and the preprocessing. The class `Lexicon` holds the static `dictionary` and `stopwords`.
- `model_service.dfy` (module `ModelService`): the lookups of `doPost`.
- `console.dfy` (module `Console`): the input loop of SP_TEST_02.java.

Two facts about WRR.java's `main` that the model keeps:
- The per-agent counts are printed in the order in which agents first received a task, not in registration order (WRR.java:111-116, 134). `merge` builds the `LinkedHashMap`, and a key enters it at its first assignment.
  - With these weights that order is Agent#3, Agent#2, Agent#1 (`Pipeline.ReportedLedger`).
- The futures are read in submission order (WRR.java:121-123), so the collected results come back in task-id order whatever order the workers finish in.

## Model

| member | source | states |
|---|---|---|
| RoundRobin.NewNode | WRR.java:16-20 | The weight is non-positive exactly when construction fails with "weight must be > 0". Otherwise the node is new and holds the item, the weight and a current weight of 0. |
| RoundRobin.Node.constructor | WRR.java:13-20 | A node keeps its item and weight and starts with current weight 0. |
| RoundRobin.WeightedRoundRobin.constructor | WRR.java:23-24 | A new selector has no nodes, a total weight of 0 and satisfies the invariant. |
| RoundRobin.WeightedRoundRobin.Add | WRR.java:28-36 | Keeps the invariant. A non-positive weight fails and leaves nodes, current weights and total weight as they were. Otherwise one new node is appended after the unchanged old ones, with current weight 0, and the total weight rises by the weight. |
| RoundRobin.WeightedRoundRobin.Next | WRR.java:39-57 | Keeps the invariant (total weight = sum of weights, current weights sum to 0) and moves the current weights exactly as `NextStep` does. Returns nothing on an empty selector and otherwise the item at the position `NextStep` chooses. |
| RoundRobin.WeightedRoundRobin.Advance | WRR.java:45-53 | With two or more nodes, the in-place raise-and-lower keeps the invariant. The new current weights are those of `NextStep`, and the item returned is the chosen node's. |
| RoundRobin.WeightedRoundRobin.RaiseAll | WRR.java:45-51 | The scan raises every node's current weight by its own weight and returns the node at the earliest maximum of the raised weights. |
| RoundRobin.NextStep | WRR.java:39-53 | One call on values changes no length. It chooses a position exactly when there is a node, and that position is a valid one. |
| RoundRobin.NextStepShortCircuits | WRR.java:42-43 | With no node nothing is chosen; with one node that node is chosen. Neither case changes a current weight. |
| RoundRobin.NextStepChoosesEarliestMax | WRR.java:46-52 | With two or more nodes the chosen position is the earliest maximum of the raised weights. Only it is lowered by the total weight; every other position keeps its raised value. |
| RoundRobin.FirstMaxIsEarliestMax | WRR.java:46-50 | A left-to-right scan with strict `>` ends on a maximum that no earlier position equals. |
| RoundRobin.ScanMaxIsEarliestMax | WRR.java:46-50 | A scan started from the earliest maximum of a prefix ends on the earliest maximum of the whole list. |
| RoundRobin.EarliestMaxUnique | WRR.java:48-49 | The earliest maximum is unique, so the tie-breaking rule determines the winner. |
| RoundRobin.RaisedSum | WRR.java:46-47 | Raising every current weight by its weight raises their sum by the sum of the weights. |
| RoundRobin.UpdateSum | WRR.java:52 | Lowering one current weight changes the sum by exactly that amount. |
| RoundRobin.NextStepKeepsSum | WRR.java:46-52 | When the total weight is the sum of the weights, a call leaves the sum of the current weights unchanged, so it stays 0. |
| RoundRobin.Schedule | WRR.java:39-57 | The first n calls return n items, each a registered item. |
| RoundRobin.PeriodicSchedule | WRR.java:39-57 | If the current weights run through a closed cycle of states, the selector repeats the cycle's choices forever. Call j returns the choice at j's position in the cycle. |
| RoundRobin.SingleNodeSchedule | WRR.java:43 | A single node is returned by every call, and its current weight never moves. |
| RoundRobin.EqualPairAlternates | WRR.java:46-52 | Two fresh nodes of weight 1 alternate A, B, A, B, …, with the first-registered node first. |
| Pipeline.AgentsDistinct | WRR.java:95-97 | The three agent names are pairwise different. |
| Pipeline.RegisterAll | WRR.java:101-103 | Adding every registration in order leaves a valid selector. Its nodes are new, its items and weights are the registrations' names and weights in order, and all current weights are 0. |
| Pipeline.RegisterAgents | WRR.java:94-103 | After steps 1 and 2 the selector holds Agent#1, #2, #3 with weights 50, 100, 200, total 350 and current weights 0. The weights map holds the same three entries. |
| Pipeline.CycleCloses | WRR.java:46-52 | From current weights 0, 0, 0 the three agents run through seven states and back to 0, 0, 0, choosing positions 2, 1, 2, 0, 2, 1, 2. |
| Pipeline.AgentSchedule | WRR.java:99-113 | After n calls of the freshly registered selector, the current weights are the cycle state at n mod 7. Call j returns the agent at position j mod 7 of the period. |
| Pipeline.AgentPicks | WRR.java:112-113 | The agents returned for the first n tasks are exactly the period's agents for task indices 0..n-1. |
| Pipeline.Dispatched | WRR.java:112-113 | Task j + 1 goes to the agent of phase j mod 7. |
| Pipeline.DispatchedAgents | WRR.java:113 | Every task goes to one of the three agents, and the first four go to Agent#3, #2, #3, #1. |
| Pipeline.Agent1Share | WRR.java:112-116 | In each period of seven calls Agent#1 gets one task, at the fourth call. |
| Pipeline.Agent2Share | WRR.java:112-116 | In each period Agent#2 gets two tasks, at the second and sixth calls. |
| Pipeline.Agent3Share | WRR.java:112-116 | In each period Agent#3 gets four tasks, at the first, third, fifth and seventh calls. |
| Pipeline.Merge | WRR.java:116 | One `merge` with count 1 on the insertion-ordered map. It has no contract of its own; `MergeEffect` states its effect. |
| Pipeline.LedgerOf | WRR.java:111-116 | The ledger after merging the agents in order into an empty map. It has no contract of its own; `LedgerWellFormedAll`, `LedgerKeys`, `LedgerCounts`, `LedgerTotal` and `LedgerOrderGrows` state what it holds. |
| Pipeline.MergeEffect | WRR.java:116 | Merging an absent agent appends it to the key order with count 1. Merging a present one raises its count by 1 and keeps its place. No other entry changes, and well-formedness is kept. |
| Pipeline.LedgerWellFormedAll | WRR.java:111-116 | The ledger built in `main` lists each key once, lists exactly its keys, and every count is positive. |
| Pipeline.LedgerKeys | WRR.java:111-116 | The ledger's keys are exactly the agents returned. |
| Pipeline.LedgerCounts | WRR.java:111-116 | Each agent's count is the number of tasks it was given. |
| Pipeline.LedgerTotal | WRR.java:112-116 | The counts add up to the number of tasks dispatched: one increment per `next` result. |
| Pipeline.LedgerOrderGrows | WRR.java:116 | Later merges never reorder the ledger; an earlier key order is a prefix of every later one. |
| Pipeline.FirstAssignments | WRR.java:116 | Merging Agent#3, #2, #3, #1 gives the key order Agent#3, #2, #1. |
| Pipeline.ReportedOrder | WRR.java:111-116 | From the fourth task on, the ledger lists Agent#3, Agent#2, Agent#1: the order of first assignment. |
| Pipeline.ReportedCounts | WRR.java:112-116 | After 950 tasks the counts are Agent#1 = 136, Agent#2 = 271 and Agent#3 = 543. |
| Pipeline.ReportedLedger | WRR.java:111-116 | The ledger after 950 tasks is exactly the order Agent#3, #2, #1 with counts 543, 271 and 136. |
| Pipeline.PickAgent | WRR.java:113 | One `next()` in the dispatch loop moves the selector one step along its schedule. It returns the registered agent that the step appends. |
| Pipeline.Submit | WRR.java:114-115 | The submitted worker list is that of the agents named so far plus one worker with the next task id and the agent's weight from the map. |
| Pipeline.Tally | WRR.java:116 | The ledger after one more merge is the ledger of the agents named so far plus this one. |
| Pipeline.SubmittedAfter | WRR.java:112-116 | After n submissions there are n agents and n workers. Every agent is in the weights map, and worker k carries task id k + 1. |
| Pipeline.SubmitNext | WRR.java:113-116 | One pass of the loop body moves the state (current weights, agents, workers, ledger) from n submissions to n + 1. |
| Pipeline.Dispatch | WRR.java:112-117 | Step 4 leaves the nodes unchanged. It ends in the state after `total` submissions: the agents are the selector's schedule, the workers carry ids 1..total with their agent's weight, and the ledger is built from the agents in order. |
| Pipeline.WorkersFor | WRR.java:112-115 | Worker i has task id i + 1, the i-th agent and that agent's weight. |
| Pipeline.WorkersForAppend | WRR.java:115 | One more submission appends exactly one worker with the next task id. |
| Pipeline.DelayBound | WRR.java:84 | The sleep bound is at least 5 and at least 220 - weight, and equals one of the two. |
| Pipeline.DelayBoundShrinks | WRR.java:83-84 | A heavier agent never gets a larger sleep bound. |
| Pipeline.Call | WRR.java:82-87 | Because the bound always exceeds the origin 3, a worker never fails and returns its own task id and agent name. |
| Pipeline.Collected | WRR.java:120-123 | The results come back one per worker, in submission order, each carrying that worker's task id and agent. |
| Pipeline.Collect | WRR.java:120-123 | The collection loop yields exactly those results. |
| Pipeline.PoolSize | WRR.java:106 | The pool size is between 3 and 12. It equals the processor count when that lies in [3, 12], and is 3 below that range and 12 above it. |
| Pipeline.SinkLast | WRR.java:127 | One insertion pass leaves a[..i + 1] in task-id order as a permutation of the array. An element already in place does not move. |
| Pipeline.SortByTaskId | WRR.java:127 | The results end in ascending task-id order, as a permutation of the input. Input already in order is unchanged. |
| Pipeline.ToLine | WRR.java:66 | A result's report line. It has no contract of its own; `ToLineRoundTrip` and `ToLineShape` state what it holds. |
| Pipeline.ToLineRoundTrip | WRR.java:66 | Reading a report line back (number before the first tab, text after it) gives the result it was made from, for every id and agent name. |
| Pipeline.ToLineShape | WRR.java:66 | An id from 0 to 9999 takes exactly four digits, then a tab, then the agent name. |
| Pipeline.Lines | WRR.java:128-129 | There is one report line per result, in order, each being that result's line. |
| Pipeline.FormatLines | WRR.java:128-129 | The formatting loop yields exactly those lines. |
| Pipeline.PipelineOutcome | WRR.java:112-127 | For 950 tasks the collected results are already in task-id order, and task i + 1 went to the agent of phase i. The ledger is the one `main` prints. |
| Pipeline.RunWorkPipeline | WRR.java:90-129 | `main` sizes the pool by `PoolSize` and writes 950 lines. Line i reports task i + 1 and the agent of phase i mod 7, whatever the completion order. The ledger is Agent#3: 543, Agent#2: 271, Agent#1: 136. |
| JavaText.Trim | SP_TEST_03.java:169 | The trim is no longer than the string and neither starts nor ends with a character up to the space. |
| JavaText.TrimCutsBlanks | SP_TEST_03.java:169 | The trim is a middle part of the string, and everything cut off around it is blank. |
| JavaText.TrimIdempotent | SP_TEST_03.java:169 | Trimming twice is trimming once. |
| JavaText.JavaSplit | SP_TEST_03.java:156 | When the separator occurs, no part contains it and the last part is not empty: trailing empty strings are removed. `SplitPairOf` and `SplitPairShape` state when exactly two parts result. |
| JavaText.Join | SP_TEST_03.java:122 | The parts with one separator between neighbours. It has no contract of its own; `JoinFields` and `FieldsJoin` state that it inverts splitting. |
| JavaText.JoinFields | SP_TEST_03.java:156 | Putting the separators back between the fields of a string gives the string. |
| JavaText.FieldsJoin | SP_TEST_03.java:156 | Splitting a join of separator-free parts gives the parts back. |
| JavaText.StripTrailingEmpty | SP_TEST_03.java:156 | `split` drops exactly the trailing empty strings and keeps the rest as a prefix. |
| JavaText.SplitPairOf | SP_TEST_03.java:156-157 | `k#v` followed by any number of `#` splits into exactly [k, v] when k and v hold no `#` and v is non-empty. |
| JavaText.SplitPairShape | SP_TEST_03.java:156-157 | Only lines of that shape split into exactly two parts. |
| JavaText.SplitOnSpace | SP_TEST_03.java:111 | Splitting at runs of white space. It has no contract of its own; `SplitOnSpaceShape` states the shape of its result on a string that does not start with white space, and `TokensAreCollapsedFields` states which tokens it gives on a trimmed string. |
| JavaText.Tokens | SP_TEST_03.java:111 | A sentence trimmed, then split at runs of white space. It has no contract of its own; `TokensShape` states the shape of its result and `TokensAreCollapsedFields` its content. |
| JavaText.JoinSpaceFields | SP_TEST_03.java:111 | The white-space fields of a string, joined with single spaces, are the string with each run of white space collapsed to one space. |
| JavaText.TokensJoin | SP_TEST_03.java:111 | A sentence's tokens, joined with single spaces, are its trim with each run of white space collapsed to one space. |
| JavaText.TokensAreCollapsedFields | SP_TEST_03.java:111 | A sentence's tokens are exactly, and in order, the fields between the single spaces of its collapsed trim: its maximal runs of characters other than white space. |
| JavaText.TokensShape | SP_TEST_03.java:111 | A blank sentence yields one empty token. Any other sentence yields non-empty tokens free of white space. |
| JavaText.FirstIndex | SP_TEST_03.java:77 | `filter(...).findFirst()`: the index found satisfies the test and none before it does. None means no element does. |
| JavaText.FormatInt | WRR.java:66 | The formatted number is at least as long as the width. `FormatIntRoundTrip` states that it reads back as the number, and `FourDigits` that 0 to 9999 take exactly four digits. |
| JavaText.FormatIntRoundTrip | WRR.java:66 | A number formatted with `%0Nd` reads back as the same number, negative ones included. |
| JavaText.FourDigits | WRR.java:66 | 0 to 9999 format with `%04d` to exactly four digits. |
| JavaText.DecimalRoundTrip | WRR.java:66 | The decimal digits of n read back as n. |
| Lexicon.ParseDictLine | SP_TEST_03.java:156-157 | An accepted pair has no `#` in the word or the vector. `DictLineAccepted` and `DictLineShape` state exactly which lines are accepted. |
| Lexicon.DictLineAccepted | SP_TEST_03.java:156-158 | `word#vector`, with any trailing `#`s, is stored as that pair. |
| Lexicon.DictLineShape | SP_TEST_03.java:156-158 | Every stored line has that shape. A line with no `#`, with an empty vector or with a second inner `#` is ignored. |
| Lexicon.Apply | SP_TEST_03.java:155-160 | Storing parsed lines never removes a word. `ApplyKeys`, `ApplyLastWins` and `ApplyKeepsOthers` state which words are present and which vector each has. |
| Lexicon.Loaded | SP_TEST_03.java:152-162 | The dictionary after reading the file's lines in order. It has no contract of its own; it is `Apply` over the parsed lines, and `LoadDictionary` is proved equal to it. |
| Lexicon.ApplyKeys | SP_TEST_03.java:155-160 | A word is in the dictionary exactly when it was there before or some accepted line defines it. |
| Lexicon.ApplyLastWins | SP_TEST_03.java:158 | A word's entry is the vector of the last accepted line for it. |
| Lexicon.ApplyKeepsOthers | SP_TEST_03.java:155-160 | A word no line defines keeps its earlier entry. |
| Lexicon.WithStopwords | SP_TEST_03.java:168-169 | Reading lines keeps every earlier stopword and adds the trim of the last line read. `StopwordsMembers` states the full membership. |
| Lexicon.StopwordsMembers | SP_TEST_03.java:168-169 | A word is a stopword exactly when it was one before or it is the trim of some line. |
| Lexicon.StopwordsTrimmed | SP_TEST_03.java:169 | Every stopword read from the file is already trimmed. |
| Lexicon.Vectorize | SP_TEST_03.java:113-120 | There are never more vectors than tokens. |
| Lexicon.VectorizeAppend | SP_TEST_03.java:113-119 | Order is kept: the vectors of a + b are those of a followed by those of b. |
| Lexicon.VectorizeOne | SP_TEST_03.java:114-118 | A token yields its vector when its lower-cased word is known and the vector is not a stopword. Otherwise it yields nothing. |
| Lexicon.VectorizeMembers | SP_TEST_03.java:113-120 | A vector is in the output exactly when some token's lower-cased word maps to it and it is not a stopword. |
| Lexicon.StopwordsApplyToVectors | SP_TEST_03.java:117 | Only the stopword test on vectors matters. Stopword sets that agree on the dictionary's vectors give the same output, whatever they say about the words. |
| Lexicon.UnknownTokensDropped | SP_TEST_03.java:115-117 | A token whose word is not in the dictionary is dropped silently: removing it changes nothing. |
| Lexicon.Processed | SP_TEST_03.java:110-122 | A sentence's preprocessing: the vectors of its tokens, joined by single spaces. It has no contract of its own; `VectorizeAppend`, `VectorizeOne`, `VectorizeMembers`, `StopwordsApplyToVectors` and `UnknownTokensDropped` state what the vectors are. |
| Lexicon.Lexicon.constructor | SP_TEST_03.java:32-34 | The dictionary and the stopword set start empty. |
| Lexicon.Lexicon.LoadDictionary | SP_TEST_03.java:152-162 | The dictionary becomes the old one with every accepted line stored in file order. The stopwords are untouched. SP_TEST_02.java:55-67 is the same code. |
| Lexicon.Lexicon.LoadStopwords | SP_TEST_03.java:165-172 | The stopwords become the old ones plus the trim of every line. The dictionary is untouched. SP_TEST_02.java:70-78 is the same code. |
| Lexicon.Lexicon.Preprocess | SP_TEST_03.java:110-123 | The result is the vectors of the sentence's tokens, joined by single spaces. |
| ModelService.FindModelFirst | SP_TEST_03.java:77 | A model is found exactly when one has the requested name, and it is the first such model. |
| ModelService.LabelForFirst | SP_TEST_03.java:94-95 | The label is the value of the first class with the predicted code. With no prediction or no such class it is "unknown". |
| ModelService.FindModel | SP_TEST_03.java:77 | A model found has the requested name and is one of the listed models. That it is the first such model, and that None means no model has the name, is stated by `FindModelFirst`. |
| ModelService.LabelFor | SP_TEST_03.java:94-95 | The label is "unknown" or the value of one of the model's classes. That it is the first class with the code is stated by `LabelForFirst`. |
| ModelService.Answers | SP_TEST_03.java:86-97 | There is exactly one label per query, in query order. Label i comes from the server's answer to call number i, which carries the preprocessed query i. |
| ModelService.Requests | SP_TEST_03.java:87-92 | There is one request per query, in query order, each sent to the model's URL with that query's preprocessed text. |
| ModelService.FailedRequestIsUnknown | SP_TEST_03.java:92-95 | A query whose own model call fails (the Java method returns null) is answered "unknown". |
| ModelService.LabelsFollowOwnCall | SP_TEST_03.java:87-97 | Label i depends only on the answer to call i. Two servers that agree on that call give query i the same label, whatever they answer to the other calls. |
| ModelService.HandlePost | SP_TEST_03.java:77-103 | An unknown model name is answered with status 400 and the "Model not found" body, and no request is sent. Otherwise the requests sent are `Requests` and the answer is `Answers`, for the first model with that name. |
| Console.Replies | SP_TEST_02.java:31-51 | There is exactly one printed line per input line, in order, each the preprocessing of that line. |
| Console.RunConsole | SP_TEST_02.java:21-52 | With both files loaded into empty collections, the printed lines are `Replies` for the loaded dictionary and stopwords. |

## Left out

- JavaText.FormatInt: the default locale is assumed to write ASCII digits. The localized digits that `%04d` prints under another default locale are not modelled, and neither is the effect on `Pipeline.ToLine`.
- The `ReentrantLock` of the selector, the thread pool, `Future.get` and `shutdown` (WRR.java:25, 107, 121-124) are not modelled. Calls are sequential, and results come back in submission order.
- Pipeline.Call: the random sleep of `nextInt(3, base)` is not modelled; only its bound and the check that it is greater than 3 are. Timing and randomness have no effect on any result.
- Writing `works.txt` and the console `printf` lines (WRR.java:130-135) are not modelled. `RunWorkPipeline` returns the lines and the ledger instead.
- RoundRobin.WeightedRoundRobin.Add: Java's 32-bit `int` is not modelled.
  - `totalWeight` and the current weights are unbounded integers.
  - The registered weights are far too small to overflow.
- Pipeline.SortByTaskId: it is an insertion sort, not Java's merge sort, and stability is not stated. The task ids of `main` are distinct, so the sorted order is the same.
- File reading in the loaders, and `Scanner`/`System.in`, are not modelled. Files and standard input are given as sequences of lines.
  - SP_TEST_02's endless loop stops at the end of the given input.
  - The `NoSuchElementException` that `nextLine` throws there is not modelled.
- Lexicon.Lexicon.Preprocess: `toLowerCase` is the parameter `lower`. Locale-dependent case mapping is not modelled.
- The Jetty server, the servlet's request and response streams, Gson decoding and encoding, and `loadModels` (SP_TEST_03.java:45-50, 71-74, 99-106, 175-185) are not modelled.
  - `HandlePost` receives the model name, the queries and the model list as values.
- ModelService.HandlePost: the HTTP exchange of `requestModel` (SP_TEST_03.java:126-148) is the parameter `server`, which answers call number i of a request, to a URL with a text.
  - Calls are numbered, so the same text sent twice may get different answers.
  - None stands for the null returned on any failure.
  - The unescaped JSON body that `requestModel` builds is not modelled; the request is the URL and the preprocessed text.
- SP_TEST_01.java is not part of this model. It does not compile, and its logic is a subset of SP_TEST_02.java.
- SP_TEST_02.java uses `Set` without importing `java.util.Set`, so it does not compile as written. The model follows what the code evidently means.
- There is no general theorem that each node is chosen in proportion to its weight. Proportionality is proved for the configuration `main` uses (1 : 2 : 4 in every period of seven), for a single node and for two equal weights.
