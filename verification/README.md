# 2D Ultimate Frisbee: the AI automaton engine in Dafny

This project models the behaviour engine that drives the computer-controlled
players of 2dUltimateFrisbee, and proves properties of the model.

**The engine.** Each player sits in a state of an automaton. An automaton
set (offence or defence) holds several automatons. Each state has one
transition slot per event.

- Each tick the player's event queue is drained. Every event is resolved
  against the transition bound to the current state.
- A transition asks a Lua predicate for a number. Zero selects the false
  branch; anything else selects the true branch.
- A branch may name a state, chain to another transition, and/or switch the
  player to another automaton. Chaining is cut off at a call depth of five.
- After the queue is drained, the current state's per-tick function runs.

**How the model is built.**

- Automatons live in sequences and are referred to by index (`Ref(aut,
  idx)`), so legitimate cycles between transitions are harmless.
- The Lua predicate is an oracle `(automaton, function name, team, player)
  -> Option<int>`. `None` stands for a Lua error or a result that is not a
  number.
- Callbacks (per-tick, entrance and exit functions) are recorded by name in
  a trace.

**Modules.**

| Module | What it covers |
|---|---|
| `Engine` | Transition resolution (`get_state_from_transition`, `move_to_next_state`). |
| `Catalog` | The automaton data types and the first-match name lookups, including the prefix match of `get_automaton_by_name`. |
| `Factories` | The game's event and state factories and `create_automaton`. |
| `XmlLoader` | The automaton-set XML loader over an abstract element tree. Its passes are create, name, link, initialise, and find the start automaton. |
| `CsvLoader` | The CSV transition-table loader: a strict header parser and a lenient cell parser. |
| `CsvWriters` | The blank-table generator and the table dump, with their round trips through the loader. |
| `Handler` | Creating and destroying automaton sets and the handler. |
| `EventQueue` | The per-player FIFO as a linked heap of nodes. |
| `TimedQueue` | The timed event queue as a sequence sorted by due time. |
| `Routing` | The four AI event routing functions. |
| `PlayerAi` | The per-tick driver. |
| `LuaCallbacks` | The callback globals and the validating callbacks. |
| `MatchState` | Creating the players of a match. |
| `Players` | The player record. |
| `GameFunctions` | The catch, disc-landing and turnover updates. |
| `ConfigLoader`, `ConfigMap`, `Decimal` | The configuration file and its typed view. |
| `Pitch` | Pitch dimensions and line positions. |
| `Animation` | The animation frame counter. |
| `EntityGraphic` | Graphic reference counting. |
| `ScreenText` | The score and clock text formatters. |
| `Wrappers` | `Option` and `Result`. |

Files, the XML parser, the Lua runtime and the SDL tick counter are outside
the model. Their outcomes are parameters:

- a file is its content or its lines, or `None` when it cannot be opened;
- an XML document is an element tree, or `None` when it does not parse;
- the Lua predicate is the oracle;
- the clock is a millisecond count.

## Model

| member | source | states |
|---|---|---|
| Engine.Resolve | src/automaton/processing/automaton_general.c:35-248 | Resolution always terminates. At depth MAX_CALL_DEPTH (5) or more it returns no state and calls no predicate. Below that it makes at least one and at most 5 − depth predicate calls. Any state it returns is a valid state of the set. |
| Engine.Advance | src/automaton/processing/automaton_general.c:280-347 | An event with no transition in the current state's slot leaves the player where it is, and no callback runs. Otherwise the transition in that slot is resolved from depth 0 with the current state's name. The player takes the resolved automaton, and the resolved state, or stays in its state when none is found. Exactly two callbacks run, in order: the old state's exit callback, then the new state's entrance callback (each only if set). The player always ends in a valid state. |
| Engine.FailedResolutionStays | src/automaton/processing/automaton_general.c:327-343 | When resolution finds no state, the player stays in its old state. That state's entrance callback still runs after its exit callback. An automaton switch made during resolution is kept. |
| Engine.PredicateFailureYieldsNoState | src/automaton/processing/automaton_general.c:70-115 | A Lua error, or a result that is not a number, yields no state. The automaton stays as it was, and exactly one call was made. The predicate is asked with the player's team and player ids. |
| Engine.BranchStateWins | src/automaton/processing/automaton_general.c:121-248 | When the selected branch names a state, that state is the result, even if the branch also chains a transition. The branch's automaton switch is taken too. |
| Engine.EmptyBranchKeepsStateName | src/automaton/processing/automaton_general.c:141-152 | A branch with neither state nor transition resolves to the state with the same name as the current one, in the (possibly switched) automaton. It yields no state exactly when that automaton has no state of that name. |
| Engine.SelfLoopCutOff | src/automaton/processing/automaton_general.c:56-63 | A transition whose true branch always chains back to itself is cut off after exactly 5 − depth predicate calls, with no state. |
| Engine.ChainResolves | src/automaton/processing/automaton_general.c:35-248 | A chain of k transitions in one automaton, each selected branch leading on to the next and the last naming a state, resolves to that state after exactly k predicate calls when k ≤ 5 − depth. |
| Engine.ChainCutOff | src/automaton/processing/automaton_general.c:56-63 | The same chain, longer than the depth left, yields no state after exactly 5 − depth calls. |
| Engine.SelfLoopStaysPut | src/automaton/processing/automaton_general.c:296-334 | So an event bound to such a self-loop leaves the player in its state and its automaton. |
| Engine.FreshStateIgnoresEvents | src/automaton/processing/automaton_general.c:296-308 | No event moves a player out of a state just made by create_automaton_state, and no callback runs. |
| Catalog.FindState | src/automaton/data_structures/automaton.c:272-296 | Returns the index of the first state whose name equals the query. Returns none exactly when no state has that name. |
| Catalog.FindEvent | src/automaton/data_structures/automaton.c:309-333 | The same first-exact-match-or-none contract, over events. |
| Catalog.FindTransition | src/automaton/data_structures/automaton.c:347-371 | The same first-exact-match-or-none contract, over transitions. |
| Catalog.GetAutomatonByName | src/automaton_handler.c:211-235 | Returns the first automaton, in array order, whose name has the query as a prefix. Returns none exactly when no name does. |
| Catalog.EmptyNameSelectsFirst | src/automaton_handler.c:225 | The empty query selects the first automaton of any non-empty set. |
| Catalog.PrefixShadowsExactName | src/automaton_handler.c:223-230 | A later automaton is never found by its exact name when an earlier one's name extends that name. |
| Catalog.CreateState | src/automaton/data_structures/automaton_state.c:19-48 | A new state has exactly num_events transition slots, all empty, and no entrance or exit callback. |
| Factories.CreateAutomatonEvents | src/impl_automatons/generic_o_d_files/init_automaton_events.c:42-107 | Creates eight events. Event k has id k and the k-th fixed name, from event_pull_thrown at 0 to event_disc_caught at 7. |
| Factories.EventNamesDistinct | src/impl_automatons/generic_o_d_files/event_names.h:19-26 | Looking up the k-th event name finds exactly event k, because the eight names are pairwise distinct. |
| Factories.CreateOAutomatonStates | src/impl_automatons/o_automaton/o_automaton_states.c:44-128 | Creates eight states. State k has id k, the k-th name, num_events empty slots, and a per-tick function. |
| Factories.OStateCallbacks | src/impl_automatons/o_automaton/o_automaton_states.c:50-110 | Running has entrance and exit callbacks. Waiting has only an entrance, intercept only an exit, and follow-player has both. States 1 to 4 have neither. |
| Factories.CreateAutomaton | src/automaton/data_structures/automaton.c:46-74 | The state factory is given the number of events the event factory made. The new automaton has no name, no transitions, no start state and no Lua state. |
| Factories.GameAutomatonShape | src/automaton/data_structures/automaton.c:65-71 | The game's automaton has eight events and eight states, each state with exactly one empty slot per event. |
| Handler.DestroyAutomatonSet | src/automaton_handler.c:80-104 | Destroying a set releases one callback-globals reference per automaton, never going below zero. The captured match is kept. |
| Handler.CreateAutomatonSet | src/automaton_handler.c:33-71 | A set exists exactly when parsing its XML succeeded. A failed set leaves no more references than it found. A created set has valid references and every automaton ready. |
| Handler.DestroyAutomatonHandler | src/automaton_handler.c:173-197 | Destroying the handler never adds references and keeps the captured match. |
| Handler.CreateAutomatonHandler | src/automaton_handler.c:119-164 | Both sets are always attempted. A handler exists exactly when both sets were created. On failure no references are left over. |
| Handler.CreateThenDestroy | src/automaton_handler.c:119-197 | Creating a handler and then destroying it leaves the reference count where it was. |
| XmlLoader.CreateAutomatonsFromXml | src/automaton/file_handling/automaton_transition_file_loader.c:567-613 | Creates one factory-built automaton per `<automaton>` element. |
| XmlLoader.ParseTransitionNames | src/automaton/file_handling/automaton_transition_file_loader.c:693-767 | Creates one unlinked transition per `<transition>` element, with id equal to file order and the name attribute truncated to its buffer. An unnamed transition does not stop the loop, but the pass fails exactly when some transition is unnamed. |
| XmlLoader.ParseAutomatonNames | src/automaton/file_handling/automaton_transition_file_loader.c:631-680 | Succeeds exactly when every automaton and every transition is named; otherwise it gives LINKS_FAIL. On success each automaton carries its name and its transitions. |
| XmlLoader.NamesFrom | src/automaton/file_handling/automaton_transition_file_loader.c:643-675 | The naming loop from automaton i on succeeds exactly when every automaton from i on is named and all its transitions are. A failure is LINKS_FAIL. Automatons before i are untouched; each later one gets its clipped name and one unlinked transition per element, in document order. |
| XmlLoader.LinkBranch | src/automaton/file_handling/automaton_transition_file_loader.c:116-212 | A branch fails exactly in three cases: it is empty; it names a state unknown in the effective automaton; or it names only a transition, unknown there. A named state clears the transition link. A named transition alone clears the state link. Names resolve in the automaton the branch switches to, or else the effective one. |
| XmlLoader.Switch | src/automaton/file_handling/automaton_transition_file_loader.c:134-163 | An `<automaton>` child selects a valid automaton by prefix match. An unknown automaton name is not an error. |
| XmlLoader.LinkTransition | src/automaton/file_handling/automaton_transition_file_loader.c:79-315 | A transition fails when it lacks a name attribute, `lua_function_name`, `<true>` or `<false>`, or when its name is unknown. A linked transition keeps its id and name and gets the truncated Lua function name. Its branches hold valid references. |
| XmlLoader.FillLinksFrom | src/automaton/file_handling/automaton_transition_file_loader.c:56-321 | The link pass changes only the transitions of its own automaton and keeps every reference valid. |
| XmlLoader.FillLinksAsWritten | src/automaton/file_handling/automaton_transition_file_loader.c:76-77 | The pass as written carries one branch's automaton switch into later transitions. A failure is a parse failure. It changes only the transitions of its own automaton, keeps every automaton's names and sizes, and keeps every reference valid. |
| XmlLoader.FillLinksAgreeWithoutSwitch | src/automaton/file_handling/automaton_transition_file_loader.c:134-163 | When no branch of the automaton's transitions names an automaton to switch to, the pass as written and the corrected pass give the same result. |
| XmlLoader.FillLinks | src/automaton/file_handling/automaton_transition_file_loader.c:56-321 | The corrected pass: each transition's names resolve from its own automaton unless its own branch switches. It changes only that automaton's transitions and keeps references valid. |
| XmlLoader.FillLinksIsIndependent | src/automaton/file_handling/automaton_transition_file_loader.c:79-316 | The corrected pass equals linking each transition on its own and storing the results in document order. It succeeds exactly when every transition links on its own. |
| XmlLoader.SwitchLeaksIntoNextTransition | src/automaton/file_handling/automaton_transition_file_loader.c:134-163 | A two-automaton document in which a branch of the first transition switches to automaton b. As written, the second transition's state is then found in b; with the correction it is found in its own automaton. |
| XmlLoader.ParseSingleAutomaton | src/automaton/file_handling/automaton_transition_file_loader.c:344-416 | The checks run in order: csv_file, lua_file, missing start_state, unknown start_state. Each has its own code, and the first failure wins. On success the start state is the named state and only that automaton's transitions change. |
| XmlLoader.InitAutomatonLinks | src/automaton/data_structures/automaton.c:211-259 | Steps run in order: structure, then CSV table, then Lua. A structural failure is TRANSITION_FILE_FAIL and a missing CSV file is CSV_FILE_FAIL; neither touches the globals. A Lua script that fails to load is not an error. Success sets up the callback globals once and leaves the automaton sound. |
| XmlLoader.LinksFrom | src/automaton/file_handling/automaton_transition_file_loader.c:491-512 | The initialisation loop stops at the first automaton that fails. Every automaton before that point is ready, and each one adds one callback reference. The ones after it are untouched, every automaton keeps its names and sizes, and valid references stay valid. |
| XmlLoader.InitKeepsSound | src/automaton/data_structures/automaton.c:242-255 | Loading the CSV table and opening the Lua state keep a sound automaton sound. |
| XmlLoader.LinkAndStart | src/automaton/file_handling/automaton_transition_file_loader.c:491-539 | Success means every automaton was initialised, adding one reference each, and the start automaton was found by prefix match. An absent or unknown start_automaton is START_AUTOMATON_BAD. |
| XmlLoader.ParseAutomatonSetXml | src/automaton/file_handling/automaton_transition_file_loader.c:433-544 | A document that does not parse is LOAD_FAIL with an empty set. Otherwise there is one automaton per element, and between zero and one reference per automaton is added. |
| XmlLoader.NamedSetOk | src/automaton/file_handling/automaton_transition_file_loader.c:479-484 | After the naming pass every reference in the set is still valid. |
| XmlLoader.GameFactoriesFit | src/impl_automatons/o_automaton/o_automaton_states.c:44-46 | The game's factories fit the loaders: eight event ids, eight slots per state, no slot bound. |
| CsvLoader.ParseEventLine | src/automaton/file_handling/automaton_csv_file_loader.c:36-131 | The header gives, column by column, the id of an event of the automaton. It never has more columns than there are events. |
| CsvLoader.EventLineFrom | src/automaton/file_handling/automaton_csv_file_loader.c:49-128 | The header scan only appends columns to those already read. Every column is the id of an event of the automaton, and there are never more columns than events. |
| CsvLoader.FirstCellIgnored | src/automaton/file_handling/automaton_csv_file_loader.c:65-73 | Whatever precedes the header's first comma makes no difference. |
| CsvLoader.NoEventsRejectsHeader | src/automaton/file_handling/automaton_csv_file_loader.c:55-60 | With no events, any non-empty header is TOO_MANY_EVENTS. |
| CsvLoader.BadCharRejected | src/automaton/file_handling/automaton_csv_file_loader.c:106-124 | A header character other than a separator, a letter, `_` or a space is BAD_CHAR. |
| CsvLoader.UnknownEventRejected | src/automaton/file_handling/automaton_csv_file_loader.c:84-91 | A header cell naming no event is BAD_EVENT. |
| CsvLoader.NameAccumulates | src/automaton/file_handling/automaton_csv_file_loader.c:106-113 | Name characters extend the header cell being read. |
| CsvLoader.SpacedNameAccumulates | src/automaton/file_handling/automaton_csv_file_loader.c:114-117 | Spaces in a header cell are skipped. |
| CsvLoader.CellValue | src/automaton/file_handling/automaton_csv_file_loader.c:208-229 | An empty cell leaves the slot empty. A cell with a known transition name binds that transition. An unknown name leaves the slot empty. |
| CsvLoader.ParseRow | src/automaton/file_handling/automaton_csv_file_loader.c:152-269 | The corrected row parser. It changes only slot contents and keeps bound slots valid. It refuses an excess cell before writing anything, so it never faults. |
| CsvLoader.RowFrom | src/automaton/file_handling/automaton_csv_file_loader.c:168-266 | The row scan changes only slot contents. Once the row's state is known, no other state changes, and bound slots stay valid. |
| CsvLoader.NeverFaults | src/automaton/file_handling/automaton_csv_file_loader.c:239-244 | With the count test first, no row writes past the header's columns. |
| CsvLoader.ParseRowAsWritten | src/automaton/file_handling/automaton_csv_file_loader.c:208-249 | The parser as written writes an excess cell before its count test, so an excess cell is a fault, never TOO_MANY_CELLS. |
| CsvLoader.NeverTooMany | src/automaton/file_handling/automaton_csv_file_loader.c:208-244 | As written, TOO_MANY_CELLS is never reached. |
| CsvLoader.RowAsWrittenAgrees | src/automaton/file_handling/automaton_csv_file_loader.c:208-249 | The two row parsers agree on every row, except that an excess cell is a fault as written and TOO_MANY_CELLS corrected. |
| CsvLoader.UnknownStateRejected | src/automaton/file_handling/automaton_csv_file_loader.c:183-194 | A row whose first cell names no state is BAD_STATE_NAME. |
| CsvLoader.CellAccumulates | src/automaton/file_handling/automaton_csv_file_loader.c:258-263 | Every character of a data cell other than a separator, spaces included, is kept: data rows are not validated. |
| CsvLoader.LoadFrom | src/automaton/file_handling/automaton_csv_file_loader.c:319-369 | The load loop changes only slot contents and keeps valid slots valid. |
| CsvLoader.LoadCsv | src/automaton/file_handling/automaton_csv_file_loader.c:284-386 | A missing file, and only that, is LOAD_FAILED. Otherwise the first line that fits is the header and the rest are rows. The first failure ends the load. |
| CsvLoader.OverlongLineSkipped | src/automaton/file_handling/automaton_csv_file_loader.c:327-334 | A line too long for the 4096-byte buffer is skipped as if absent. |
| CsvLoader.ExcessCellWrittenFirst | src/automaton/file_handling/automaton_csv_file_loader.c:208-244 | A one-event automaton and the row `s,,`: as written the parser faults, while the corrected one returns TOO_MANY_CELLS. |
| CsvWriters.BlankTail | src/automaton/file_handling/automaton_csv_file_gen.c:75-79 | The corrected blank buffer holds one comma fewer than there are events, which gives one empty cell per event after the state's own comma. |
| CsvWriters.BlankTailAsWritten | src/automaton/file_handling/automaton_csv_file_gen.c:75-79 | As written, the buffer is the corrected one plus whatever byte the allocation left at position N-1, when that byte is not NUL. |
| CsvWriters.GenHeader | src/automaton/file_handling/automaton_csv_file_gen.c:85-89 | For distinct event names of letters and `_`, with ids equal to positions, the generated header reads back as the columns 0, 1, …, N-1. |
| CsvWriters.GenRow | src/automaton/file_handling/automaton_csv_file_gen.c:96-99 | A row is one line ending in a newline. With a tail of commas it is the state name followed by one more empty cell than the tail has commas. |
| CsvWriters.GenLines | src/automaton/file_handling/automaton_csv_file_gen.c:85-99 | The blank table is the header followed by one row per state, in order. |
| CsvWriters.GenLinesAsWritten | src/automaton/file_handling/automaton_csv_file_gen.c:75-99 | As written, the blank table matches the corrected one exactly when the unset byte is NUL. |
| CsvWriters.GenerateCsv | src/automaton/file_handling/automaton_csv_file_gen.c:28-115 | An existing file, and only that, is ALREADY_EXISTS and is not written. An uncreatable file, and only that, is NOT_CREATED. Otherwise the blank table is written. |
| CsvWriters.GenerateCsvAsWritten | src/automaton/file_handling/automaton_csv_file_gen.c:28-115 | The same codes, with the table as written. |
| CsvWriters.DumpCells | src/automaton/file_handling/automaton_file_output.c:63-75 | A dumped row has one cell per event, in id order. |
| CsvWriters.DumpHeader | src/automaton/file_handling/automaton_file_output.c:28-40 | For distinct event names of letters and `_`, with ids equal to positions, the spaced header reads back as the columns 0, 1, …, N-1. |
| CsvWriters.DumpCell | src/automaton/file_handling/automaton_file_output.c:66-73 | For distinct, non-empty transition names without separators, the cell has no separator and reads back as the slot it was written from. |
| CsvWriters.DumpRow | src/automaton/file_handling/automaton_file_output.c:54-76 | For a well-formed automaton, the dumped row of a state reads back into that same automaton without changing it. |
| CsvWriters.DumpRowReadsBack | src/automaton/file_handling/automaton_file_output.c:54-76 | Reading a dumped row back into the automaton it came from changes nothing. |
| CsvWriters.DumpLines | src/automaton/file_handling/automaton_file_output.c:28-76 | The dump is the spaced header followed by one line per state. |
| CsvWriters.DumpAutomaton | src/automaton/file_handling/automaton_file_output.c:89-142 | An existing file without overwrite, and only that, is FILE_EXISTS. An unwritable file is WRITE_FAIL. Otherwise the table is written. |
| CsvWriters.HeaderReadsBack | src/automaton/file_handling/automaton_file_output.c:35-39 | Both the generator's header and the dump's spaced header read back as columns 0, 1, …, N-1. |
| CsvWriters.FillSlotsInOrder | src/automaton/file_handling/automaton_csv_file_loader.c:219-249 | With columns 0, 1, …, the cell of column e lands in slot e, and every other slot is untouched. |
| CsvWriters.RowReadsBack | src/automaton/file_handling/automaton_csv_file_loader.c:152-269 | A written state row loads into exactly the slots its cells denote. |
| CsvWriters.LoadRows | src/automaton/file_handling/automaton_csv_file_loader.c:359-368 | Loading the rows fills every state with the slots its row denotes. |
| CsvWriters.TableReadsBack | src/automaton/file_handling/automaton_csv_file_loader.c:284-386 | A written header and rows load into any automaton of the same shape as the slots the cells denote. |
| CsvWriters.GenLinesAreTable | src/automaton/file_handling/automaton_csv_file_gen.c:85-99 | The blank table is a header plus one row of empty cells per state. |
| CsvWriters.AppliedBlank | src/automaton/file_handling/automaton_csv_file_loader.c:208-211 | Empty cells denote empty slots everywhere. |
| CsvWriters.GenReadsBack | src/automaton/file_handling/automaton_csv_file_gen.c:85-99 | Round trip: the corrected blank table loads with every slot of every state empty. |
| CsvWriters.DumpCellReadsBack | src/automaton/file_handling/automaton_file_output.c:63-75 | A dumped cell has no separator in it and reads back as the slot it was written from. |
| CsvWriters.DumpLinesAreTable | src/automaton/file_handling/automaton_file_output.c:28-76 | The dump is a spaced header plus one row per state. |
| CsvWriters.DumpCellsReady | src/automaton/file_handling/automaton_file_output.c:63-75 | The dumped cells denote exactly the automaton's slots. |
| CsvWriters.DumpReadsBack | src/automaton/file_handling/automaton_file_output.c:129-137 | Round trip: loading the dump into an automaton of the same shape restores every slot table. This holds when transition names are unique and free of separators. |
| CsvWriters.TinyLines | src/automaton/file_handling/automaton_csv_file_gen.c:75-99 | For one event and one state, with a comma as the unset byte, the table as written has the row `s,,` where `s,` was intended. |
| CsvWriters.UnsetByteBreaksTable | src/automaton/file_handling/automaton_csv_file_gen.c:75-79 | That table as written fails to load (PARSE_FAILED). |
| CsvWriters.TinyBlankReadsBack | src/automaton/file_handling/automaton_csv_file_gen.c:85-99 | The corrected table of the same automaton loads back. |
| EventQueue.Create | src/data_structures/event_queue.c:65-85 | A new queue is empty, with top and bottom both NULL. |
| EventQueue.Add | src/data_structures/event_queue.c:128-166 | Adding fails only on a corrupt top that is not a live node. Otherwise the new node holds the event and becomes the top; its `next` is the old top and it has no `prev`. On an empty queue it is the bottom too. Exactly one node is allocated. |
| EventQueue.AddAppends | src/data_structures/event_queue.c:128-166 | Adding puts the event after all older ones, at the top. On an empty queue the node is also the bottom. |
| EventQueue.AddKeepsOlder | src/data_structures/event_queue.c:155-165 | Adding leaves the older nodes untouched, except that the old top gains its `prev` link. Exactly one node is allocated. |
| EventQueue.AddAllocated | src/data_structures/event_queue.c:36-55 | After an add every queued node is allocated and distinct. |
| EventQueue.AddLinks | src/data_structures/event_queue.c:144-165 | After an add the `prev` and `next` chains and the two ends are consistent. |
| EventQueue.TakeEmpty | src/data_structures/event_queue.c:190-194 | Taking from an empty queue yields no event and changes nothing. |
| EventQueue.Take | src/data_structures/event_queue.c:179-225 | The corrected take. An empty queue yields no event and no change. Otherwise it yields the bottom node's event and frees exactly that node. The bottom moves to its `prev`, and the queue is empty when no `prev` exists. |
| EventQueue.TakeAsWritten | src/data_structures/event_queue.c:179-225 | As written, an empty queue yields no event. A bottom with a `prev` is a use after free. A take that returns frees nothing, so the removed node leaks; it yields the bottom's event and leaves both ends NULL. |
| EventQueue.TakeRemovesOldest | src/data_structures/event_queue.c:179-225 | The corrected take yields the oldest event and frees exactly its node. The rest stay in order, and taking the only event empties the queue. |
| EventQueue.TakeContents | src/data_structures/event_queue.c:200-212 | After a take the queue holds the events after the oldest. |
| EventQueue.TakeKeepsRest | src/data_structures/event_queue.c:200-221 | A take frees the old bottom, clears the new bottom's `next`, and touches no other node. |
| EventQueue.TakeAllocated | src/data_structures/event_queue.c:200-212 | After a take every remaining node is allocated and distinct. |
| EventQueue.TakeLinks | src/data_structures/event_queue.c:210-221 | After a take the chains are consistent. |
| EventQueue.TakeAsWrittenFaults | src/data_structures/event_queue.c:200-212 | As written, with two or more events a take frees the new bottom and then writes into it. |
| EventQueue.TwoAddsThenTakeAsWritten | src/data_structures/event_queue.c:200-212 | Two adds, then one take: a use after free as written; the corrected take yields the first event. |
| EventQueue.TakeAllAsWritten | src/ai_general/player_ai.c:44-50 | The take loop with the take as written ends with no event on an empty queue, and never hands out more than one event. |
| EventQueue.TakeAll | src/ai_general/player_ai.c:44-50 | The take loop with the corrected take ends with no event on an empty queue, and hands out at most one event per node. |
| EventQueue.TakeAllYieldsContents | src/ai_general/player_ai.c:44-50 | With the corrected take, the loop hands out every queued event, oldest first. |
| EventQueue.TakeAllAsWrittenAgrees | src/data_structures/event_queue.c:200-212 | The loop as written succeeds exactly when at most one event is queued, and then hands out the same events as the corrected loop. With two or more events it ends in a use after free. |
| EventQueue.FifoOrder | src/data_structures/event_queue.c:198-200 | Two adds followed by two takes give the events back in insertion order and leave a new-queue state. |
| EventQueue.DestroyWalksChain | src/data_structures/event_queue.c:106-112 | Destroying walks the `next` chain from the top, freeing each node once, newest first. |
| EventQueue.Destroy | src/data_structures/event_queue.c:94-118 | Destroying an empty queue frees nothing. Otherwise the nodes freed start with the top, each is a live node, and none is freed twice. |
| EventQueue.DestroyFreesEachOnce | src/data_structures/event_queue.c:94-118 | Destroying a well-formed queue frees every node exactly once. |
| TimedQueue.PopTime | src/automaton/data_structures/automaton_timed_event_queue.c:127 | The due time is the 32-bit unsigned sum of start and length. It equals the plain sum when that does not overflow. |
| TimedQueue.Create | src/automaton/data_structures/automaton_timed_event_queue.c:24-42 | A new timed queue is empty and sorted. |
| TimedQueue.Insert | src/automaton/data_structures/automaton_timed_event_queue.c:119-178 | The node goes before the first node due strictly later, so after every node due at the same time or earlier. An empty queue gets the node alone. A node due before the head becomes the head. |
| TimedQueue.InsertMultiset | src/automaton/data_structures/automaton_timed_event_queue.c:119-178 | Insertion adds exactly the one node. |
| TimedQueue.InsertSorted | src/automaton/data_structures/automaton_timed_event_queue.c:143-175 | Insertion keeps the queue sorted by due time and adds exactly the one node. |
| TimedQueue.InsertAsWrittenAgrees | src/automaton/data_structures/automaton_timed_event_queue.c:157-164 | Where the code as written returns, it agrees with the corrected insert. It fails to return exactly when the queue has two or more nodes and the new one is not due before the head. |
| TimedQueue.InsertAsWrittenHangs | src/automaton/data_structures/automaton_timed_event_queue.c:157-164 | Nodes due at 1 and 2, then one due at 3: the code as written never returns. |
| TimedQueue.PopDue | src/automaton/data_structures/automaton_timed_event_queue.h:16-27 | Splits the queue into the leading nodes due by `t` and the rest, which starts with a node not yet due. |
| TimedQueue.PopDueExact | src/automaton/data_structures/automaton_timed_event_queue.h:16-27 | On a sorted queue, nothing due is left behind, and what remains is sorted. |
| TimedQueue.Deliver | src/automaton/data_structures/automaton_timed_event_queue.c:188-203 | Each player whom the node addresses (every player of both teams for an all-players node, else the one player its team and player ids name) gets the event at the end of its queue. All other players are unchanged, and both teams keep their shape and flags. |
| TimedQueue.DeliverAll | src/automaton/data_structures/automaton_timed_event_queue.c:229-246 | Delivering a run of nodes in order extends each player's queue by exactly the events of the nodes addressed to it, in queue order. Teams keep their shape and flags. |
| TimedQueue.PopAll | src/automaton/data_structures/automaton_timed_event_queue.c:216-247 | The corrected pop keeps exactly the nodes not yet due. Each player's queue is extended by the events of the popped nodes addressed to it, in order. |
| TimedQueue.PopAllDeliversDue | src/automaton/data_structures/automaton_timed_event_queue.c:188-247 | On a sorted queue, each player receives exactly the events of all due nodes addressed to it, in queue order, and every node left is due later than `t`. |
| TimedQueue.InsertAsWritten | src/automaton/data_structures/automaton_timed_event_queue.c:119-178 | The insert as written fails to return exactly when the queue has two or more nodes and the new node is not due before the head. When it returns, it holds the old nodes plus the new one. |
| TimedQueue.PopAsWritten | src/automaton/data_structures/automaton_timed_event_queue.c:216-247 | As written, a pop that returns delivers nothing and leaves the queue as it was. A fault happens only after the head, not yet due, was delivered. |
| TimedQueue.PopAsWrittenInverted | src/automaton/data_structures/automaton_timed_event_queue.c:229-246 | As written, the pop never delivers a due event. A due head stops it at once. A not-yet-due head is delivered and then the loop faults on the freed node. |
| Routing.ThrowSingle | src/ai_general/ai_event_handler.c:25-32 | Exactly one event is appended to exactly one player's queue; no other player changes. |
| Routing.Enqueue | src/ai_general/ai_event_handler.c:31 | The event goes to the end of the player's queue. The older events keep their order, and nothing else about the player changes. |
| Routing.ThrowSingleByName | src/ai_general/ai_event_handler.c:46-73 | An unknown name changes nothing. A known one enqueues its event once. |
| Routing.MultiLoop | src/ai_general/ai_event_handler.c:96-106 | From player index `ii` on, both teams' players get the event; earlier ones and those beyond players_per_team do not. |
| Routing.ThrowMulti | src/ai_general/ai_event_handler.c:86-107 | Each of the 2 × players_per_team queues gets exactly one copy; nothing else changes. |
| Routing.ThrowMultiByName | src/ai_general/ai_event_handler.c:120-156 | The name is resolved once, in the given automaton. An unknown name reaches nobody. |
| PlayerAi.Drain | src/ai_general/player_ai.c:44-50 | Draining a queue with the corrected take keeps the player in a valid state, and runs only exit and entrance callbacks. |
| PlayerAi.DrainAppend | src/ai_general/player_ai.c:44-50 | Draining two queues one after the other is draining their concatenation. Each event is resolved against the automaton the previous one left. |
| PlayerAi.UnboundEventIgnored | src/ai_general/player_ai.c:44-50 | An event with no transition in the current state leaves the player where it is. |
| PlayerAi.ProcessPlayer | src/ai_general/player_ai.c:32-58 | Counting the engine's own writes only, and with the corrected take: after processing, the queue is empty and the player is still ready, and only its automaton and state change. The last callback is the per-tick function of the state it ends in, run exactly once; all others are exit and entrance callbacks. |
| PlayerAi.ProcessPlayerFollowsDrain | src/ai_general/player_ai.c:44-57 | The player ends where draining its whole queue leads. |
| PlayerAi.RunPlayer | src/ai_general/player_ai.c:44-57 | The C loop with the corrected take, taking one event at a time and then ticking, computes exactly what ProcessPlayer states. |
| PlayerAi.ProcessPlayerAsWritten | src/ai_general/player_ai.c:44-57 | process_player_ai over the player's linked queue with the take as written. It faults exactly when two or more events are queued, and otherwise computes exactly what ProcessPlayer states. |
| PlayerAi.AllFrom | src/ai_general/player_ai.c:79-98 | The driver's loops keep both teams' shapes. |
| PlayerAi.AllFromPlayers | src/ai_general/player_ai.c:83-95 | Each AI-managed player among the first players_per_team is replaced by its processing; every other player stays. |
| PlayerAi.AllFromVisitsManaged | src/ai_general/player_ai.c:83 | Every processed player is AI-managed and among the first players_per_team. |
| PlayerAi.AllFromVisitsOrdered | src/ai_general/player_ai.c:79-82 | Players are processed with the player index outer and the team inner. |
| PlayerAi.AllFromVisitsComplete | src/ai_general/player_ai.c:79-98 | Every AI-managed player among the first players_per_team is processed. |
| PlayerAi.AllFromGlobals | src/ai_general/player_ai.c:89-90 | After the pass, the callback globals name the last player processed, or are untouched if there was none. |
| PlayerAi.ProcessorIsProcessPlayer | src/ai_general/player_ai.c:95 | The driver applies process_player_ai to every player it hands on. |
| PlayerAi.ProcessAll | src/ai_general/player_ai.c:71-99 | process_all_player_ai gathers the properties above: replacement, visit order, completeness and globals. |
| PlayerAi.ProcessAllDrainsQueues | src/ai_general/player_ai.c:79-98 | Counting the engine's own writes only, and with the corrected take: after a pass each AI-managed player has an empty queue and is ready for the next tick; everyone else is unchanged. |
| LuaCallbacks.SetUp | src/impl_automatons/lua_callbacks/lua_call_back_functions.c:52-60 | The match is captured only when no reference is held. Every call adds one reference. |
| LuaCallbacks.Destroy | src/impl_automatons/lua_callbacks/lua_call_back_functions.c:68-78 | Drops one reference, never below zero. |
| LuaCallbacks.SetUpThenDestroy | src/impl_automatons/lua_callbacks/lua_call_back_functions.c:52-78 | A set-up followed by a destroy restores the count. |
| LuaCallbacks.FirstSetUpWins | src/impl_automatons/lua_callbacks/lua_call_back_functions.c:54-59 | After a series of set-ups from zero, the callbacks see the first match. The same number of destroys brings the count back. |
| LuaCallbacks.KeepsCapture | src/impl_automatons/lua_callbacks/lua_call_back_functions.c:54-59 | While a reference is held, further set-ups never change the captured match. |
| LuaCallbacks.DestroysCount | src/impl_automatons/lua_callbacks/lua_call_back_functions.c:70-77 | n destroys drop n references, saturating at zero. |
| LuaCallbacks.SetLuaPlayer | src/impl_automatons/lua_callbacks/lua_call_back_functions.c:90-94 | Sets exactly the current team and player. |
| LuaCallbacks.Truncate | src/impl_automatons/lua_callbacks/lua_call_back_functions.c:670 | The `(int)` cast truncates toward zero. |
| LuaCallbacks.NumberArg | src/impl_automatons/lua_callbacks/lua_call_back_functions.c:658-665 | A call is accepted only with exactly one numeric argument. |
| LuaCallbacks.SetDesiredMark | src/impl_automatons/lua_callbacks/lua_call_back_functions.c:646-686 | A single number that truncates into [0, players_per_team) becomes the current player's mark. Anything else is ignored. |
| LuaCallbacks.DesiredMarkChanges | src/impl_automatons/lua_callbacks/lua_call_back_functions.c:658-683 | The mark changes exactly when the call is well formed and in range, and no other field of any player changes. |
| LuaCallbacks.SmallNegativeMarkAccepted | src/impl_automatons/lua_callbacks/lua_call_back_functions.c:670-678 | −0.5 truncates to 0 and is accepted as a mark. |
| LuaCallbacks.ClampPercent | src/impl_automatons/lua_callbacks/lua_call_back_functions.c:247-258 | Speeds are clamped into [0, 100]; values already in range are kept. |
| LuaCallbacks.SetPlayerSpeed | src/impl_automatons/lua_callbacks/lua_call_back_functions.c:220-272 | A bad argument changes nothing. A good one sets only the current player's speed percentage, clamped. |
| LuaCallbacks.SpeedStaysInRange | src/impl_automatons/lua_callbacks/lua_call_back_functions.c:247-265 | The speed stays in [0, 100] whatever real Lua passes, and asking for the current speed changes nothing. |
| LuaCallbacks.GetAllTeamMarks | src/impl_automatons/lua_callbacks/lua_call_back_functions.c:579-633 | Returns one row per player of the current team. Its key is index + players_per_team × team. It carries the player's mark and the other team's index. |
| LuaCallbacks.MarkKeysIdentify | src/impl_automatons/lua_callbacks/lua_call_back_functions.c:605-606 | Two rows share a key exactly when they are the same player of the same team. |
| MatchState.CreatePlayers | src/match_state.c:32-89 | Creates players_per_team players per team. Player i of team j has ids (i, j) and an empty queue. It starts in the start state of the start automaton of its team's set. It is AI-managed, and its `has_disc` is the given leftover value, since `create_player` never writes it. |
| MatchState.CreateTeam | src/team.c:18-31 | A fresh team holds no players until create_players fills it. Its two flags are the given values, standing in for the memory the allocation leaves. |
| MatchState.TeamsStartApart | src/match_state.c:49-58 | The two teams always start in different sets. Team 0's flag alone decides which. |
| MatchState.CreateMatchState | src/match_state.c:164-184 | No handler means no match. Otherwise both teams have PLAYERS_PER_TEAM players. With runnable factories, every player is ready for the tick driver. |
| MatchState.LoadedRunnable | src/automaton/data_structures/automaton.c:65-71 | Loading keeps the factory's states apart from their bound slots. So a loaded set with valid references is as runnable as the factory. |
| MatchState.StartPlayersReady | src/match_state.c:59-60 | Players placed in runnable sets are ready for the tick driver. |
| MatchState.LoadedHasStart | src/automaton/file_handling/automaton_transition_file_loader.c:518-539 | A loaded set has a start automaton, and that automaton has a start state. |
| MatchState.ReadyWhenRunnable | src/match_state.c:84-87 | Players of a created handler are ready once the factory is runnable and the references are valid. |
| MatchState.GameFactoriesRunnable | src/impl_automatons/o_automaton/o_automaton_states.c:50-110 | The game's factories build runnable states for its eight events. |
| Players.CreatePlayer | src/player.c:29-83 | A new player has the given ids and no automaton or state. It has an empty queue, zero vectors, standing animation at frame 0 facing away, full speed, and is AI-managed. Its `has_disc` is the given value, since `create_player` never writes it. |
| Players.CompleteCoords | src/player.c:130-133 | Accepts the proposed position; nothing else changes. |
| Players.RevertCoords | src/player.c:144-147 | Discards the proposed position; nothing else changes. |
| Players.CoordsUpdatesSettle | src/player.c:130-147 | Either update leaves the two positions equal, so the other one is then a no-op. |
| Players.CanCatchDisc | src/player.c:155-160 | No player can catch. |
| GameFunctions.CatchDisc | src/game_functions.c:34-57 | The catcher keeps only its vertical velocity, holds the disc and leaves AI control. The disc is with that player. Nothing else changes. |
| GameFunctions.CatchDiscIdempotent | src/game_functions.c:47-56 | Catching twice is catching once. |
| GameFunctions.CatcherSkippedByTick | src/game_functions.c:53-56 | After a catch the match stays ready, and the AI tick leaves the catcher as the catch left it. |
| GameFunctions.DiscLands | src/game_functions.c:67-87 | The disc is on the ground. If the offensive start automaton has no DISC_HIT_FLOOR event, no one is told. |
| GameFunctions.DiscLandsNotifiesAll | src/game_functions.c:76-86 | With the game's events, each of the first players_per_team players of both teams gets event 5 once, after what it had queued; no one else does. |
| GameFunctions.Turnover | src/game_functions.c:99-112 | Both teams' offence flags flip and nothing else changes. |
| GameFunctions.TurnoverTwice | src/game_functions.c:106-107 | Two turnovers restore the teams. |
| ConfigLoader.ScanLineMeaning | src/config_file/config_loader.c:49-73 | The scan keeps exactly the upper-case letters and `_` before the first `=`, and exactly the digits after it. |
| ConfigLoader.ParseConfigLineMeaning | src/config_file/config_loader.c:31-94 | A line adds its key and value only if both are non-empty and the key is new; otherwise the table is unchanged. |
| ConfigLoader.FirstOccurrenceWins | src/config_file/config_loader.c:88-92 | A key already in the table keeps its value. |
| ConfigLoader.NewlineIgnored | src/config_file/config_loader.c:67-72 | A trailing newline makes no difference to a line. |
| ConfigLoader.ParseExample | src/config_file/config_loader.c:51-72 | `Xy=-5` stores `X` = `5`: the lower-case letter and the minus sign are dropped. |
| ConfigLoader.ExampleKey | src/config_file/config_loader.c:51-56 | The key of `Xy=-5` is `X`. |
| ConfigLoader.ExampleValue | src/config_file/config_loader.c:57-61 | The value of `Xy=-5` is `5`. |
| ConfigLoader.ScanLine | src/config_file/config_loader.c:49-73 | The scanned key holds only upper-case letters and `_`, and the value only digits. Value parsing has begun exactly when the line holds an `=`, and with no `=` the value is empty. |
| ConfigLoader.ParseConfigLine | src/config_file/config_loader.c:31-94 | A line keeps every entry already in the table and adds at most one new entry. That entry has a non-empty key of upper-case letters and `_` and a non-empty value of digits. A line without `=` changes nothing. |
| ConfigLoader.Fgets | src/config_file/config_loader.c:138 | One fgets reads at least one character and at most 63, a contiguous piece of the file. It reports the end of the file only when it reached it. |
| ConfigLoader.ReadRound | src/config_file/config_loader.c:138-159 | Each round of the read loop moves forward in the file. |
| ConfigLoader.RoundNewline | src/config_file/config_loader.c:154-158 | A line that fits, with its newline, is read whole and parsed. |
| ConfigLoader.RoundLast | src/config_file/config_loader.c:138-158 | A last line without a newline that fits is read whole and parsed. |
| ConfigLoader.RoundLong | src/config_file/config_loader.c:146-153 | An overlong line is cut by fgets and the rest of it is discarded unparsed. |
| ConfigLoader.RoundIsOneLine | src/config_file/config_loader.c:138-159 | One round consumes exactly one line, parsing it if it fits and skipping it otherwise. |
| ConfigLoader.LoadLines | src/config_file/config_loader.c:138-159 | Loading lines never changes a key already in the table. |
| ConfigLoader.LoadFrom | src/config_file/config_loader.c:138-159 | The read loop keeps every entry already in the table. Every entry it adds has a non-empty key of upper-case letters and `_` and a non-empty value of digits. A rest of the file without `=` changes nothing. |
| ConfigLoader.LoadFromIsLineByLine | src/config_file/config_loader.c:138-159 | Reading with fgets and discarding overlong lines equals parsing, in order, exactly the lines that fit, whether or not the file ends in a newline. |
| ConfigLoader.LoadLinesWellFormed | src/config_file/config_loader.c:51-61 | Every key in a loaded table is upper-case letters and `_`, and every value is digits. |
| ConfigLoader.LoadConfig | src/config_file/config_loader.c:107-175 | An allocation failure gives its own code and no table. An open failure gives its own code and an empty table. Otherwise the table is the lines that fit, parsed in order. |
| ConfigMap.CreateConfigValueInt | src/config_file/config_map.c:22-64 | Exactly the four integer settings exist. Each has a well-formed key and a default within its range. |
| ConfigMap.CreateConfigValueStr | src/config_file/config_map.c:72-120 | Exactly the five string settings exist. Each has a well-formed key and a default that fits. |
| ConfigMap.KeysDistinct | src/config_file/config_map.c:32-111 | No two settings, integer or string, share a key. |
| ConfigMap.GetConfigValueInt | src/config_file/config_map.c:137-190 | An unknown setting returns false and leaves the output untouched. An absent key gives the default. A present key gives its atoi value clamped into the setting's range. |
| ConfigMap.SetConfigValueInt | src/config_file/config_map.c:204-244 | Writes only the setting's key; every other key keeps its value. |
| ConfigMap.GetAfterSetInt | src/config_file/config_map.c:221-237 | An integer setting reads back as the value it was set to, clamped into its range. |
| ConfigMap.SetIntLeavesOthers | src/config_file/config_map.c:236-242 | Setting one integer setting leaves every other setting reading as before. |
| ConfigMap.GetConfigValueStr | src/config_file/config_map.c:258-306 | An unknown setting returns false. Otherwise the stored text is returned, or the default when the key is absent. |
| ConfigMap.SetConfigValueStr | src/config_file/config_map.c:320-360 | A value longer than MAX_CONFIG_VALUE_LEN (1024), or an unknown setting, leaves the table unchanged. Otherwise only the setting's key changes. |
| ConfigMap.GetAfterSetStr | src/config_file/config_map.c:337-358 | A string setting reads back as set when it was short enough, and as before otherwise. |
| ConfigMap.SetStrLeavesOthers | src/config_file/config_map.c:352-358 | Setting one string setting leaves every other setting reading as before. |
| ConfigMap.LoadedIntValue | src/config_file/config_map.c:173-185 | A value loaded from the file is the number its digits denote, clamped. So `MAX_FPS=-5` gives 30, the minimum. |
| Decimal.AtoiIntText | src/config_file/config_map.c:236-237 | atoi reads back exactly the number `%i` writes, negative numbers included. |
| Decimal.AtoiDigits | src/config_file/config_map.c:173 | atoi of a run of digits is the number it denotes. |
| Decimal.AtoiNegative | src/config_file/config_map.c:173 | atoi of a minus sign and digits is the negated number. |
| Decimal.Atoi | src/config_file/config_map.c:173 | A non-empty run of digits reads as the number it denotes. A negative result needs a minus sign in the text, and text without a digit reads as 0. |
| Decimal.DigitsOf | src/config_file/config_map.c:236 | The digits written for a number are at least one decimal digit. A leading zero occurs only for 0 itself. |
| Pitch.CalculatePitchPositions | src/pitch.c:24-44 | The lines agree with the dimensions: side lines a width apart, endzone backs a length apart, each endzone the depth deep. Nothing else changes. |
| Pitch.LinesInOrder | src/pitch.c:29-43 | With accepted dimensions the lines run in order along the pitch. The playing field between the endzones is length − 2 × depth. |
| Pitch.SetPitchWidth | src/pitch.c:135-146 | Only the width changes, to the value given, which must be in range. |
| Pitch.SetPitchLength | src/pitch.c:157-168 | Only the length changes, to the value given, which must be in range. |
| Pitch.SetEndzoneDepth | src/pitch.c:179-191 | Only the depth changes, to the value given, which must be in range. |
| Pitch.SettersKeepDimensions | src/pitch.c:140-185 | The setters keep a pitch within the accepted dimensions. |
| Pitch.SetPitchLineColor | src/pitch.c:114-124 | The colour is stored with the default alpha; nothing else changes. |
| Pitch.LineAlphaIgnored | src/pitch.c:123 | The alpha argument makes no difference. |
| Pitch.InitPitch | src/pitch.c:236-274 | The pitch gets the minimum dimensions, the brick mark distance, white lines, and lines that match. |
| Pitch.InitPitchLines | src/pitch.c:248-274 | The standard pitch has side lines at 0 and 37, endzone fronts at 18 and 82, and the far back at 100. |
| Animation.AnimationCodeValue | src/animation/animation.h:44-46 | The return codes are 0, 1 and 2, and only success is 0. |
| Animation.CreateAnimation | src/animation/animation.c:188-225 | A sheet that did not load is FILE_LOAD_FAIL, and any other failure is POST_LOAD_FAIL; neither gives an animation. Otherwise the frame size is as given, and a row holds the sheet width divided by the frame width, truncated. |
| Animation.FramesFitRow | src/animation/animation.c:219-220 | A row holds the frames that fit the sheet and not one more. |
| Animation.IncrementFrame | src/animation/animation.c:25-36 | The frame moves on by one, modulo the current animation's frames per row, with C's remainder. Only the frame changes. From a frame in range it stays in range. |
| Animation.IncrementFrames | src/animation/animation.c:33-35 | k increments keep the animation, and from a frame in range they land k frames on, modulo the row length. |
| Animation.FullRowReturns | src/animation/animation.c:33-35 | A full row of increments returns to the starting frame. |
| EntityGraphic.SpriteCodeValue | src/entity_graphic.h:13-15 | The load codes are 0, 1 and 2, and only success is 0. |
| EntityGraphic.LoadSprite | src/entity_graphic.c:32-83 | A missing image is LOAD_FAIL. A failed texture conversion is CONVERT_FAIL, with the size still taken from the image. Otherwise the code is OK. |
| EntityGraphic.CreateEntityGraphic | src/entity_graphic.c:98-128 | A new graphic has no references and carries the load's code. |
| EntityGraphic.AddReference | src/entity_graphic.c:163-166 | Adds exactly one reference. |
| EntityGraphic.RemoveReference | src/entity_graphic.c:179-201 | Drops one reference. The graphic is destroyed, and true returned, exactly when none is left. From zero the count goes to −1 and the graphic survives. |
| EntityGraphic.AddThenRemove | src/entity_graphic.c:163-198 | Adding then removing a reference restores the graphic, unless it had none, in which case it is destroyed. |
| EntityGraphic.LastReleaseDestroys | src/entity_graphic.c:189-198 | A graphic survives every release but the last, and the last one destroys it. |
| EntityGraphic.AddReferences | src/entity_graphic.c:165 | k adds raise the count by exactly k. |
| EntityGraphic.SharedGraphicLifetime | src/entity_graphic.c:125-198 | With k references on a fresh graphic, the k-th release destroys it and no earlier one does. |
| ScreenText.ScoreText | src/main.c:525-541 | Either score at 100 or more gives the empty text. Otherwise the text reads back as the two scores and fits the 10-byte buffer. |
| ScreenText.ScoreTextInjective | src/main.c:539 | Shown scores are told apart by their texts. |
| ScreenText.ElapsedMs | src/main.c:503 | The elapsed time is the 32-bit unsigned difference of the tick counts. |
| ScreenText.Totals | src/main.c:504-506 | The three clock fields are total seconds, total minutes and total hours. |
| ScreenText.TimerTextAsWritten | src/main.c:489-512 | The text as written reads back as those three totals. |
| ScreenText.TimerTextAsWrittenOverflows | src/main.c:503-511 | The text as written fits its 10-byte buffer exactly when less than 100 minutes have passed. |
| ScreenText.TimerAsWrittenAt100Minutes | src/main.c:503-511 | At 100 minutes the fields are 1, 100 and 6000, and the text overflows. |
| ScreenText.TimerText | src/main.c:509-511 | The intended `hh:mm:ss` clock reads back as the hours and the minutes and seconds within them. |
| ScreenText.TimerFieldsAddUp | src/main.c:503-511 | The intended fields are below 60 and add back up to the elapsed seconds. |
| ScreenText.TimerTextFits | src/main.c:366-367 | The intended clock fits its buffer for the first thousand hours. |

## Left out

- XmlLoader.ParseSingleAutomaton: it links transitions with the corrected pass XmlLoader.FillLinks. The C's fill_single_automaton_links (src/automaton/file_handling/automaton_transition_file_loader.c:408) carries one branch's automaton switch into later transitions (:76-77). The two agree whenever no branch of the automaton switches (XmlLoader.FillLinksAgreeWithoutSwitch); the as-written pass is XmlLoader.FillLinksAsWritten.
- PlayerAi.ProcessPlayer, PlayerAi.ProcessAllDrainsQueues: the contracts cover the engine's own writes. Callbacks are recorded by name and not run. In the game, per-tick functions may throw events such as ARRIVED_AT_LOCATION (src/impl_automatons/o_automaton/o_automaton_state_funcs.c:123-128) and set the velocity. Entrance and exit functions set the animation, curr_frame, velocity and desired position (:45, :91-92, :161-168, :249-256). These effects are not modelled, so "the queue ends empty" and "only automaton and state change" hold for the engine's part only.
- PlayerAi.ProcessAllDrainsQueues, PlayerAi.Drain, PlayerAi.ProcessPlayer, PlayerAi.RunPlayer: the drain uses the corrected take (EventQueue.Take). The C's loop uses get_event_from_queue as written, and agrees with it only when at most one event is queued. With two or more events the take faults (EventQueue.TakeAsWrittenFaults, src/data_structures/event_queue.c:200-212), so "the queue ends empty" holds for the C only in that case (PlayerAi.ProcessPlayerAsWritten, EventQueue.TakeAllAsWrittenAgrees).
- The Lua runtime: stack marshalling, `lua_getglobal`, `lua_pcall`, the loading of scripts, and `register_lua_callback_functions`. The predicate is an oracle and callbacks are names in a trace.
- The Lua callback getters and the remaining setters that only move floats between Lua and the match: pitch dimensions, positions, intercept times, desired position, stop running, and attacking direction.
- The per-state behaviour bodies of the O automaton. They are opaque floating-point game logic, and appear as callback names.
- ezxml parsing. An XML document is an abstract element tree, or `None` when it does not parse.
- File I/O: fopen, fgets, fprintf, fclose and file existence. Files are contents or lines; existence and writability are given. Handles the dump does not close on some paths are not modelled.
- Memory management and logging:
  - allocation failure of DT_MALLOC;
  - `destroy_automaton` and its tolerance of a zeroed automaton;
  - `destroy_automaton_state`, which frees only the slot array;
  - the node leaked by the queue take when the queue had one event;
  - the wrong `sizeof` for a timed-queue node at src/automaton/data_structures/automaton_timed_event_queue.c:99.

  The event queue keeps a heap of node addresses so that the free-order defect can be stated.
- StrMap failures. `strmap_put` and `strmap_get` are a Dafny map and are assumed not to fail.
- Floating point.
  - Pitch colour components are reals and only stored. The pitch's line width (a float) is left out.
  - Player vectors are integers.
  - Lua numbers are reals, so NaN is not modelled. A NaN speed passes `lua_isnumber`, fails both range tests and would be stored unclamped. The `(float)` cast of a speed percentage is not modelled.
- ScreenText.TimerTextAsWritten: the C divides in single-precision floats. The model divides exactly, which differs from the C only for tick counts beyond a float's 24-bit mantissa.
- ConfigMap.GetConfigValueInt: atoi of a digit run too large for an `int` is undefined in C. The model reads the exact value and clamps it.
- ConfigMap.GetAfterSetStr: a value of exactly 1024 characters is accepted by the setter. What the getter returns for it depends on `strmap_get` (src/config_file/config_map.c:281-284, called with a 1024-byte buffer), and StrMap is not part of this model. The model reads such a value back whole.
- Names are cut to their buffers: automaton names at 100 characters, transition and Lua function names at 200, file names at 1024 (`Clip`). Event and state names are never longer than their buffers.
- NUL bytes inside strings are not modelled. Strings stop at their end.
- CsvLoader.ParseRow: the C compares the cell count with the automaton's number of events. The header's columns beyond its own count are uninitialised memory. The corrected parser refuses a cell beyond the header's column count, which is the only bound that keeps every write defined.
- Duplicate transition names: lookups find the first. The dump round trip is stated for unique names free of separators, which is the condition under which the table format can represent the slots.
- XmlLoader.ParseAutomatonSetXml: on LOAD_FAIL the C leaves the automaton count uninitialised. The model returns an empty set.
- MatchState.CreateMatchState: `create_team` leaves the teams' flags uninitialised, so the two teams' flags are parameters. Floats the C sets on players (sizes) are not modelled.
- Players and GameFunctions: `has_disc` and `marked_player_index` are uninitialised by `create_player`. The initial `has_disc` is a parameter of Players.CreatePlayer, MatchState.CreatePlayers and MatchState.CreateMatchState. The initial `marked_player_index` is not constrained.
- Animation.IncrementFrame, Animation.IncrementFrames: they require a non-zero frames-per-row count. CreateAnimation yields 0 frames per row when the sprite sheet is narrower than one frame (src/animation/animation.c:219-220). The C's `%` (src/animation/animation.c:33-35) then divides by zero. That trap is not modelled.
- Animation.CreateAnimation: a frame width of 0 is a division by zero in C, so it is a precondition. `calculate_animation_direction`, `destroy_animation` and the animation handler's loading are left out: geometry, and memory.
- The pitch's `create_pitch` (which loads a tile graphic) and `destroy_pitch` are left out as graphics and memory.
- Physics, rendering, audio, input, the main loop and the Python tooling are outside the core.

## Findings

| source | as written | input that shows it | evidently intended | confidence | as-written member | corrected member |
|---|---|---|---|---|---|---|
| src/data_structures/event_queue.c:200-212 | The take moves `bottom` to the next node up and then frees that new bottom, then writes its `next`. | Two adds to a new queue, then one take. | Free the node being removed and keep the new bottom. | not executed | EventQueue.TakeAsWrittenFaults | EventQueue.TakeRemovesOldest |
| src/automaton/data_structures/automaton_timed_event_queue.c:157-164 | The insert scan never advances `curr_node` and never leaves the loop. | Queue due at 1 and 2, insert a node due at 3. | Insert before the first node due strictly later. | not executed | TimedQueue.InsertAsWrittenHangs | TimedQueue.InsertSorted |
| src/automaton/data_structures/automaton_timed_event_queue.c:229-246 | The pop loop runs while the head is not yet due, and never advances past the node it frees. | A queue whose head is due after `t`. | Pop, in order, the leading nodes that are due. | not executed | TimedQueue.PopAsWrittenInverted | TimedQueue.PopDueExact |
| src/automaton/file_handling/automaton_transition_file_loader.c:76-77 | The branch's effective automaton is a loop-level local, so one transition's switch carries into later transitions. | Two automatons a and b. The first transition of a switches to b; the second names state x. | Each transition's names resolve from its own automaton unless its own branch switches. | not executed | XmlLoader.SwitchLeaksIntoNextTransition | XmlLoader.FillLinksIsIndependent |
| src/automaton/file_handling/automaton_csv_file_gen.c:75-79 | The blank buffer sets bytes 0 to N-2 and the terminator, never byte N-1. | One event, one state, allocation leaving a comma at N-1. | A buffer of N-1 commas. | not executed | CsvWriters.UnsetByteBreaksTable | CsvWriters.GenReadsBack |
| src/automaton/file_handling/automaton_csv_file_loader.c:208-244 | A cell is written through the column table before the count is tested. | Header `,e`, then the row `s,,`, for one event. | Refuse the excess cell with TOO_MANY_CELLS before writing. | not executed | CsvLoader.ExcessCellWrittenFirst | CsvLoader.NeverFaults |
| src/main.c:503-511 | Minutes and seconds are totals, written with `%i` into a 10-byte buffer. | 6,000,000 ms (100 minutes) gives `1:100:6000`. | `hh:mm:ss` with minutes and seconds below 60. | not executed | ScreenText.TimerAsWrittenAt100Minutes | ScreenText.TimerTextFits |
