# fprime-rust: a model of its stateful core, with proofs

The project models, in Dafny, the parts of fprime-rust that keep state, and proves what
they promise over all inputs, all runs or all interleavings.

- **State machines** (`Hierarchy`, `Flat`, `Meaning`, `Engine`, `Runs`). `Engine` is the run-time engine:
  parent-table walks, entering, transitions and signal dispatch, as classes and loops. `Flat`
  gives a second meaning, one fully inlined program per leaf and signal built from root-to-node
  paths. Every engine method is proved equal to its flattened program for every machine and
  every guard oracle, where an oracle may depend on the whole history of calls. `Meaning` tells
  the calls of a step a third time, from the machine's tables alone: which transition is tried,
  what a false guard does, and whose exit, transition, entry and initial actions follow in which
  order; engine steps and whole runs are proved to be so. `Runs` proves the laws of whole runs: bracketing of entries and exits, one write of the state per external
  step, termination of entering.
- **JSON** (`Json`, `JsonPrinter`, `JsonParser`, `JsonRoundTrip`, `JsonReader`, `JsonLayout`). The
  printer and the cursor-based parser are proved equal to declarative definitions, and those to
  round-trip. `JsonReader` gives the grammar from the writer's side, with its own escape and digit
  tables, and proves that the parser accepts exactly its texts and reads each as what it means;
  `JsonLayout` proves which of those texts the printer writes.
- **Buffer escrow** (`Escrow`). The slot table with its free list and 32-bit generations refines
  a map from tokens to buffers over every history.
- **Socket reconnect protocol** (`Reconnect`, `ReconnectRuns`, `ReadLoop`, `SocketLaws`). The reader, the
  reconnect thread, senders and other callers are a transition system with one step per locked
  section; the theorems range over all interleavings. The bounded socket loops are methods.
- **Message queue and component lifecycle** (`StableQueue`, `PriorityQueue`, `Wire`, `Queued`,
  `Lifecycle`, `Accounting`, `SignalDispatch`). The slab, free ring and heap of the generic queue refine a sequence from which
  the oldest message of highest priority is taken. `Lifecycle` runs senders, the exit request
  and the dispatch loop against that sequence in every interleaving, and `SignalDispatch` joins it
  to the state machine engine.
- **Front-end passes** (`Include`, `Tokens`, `LexerLaws`, `Spelling`, `Lexer`, `StateEnum`). Include
  splicing, the lexer and the pass that adds the state enum, each as a stateful class proved
  against a specification about which the laws are proved. `Spelling` writes every token down from
  the token's side and proves that the lexer reads it back, alone and in whole texts.

A failed assertion in the code is fail-stop: a method reports it (`None`, `false`, `Asserts`), or the
transition has no successor. Handlers, guards, sockets, the parser behind an include and the file system are
parameters. `dafny verify dfyconfig.toml` covers the project.

Where code and documentation differ, the model follows the code:

- `dispatch_available_messages` is documented to leave messages enqueued during the loop to the
  next call. A message of higher priority sent during the loop is dispatched by the same call
  (`Queued.Overtakes`); `Queued.SnapshotIffCalm` gives the exact condition under which the
  documented behaviour holds.
- The reconnect loop counts `AnotherThreadOpening` as served, so with a second opener a request can be
  dropped while nothing is open (`ReconnectRuns.DroppedUnsettled`).
- The JSON printer writes a non-finite float as `null`, so the round trip holds exactly for
  finite values (`JsonRoundTrip.RoundTripIffFinite`).

## Model

| member | source | states |
|---|---|---|
| Hierarchy.Depth | crates/fprime-comp/src/sm.rs:240-248 | the loop returns the length of the root-to-node path |
| Hierarchy.IsProperAncestor | crates/fprime-comp/src/sm.rs:251-260 | true exactly for the nodes strictly above the node on its path |
| Hierarchy.Lca | crates/fprime-comp/src/sm.rs:282-292 | returns the deepest node that is the source or one of its ancestors and a proper ancestor of the target, `None` when there is none; equal to the end of the common part of the two paths |
| Hierarchy.LcaIsDeepest | crates/fprime-comp/src/sm.rs:282-292 | the end of the common path prefix is a candidate and no candidate is deeper |
| Hierarchy.KeptCovers | crates/fprime-comp/src/sm.rs:263-292 | a level of the source path encloses the target exactly when it lies in the common prefix |
| Engine.StateMachine.ForEachExit | crates/fprime-comp/src/sm.rs:296-310 | from any node below the stop the walk meets it, so the closing assert is unreachable; the exits run are those of the path segment below the stop, innermost first |
| Engine.StateMachine.ForEachEntry | crates/fprime-comp/src/sm.rs:313-327 | the nested loops enter exactly the path segment strictly between the start and the target, outermost first |
| Engine.SmCore.BeginRun | crates/fprime-comp/src/sm.rs:200-207 | the assert passes exactly when no other step of the instance is in progress, and a step is in progress afterwards |
| Engine.StateMachine.Enter | crates/fprime-comp/src/sm_macro.rs:675-731 | entering a node does what the flattened program for that node does; it terminates because the initial and choice graph is ranked |
| Engine.StateMachine.EnterComposite | crates/fprime-comp/src/sm_macro.rs:711-731 | entry actions, initial actions, entry of the levels down to the initial target, then its own entering, as in the flattened program |
| Engine.StateMachine.EnterChoice | crates/fprime-comp/src/sm_macro.rs:768-860 | one guard call decides; the chosen branch leaves the choice and enters its target as in the flattened program |
| Engine.StateMachine.Go | crates/fprime-comp/src/sm_macro.rs:863-880 | a transition exits, acts and enters as the program built from the two root-to-node paths |
| Engine.StateMachine.Init | crates/fprime-comp/src/sm_macro.rs:325-338 | fails exactly inside another step; otherwise the initial transition does what its flattened program does and the step is over when it returns; the calls it made are, by the tables, the initial actions, the entry actions down to the target and those of entering it |
| Engine.StateMachine.React | crates/fprime-comp/src/sm_macro.rs:945-986 | the search outwards from the leaf and the transition it finds, with no fall-through on a false guard, do what the flattened program of the leaf and signal does, and what `Meaning.StepMeans` tells from the tables |
| Engine.StateMachine.SendSignal | crates/fprime-comp/src/sm_macro.rs:899-986 | fails exactly inside another step or before init; otherwise, for every leaf, signal and guard oracle, the run-time step makes the calls, in the order, and ends in the leaf, of the flattened program of that leaf and signal; by the tables, these are the calls of the first transition of the innermost state of the leaf's path that has one, a false guard being the only call and leaving the state |
| Meaning.StepMeans | crates/fprime-comp/src/sm_macro.rs:899-986 | for every leaf, signal and history: if no state of the path has a transition nothing is called; otherwise the first one listed for the innermost that has one is tried; its guard, if any, is the first call, answered as the owner answers on the history, and if false the only one; then come the exit actions of the states left, innermost first, the transition's, and the entry and initial actions of those entered, through any chain of choices, to the leaf that is the new state; an internal transition only acts |
| Meaning.InitMeans | crates/fprime-comp/src/sm_macro.rs:325-338 | the same for the initial transition |
| Meaning.EnterMeans | crates/fprime-comp/src/sm_macro.rs:675-860 | the calls of entering any node: entry actions of a leaf, entry and initial actions of a composite down to its target, the guard of a choice and the actions of the branch it selects |
| Meaning.LookupMeans | crates/fprime-comp/src/sm_macro.rs:945-986 | the transition found for a state is the first with that source, and none exactly if there is none |
| Runs.RunMeans | crates/fprime-comp/src/sm_macro.rs:325-338 | the log of every run falls into one piece for the initial transition and one for each signal, each piece being what the tables say its signal does in the leaf the piece before it ended in |
| Engine.InnermostWins | crates/fprime-comp/src/sm_macro.rs:945-986 | in the flattened program the innermost ancestor with a transition on the signal supplies it, at every level of the search |
| Flat.ExecGo | crates/fprime-comp/src/sm_macro.rs:863-880 | the meaning of a flattened transition: exits of the source side, actions, entries of the target side, then the target's own program |
| Flat.ExecEnterChoice | crates/fprime-comp/src/sm_macro.rs:835-860 | the meaning of an inlined choice: the guard asked on the whole history so far selects one of two inlined branches |
| Runs.ChainDistinct | crates/fprime-comp/src/sm_macro.rs:675-731 | the nodes one entering visits are pairwise distinct |
| Runs.EnterRun | crates/fprime-comp/src/sm_macro.rs:675-880 | entering any node, under any guard oracle, ends in a leaf, keeps the entry/exit bracketing, visits a strictly descending chain of nodes and writes the state once, last |
| Runs.SignalStep | crates/fprime-comp/src/sm_macro.rs:899-986 | a step that takes an external transition writes the state exactly once, after all its actions and guards, all of which saw the old state; any other step does not write it |
| Runs.InitStep | crates/fprime-comp/src/sm_macro.rs:325-338 | the same for the initial transition, from the empty stack |
| Runs.After | crates/fprime-comp/src/sm_macro.rs:325-338 | over every run of one init and any signals the log replays as a well-bracketed stack which, between signals, is the path of the current leaf |
| Runs.Drive | crates/fprime-comp/src/sm_macro.rs:325-338 | the engine's log and state after any signal sequence are those of the flattened semantics, for which the bracketing law holds, and are explained by the tables piece by piece |
| JsonPrinter.WriteString | crates/fprime-fpp/src/json.rs:152-168 | the loop appends the escaped form of the string |
| JsonPrinter.Write | crates/fprime-fpp/src/json.rs:74-128 | the recursive writer appends exactly the layout that the round trip is proved about |
| JsonPrinter.Pretty | crates/fprime-fpp/src/json.rs:67-72 | the pretty text is that layout at depth 0 with a final newline |
| JsonParser.Parser.ReadString | crates/fprime-fpp/src/json.rs:266-326 | the string reader decodes every escape and surrogate pair, or reports the error and position, as the declarative parser; a negative surrogate sum is an arithmetic overflow; what that means is `JsonReader.StringReads` |
| JsonParser.Parser.ReadNumber | crates/fprime-fpp/src/json.rs:328-354 | the number scanner cuts the literal where the declarative parser does and classifies it the same |
| JsonParser.Parser.ReadValue | crates/fprime-fpp/src/json.rs:206-264 | the recursive-descent reader agrees with the declarative parser on every text, success and error |
| JsonParser.ReadText | crates/fprime-fpp/src/json.rs:131-143 | the same for a whole text, with trailing characters an error |
| JsonReader.ParseIff | crates/fprime-fpp/src/json.rs:131-354 | the parser returns a value exactly for the texts that are a document with white space around it, in a grammar stated with its own tables of escapes, digits and white space, and the value is the one the document stands for |
| JsonReader.DocumentReads | crates/fprime-fpp/src/json.rs:131-264 | every document is read as the value it stands for, whatever spaces, tabs and line ends stand between its tokens |
| JsonReader.UnitReads | crates/fprime-fpp/src/json.rs:290-318 | four hexadecimal digits of either case stand for the character with that code |
| JsonReader.PairReads | crates/fprime-fpp/src/json.rs:301-318 | a character above the basic plane is read from the codes of its two surrogates |
| JsonReader.LetterReads | crates/fprime-fpp/src/json.rs:281-289 | the eight one-letter escapes stand for the characters of the standard |
| JsonReader.StringReads | crates/fprime-fpp/src/json.rs:266-326 | a string is read as the characters that its pieces, plain or escaped in any way, stand for |
| JsonReader.NumeralReads | crates/fprime-fpp/src/json.rs:328-354 | a numeral is read as the integer its digits stand for in base ten, or as the float with that text |
| JsonLayout.PrintsPretty | crates/fprime-fpp/src/json.rs:67-168 | the printed text is the document of the value with two spaces for each level, one element or member to a line, no leading zeros, the short escapes where there are any and lower-case codes otherwise |
| JsonParser.SurrogateSum | crates/fprime-fpp/src/json.rs:301-317 | the 32-bit sum of a surrogate pair overflows exactly when the second half is below 0xDC00 |
| JsonRoundTrip.StringRoundTrip | crates/fprime-fpp/src/json.rs:152-168 | every string comes back from its literal, whatever follows it |
| JsonRoundTrip.PrettyRoundTrip | crates/fprime-fpp/src/json.rs:67-143 | parsing the pretty text of any value, at any depth, with any strings and duplicate keys, gives the value back with non-finite floats turned to null |
| JsonRoundTrip.RoundTripIffFinite | crates/fprime-fpp/src/json.rs:67-143 | the very value comes back exactly when all its floats are finite |
| JsonRoundTrip.PrintingIsInjective | crates/fprime-fpp/src/json.rs:67-128 | two finite values with the same text are equal |
| Escrow.TokenBits | crates/fprime-comp/src/escrow.rs:65-109 | 64-bit tokens and (generation, index) pairs correspond one to one |
| Escrow.DepositRefines | crates/fprime-comp/src/escrow.rs:65-85 | a deposit returns a token that is not live and adds exactly that token to the map, keeping each empty slot on the free list once |
| Escrow.ClaimRefines | crates/fprime-comp/src/escrow.rs:91-109 | claiming a live token returns its buffer and removes exactly that token |
| Escrow.BufferEscrow.Deposit | crates/fprime-comp/src/escrow.rs:65-85 | the in-place deposit refines the map insertion, and the 64-bit token it returns decodes to the token inserted |
| Escrow.BufferEscrow.Claim | crates/fprime-comp/src/escrow.rs:91-109 | the three asserts pass exactly for live tokens, and the deposited buffer comes back |
| Escrow.BufferEscrow.Len | crates/fprime-comp/src/escrow.rs:112-115 | counts the buffers held |
| Escrow.HistoryRefines | crates/fprime-comp/src/escrow.rs:52-115 | over every history the escrow holds what a map would, deposits minus claims buffers, and exactly as many slots as were ever held at once |
| Escrow.SlotCounts | crates/fprime-comp/src/escrow.rs:52-109 | a slot's generation is its number of claims modulo 2^32 |
| Escrow.Reissue | crates/fprime-comp/src/escrow.rs:65-109 | a token value is issued again only after whole turns of 2^32 claims of its slot |
| ReconnectRuns.StreamMatchesState | crates/fprime-drv/src/socket_helper.rs:273-307 | in every interleaving a stream is stored exactly when the state is Open, so the assert against opening over a socket never fires |
| ReconnectRuns.SoleOpener | crates/fprime-drv/src/socket_helper.rs:512-560 | with the reconnect thread as only opener at most one open is in flight and it never finds another thread opening |
| ReconnectRuns.ServedInProgress | crates/fprime-drv/src/socket_helper.rs:512-544 | without a stop, a request being served is marked in progress throughout, so requests made meanwhile are absorbed |
| ReconnectRuns.RequestServed | crates/fprime-drv/src/socket_helper.rs:425-560 | without a stop, whoever opens, a request is dropped only by the reconnect thread, at the end of one pass from picking it up, marked in progress throughout; and in that pass the thread saw the socket open, published an open or found automatic open disabled exactly if it did not find another caller opening |
| ReconnectRuns.RequestSettled | crates/fprime-drv/src/socket_helper.rs:512-560 | if no one else calls open, the pass that drops a request always did one of the three |
| ReconnectRuns.DroppedUnsettled | crates/fprime-drv/src/socket_helper.rs:547-560 | a run in which another caller is opening and the request is dropped with no stream stored, automatic open enabled and no open attempted by the reconnect thread |
| SocketLaws.SocketWritten | crates/fprime-drv/src/socket_helper.rs:273-410 | after every step, field by field: a stream is stored exactly by publishing an open and dropped exactly by a close, the state follows, and stop and automatic open change only by their setters |
| SocketLaws.SharedWritten | crates/fprime-drv/src/socket_helper.rs:401-544 | the same for the reconnect record: asked for, picked up, ended, stopped |
| SocketLaws.StreamIff | crates/fprime-drv/src/socket_helper.rs:273-385 | in every interleaving a stream is stored exactly when an open has published one and nothing has closed the socket since |
| SocketLaws.ExclusiveOpen | crates/fprime-drv/src/socket_helper.rs:273-307 | whoever opens, as long as no one closes the socket while an open is in flight, at most one open is in flight and the state says so meanwhile |
| SocketLaws.TwoOpensInFlight | crates/fprime-drv/src/socket_helper.rs:273-385 | a close between two calls of open puts two of them in flight |
| SocketLaws.SendTells | crates/fprime-drv/src/socket_helper.rs:329-351 | what a finished send returns is what a step of its own saw: the transport's answer, the lost peer after a close, automatic open off, or the socket still not open; and it writes only on a stream that was stored when it looked |
| SocketLaws.SendEnds | crates/fprime-drv/src/socket_helper.rs:329-460 | a send takes at most nine steps, not counting polls while a reconnect is pending and its thread runs |
| SocketLaws.DeliveryTells | crates/fprime-drv/src/socket_helper.rs:463-508 | what is delivered is what a receive brought, and a failure is delivered only after the reader has closed the socket for it; an interrupted or empty receive does not close it |
| SocketLaws.ReaderTells | crates/fprime-drv/src/socket_helper.rs:463-508 | the reader asks for a reconnect only after finding the socket not open and itself not stopped, and ends only after finding itself stopped or automatic open off |
| SocketLaws.StopEndsReader | crates/fprime-drv/src/socket_helper.rs:389-508 | a stopped reader takes at most seventeen more steps, with the same exception for polls |
| ReadLoop.WaitSawOpen | crates/fprime-drv/src/socket_helper.rs:435-460 | a wait, of the reader or of a sender, that returns success saw the socket open with a stream stored |
| ReadLoop.DeliveredOnce | crates/fprime-drv/src/socket_helper.rs:463-508 | every buffer obtained is delivered exactly once, in order, with bytes exactly on success |
| ReadLoop.AtMostOneDelivery | crates/fprime-drv/src/socket_helper.rs:389-410 | after the reader's stop, as long as nothing is started again, at most one more buffer is delivered |
| ReadLoop.AtMostOneOpen | crates/fprime-drv/src/socket_helper.rs:389-410 | after the reconnect thread's stop, as long as nothing is started again, it attempts at most one more open |
| ReadLoop.LastStepCloses | crates/fprime-drv/src/socket_helper.rs:463-508 | the reader's last step is a close that leaves no stream |
| ReadLoop.SocketRecv | crates/fprime-drv/src/socket_helper.rs:611-646 | the retry loop answers by the first read that was not interrupted, within the iteration limit; bytes are reported exactly on success |
| ReadLoop.SocketSend | crates/fprime-drv/src/socket_helper.rs:574-606 | what went out is a prefix of the data, and all of it exactly on success |
| Include.Resolver.LoadIncluded | crates/fprime-fpp/src/include.rs:34-65 | cycle, unreadable and unparsable files are reported in that order; on success the stack is as before |
| Include.Resolver.ResolveMembers | crates/fprime-fpp/src/include.rs:67-350 | the splicing loops of the seven levels compute the specified splice, stop at the first failure, restore the stack on success, and terminate on every finite set of files; that it descends into just the nested definitions of the grammar is `Include.AdmitsNesting` |
| Include.AdmitsNesting | crates/fprime-fpp/src/include.rs:67-350 | the resolvers descend into a definition exactly where the listed nesting of the grammar puts one; the expansion and the typing below are stated with that list |
| Include.ParseWithIncludes | crates/fprime-fpp/src/include.rs:14-26 | a translation unit is parsed and resolved with its own file on the stack |
| Include.ResolveExpands | crates/fprime-fpp/src/include.rs:34-350 | a successful resolution is the in-order splice of the stackless expansion, for every nesting bound not below the number of files off the stack |
| Include.ResolveLeavesNone | crates/fprime-fpp/src/include.rs:67-350 | what is returned has no include specifier at any of the seven levels and is well formed for its level |
| Include.FailsIffReaches | crates/fprime-fpp/src/include.rs:34-350 | resolution fails exactly when some chain of includes through files without obstacles reaches one, and it reports an obstacle that is reached |
| Include.FailsIffCycle | crates/fprime-fpp/src/include.rs:41-65 | when everything reached can be read and parsed, resolution fails exactly when a chain revisits a file on it |
| Include.LoadAgrees | crates/fprime-fpp/src/include.rs:34-65 | a file that loads at one place loads to the same members at every other, under any other stack, exactly when none of the files it opens is open there; otherwise the error is the cycle |
| Include.ResolveAgrees | crates/fprime-fpp/src/include.rs:34-350 | the same for a member list at any level |
| Include.IncludedTwice | crates/fprime-fpp/src/include.rs:67-350 | including at any later position a file that an earlier position included is no error, and its members are spliced at both places, around what stands between |
| Lexer.Lexer.Advance | crates/fprime-fpp/src/lexer.rs:386-398 | line and column remain the counts over the text consumed |
| Lexer.Lexer.EatNewlines | crates/fprime-fpp/src/lexer.rs:426-440 | the loop stops where the newlines, spaces and comments end |
| Lexer.Lexer.NumberToken | crates/fprime-fpp/src/lexer.rs:607-682 | integer, hexadecimal and floating literals, their exponents and their errors, as specified |
| Lexer.Lexer.StringToken | crates/fprime-fpp/src/lexer.rs:690-781 | single- and triple-quoted literals and their errors, as specified |
| Lexer.Lexer.Run | crates/fprime-fpp/src/lexer.rs:442-597 | the loop terminates on every text with the specified tokens or the first error; which texts give which tokens is `Spelling.LexComesBack` and the laws beside it |
| LexerLaws.TidyIffSmooth | crates/fprime-fpp/src/lexer.rs:442-597 | for every text that lexes, no end-of-line token stands next to another, before a closer or the end of the file, or after an annotation or a binding symbol, exactly when every gap behind such a token that begins with a form feed or a backslash is smooth: it leads to no newline or comment and, behind an end-of-line token, to no closer and not to the end |
| LexerLaws.LexTidy | crates/fprime-fpp/src/lexer.rs:442-597 | in particular it holds for every text without form feeds and backslashes |
| LexerLaws.FormFeedSplits | crates/fprime-fpp/src/lexer.rs:451-453 | a form feed between two newlines leaves two end-of-line tokens side by side |
| LexerLaws.ContinuationSplits | crates/fprime-fpp/src/lexer.rs:477-487 | so does a line continuation between two newlines |
| LexerLaws.LexPlaced | crates/fprime-fpp/src/lexer.rs:386-406 | each token's line and column are the counts over the text before it, offsets strictly increase, and the end of file comes once and last |
| LexerLaws.StringComesBack | crates/fprime-fpp/src/lexer.rs:684-719 | every string, newlines included, is the value of some literal, read back in full wherever it stands |
| LexerLaws.WordComesBack | crates/fprime-fpp/src/lexer.rs:469-473 | a word is one token, a keyword if the table has it |
| LexerLaws.EscapedWordComesBack | crates/fprime-fpp/src/lexer.rs:460-468 | behind a dollar sign a word is an identifier, keyword or not |
| LexerLaws.NumberComesBack | crates/fprime-fpp/src/lexer.rs:607-643 | digits that nothing continues are one integer literal with that text |
| Spelling.LexComesBack | crates/fprime-fpp/src/lexer.rs:442-781 | every list of tokens that obeys the end-of-line law is exactly the tokens of the text that spells it, with the end of the file behind them |
| Spelling.SymbolComesBack | crates/fprime-fpp/src/lexer.rs:532-590 | every symbol and bracket, by a table from token to spelling, is read back wherever it stands, and where the lexer goes on |
| Spelling.HexReads | crates/fprime-fpp/src/lexer.rs:607-643 | hexadecimal digits of either case behind either prefix are one integer literal |
| Spelling.FloatReads | crates/fprime-fpp/src/lexer.rs:607-682 | digits, a point, perhaps digits and an exponent are one float literal with that text |
| Spelling.PointReads | crates/fprime-fpp/src/lexer.rs:491-502 | a literal that begins with its point is read as if a zero stood before it |
| Spelling.ScientificReads | crates/fprime-fpp/src/lexer.rs:607-676 | digits and an exponent are one float literal with that text |
| Spelling.NoteReads | crates/fprime-fpp/src/lexer.rs:511-531 | annotations of both kinds: the text of the line without the blanks around it, and the newlines, blanks and comments behind it skipped |
| Spelling.TrimComesBack | crates/fprime-fpp/src/lexer.rs:511-531 | trimming takes away the blanks at both ends and nothing else |
| Spelling.BlockReads | crates/fprime-fpp/src/lexer.rs:723-781 | the value of a triple-quoted block is its lines, each without as many leading spaces as the first has, as far as it has them |
| Spelling.GapSettles | crates/fprime-fpp/src/lexer.rs:426-440 | behind a token that binds, any mixture of blanks, newlines and comments is skipped to its end |
| Spelling.ContinuationSkips | crates/fprime-fpp/src/lexer.rs:477-487 | a backslash, blanks and a newline are skipped |
| StateEnum.MembersExtended | crates/fprime-fpp/src/transform.rs:17-122 | in the result every machine with members, at the top, in modules at any depth and in components, has a `State` enum; where it was added it stands behind the machine's own members and lists the uninitialized constant and then the joined paths of that machine's leaf states, in lexicographic order and each as often as there are such states, in the smallest type; everything else is as it was, in order |
| StateEnum.LeIsInOrder | crates/fprime-fpp/src/transform.rs:52-85 | the order of the constants is the lexicographic one: a prefix first, otherwise by the first character that differs |
| StateEnum.JoinedIs | crates/fprime-fpp/src/transform.rs:124-142 | a path is joined by one underscore between any two parts |
| StateEnum.StateEnumIs | crates/fprime-fpp/src/transform.rs:42-122 | the enum is appended behind the members; its constants are the uninitialized one and then the sorted joined paths of exactly the states without substates, as a permutation |
| StateEnum.LeafOfSound | crates/fprime-fpp/src/transform.rs:124-142 | every collected name is the joined path of a state without substates |
| StateEnum.LeafOfComplete | crates/fprime-fpp/src/transform.rs:124-142 | the joined path of every state without substates is collected |
| StateEnum.DistinctIff | crates/fprime-fpp/src/transform.rs:52-85 | the constants of the enum a machine is given have distinct names exactly when no two of its leaf states join to the same name and none joins to that of the uninitialized constant |
| StateEnum.NamesCollide | crates/fprime-fpp/src/transform.rs:124-142 | two states with different paths that join to one name |
| StateEnum.DiscriminantsFit | crates/fprime-fpp/src/transform.rs:86-93 | the discriminants fit the representation exactly when there are at most 2^32 constants |
| StateEnum.KindIsSmallest | crates/fprime-fpp/src/transform.rs:86-93 | the representation is the smallest that holds the number of constants |
| StateEnum.MembersGive | crates/fprime-fpp/src/transform.rs:17-122 | over a whole unit each id from the old next id to the new one goes to exactly one new node and no other id to any |
| StateEnum.SecondApplication | crates/fprime-fpp/src/transform.rs:17-50 | applying the pass to its own result changes nothing and gives out no id |
| StateEnum.Pass.CollectLeaves | crates/fprime-fpp/src/transform.rs:124-142 | the walk appends the leaves and leaves the path stack as it found it |
| StateEnum.Pass.StateMachine | crates/fprime-fpp/src/transform.rs:42-122 | the pass over one machine, with its id counter, computes the specified enum |
| StateEnum.Pass.AddStateEnums | crates/fprime-fpp/src/transform.rs:17-40 | the pass over modules and components computes the unit and next id that `StateEnum.MembersExtended` and `StateEnum.MembersGive` are about |
| StableQueue.Best | README.md:245-248 | the next message is the oldest of highest priority |
| StableQueue.BestIsUnique | README.md:245-248 | no other position has that property |
| PriorityQueue.SentKeeps | crates/fprime-os/src/generic/priority_queue.rs:173-216 | storing a message keeps slots, free ring and heap consistent and appends it to the queue they stand for |
| PriorityQueue.GreatestIsBest | crates/fprime-os/src/generic/priority_queue.rs:219-259 | the greatest heap entry, by priority and then age, is the queue's next message |
| PriorityQueue.TakenKeeps | crates/fprime-os/src/generic/priority_queue.rs:219-259 | taking a message returns its slot to the ring and removes just that message |
| PriorityQueue.PriorityQueue.Send | crates/fprime-os/src/generic/priority_queue.rs:173-216 | too long, then full, then accepted at the end of the queue |
| PriorityQueue.PriorityQueue.Receive | crates/fprime-os/src/generic/priority_queue.rs:219-259 | returns the oldest message of highest priority with its bytes, and removes only it |
| Wire.BytesRoundTrip | crates/fprime-fw/src/serial.rs:145-175 | every value that n big-endian bytes can hold comes back from them, wherever they stand in a buffer |
| Wire.I32RoundTrip | crates/fprime-fw/src/serial.rs:145-175 | every 32-bit two's-complement value comes back |
| Wire.SignalRoundTrip | crates/fprime-comp/src/sm.rs:440-465 | id and signal come back from a signal message, and what is left behind the header is exactly the data |
| Wire.Buffer.WriteRaw | crates/fprime-fw/src/serial.rs:117-127 | appends if there is room and rewinds the read cursor, otherwise changes nothing |
| Wire.Buffer.ReadI32 | crates/fprime-fw/src/serial.rs:131-143 | empty, too short, or the value at the cursor |
| Wire.Buffer.WriteSignalHeader | crates/fprime-comp/src/sm.rs:440-449 | succeeds exactly when the whole header fits, and has then appended it |
| Wire.Buffer.ReadSignalHeader | crates/fprime-comp/src/sm.rs:455-465 | reads the id and signal behind the envelope header and leaves the cursor at the data; fails exactly on shorter messages |
| Queued.QueuedBase.SendMessage | crates/fprime-comp/src/queued.rs:144-174 | for each queue-full policy: which sends assert, which wait, which are dropped and counted, which are accepted |
| Queued.QueuedBase.DoDispatch | crates/fprime-comp/src/queued.rs:182-211 | takes the next message; too short is an error, type 0 is the exit, anything else goes to the handlers |
| Queued.QueuedBase.DispatchAvailable | crates/fprime-comp/src/queued.rs:217-229 | exactly which messages are dispatched, at most as many as were counted, up to the first answer other than OK, and what is then waiting, whatever is sent between the count and the first turn and during the turns |
| Queued.SnapshotIffCalm | crates/fprime-comp/src/queued.rs:213-229 | for every number of turns the messages dispatched are those that were waiting, in order, exactly when no turn finds a newly accepted message that outranks the waiting message whose turn it is |
| Queued.Overtakes | crates/fprime-comp/src/queued.rs:213-229 | a message sent during the call can be dispatched by the same call, ahead of one that was waiting |
| Lifecycle.Reachable | crates/fprime-comp/src/queued.rs:144-229 | in every interleaving accepted messages are received or pending, each exactly once, and whenever a message was received every other one waiting then had lower priority, or the same priority and was accepted later |
| Lifecycle.TakeInTurn | crates/fprime-comp/src/queued.rs:182-211 | everything still waiting after a message is taken has lower priority than it, or the same priority and was accepted later |
| Lifecycle.StageForward | crates/fprime-comp/src/active.rs:94-111 | the lifecycle stage never moves back and nothing is received once the loop has ended |
| Lifecycle.ShutdownDrains | crates/fprime-comp/src/active.rs:94-131 | when the loop has ended the last message received is an exit message, every message accepted before it was received exactly once, and nothing is received later |
| Lifecycle.SignalsInOrder | crates/fprime-comp/src/sm.rs:412-437 | for every interleaving the signals dispatched to an instance and those pending for it are, in order, those the queue accepted for it |
| Lifecycle.TakeSignals | crates/fprime-comp/src/sm.rs:412-437 | a dispatch takes the oldest signal of an instance or none of its signals |
| Accounting.AllAccounted | crates/fprime-comp/src/queued.rs:144-174 | over every run the messages accepted are, in order, those sent while there was room, and the drop count is the number of sends under the dropping policy that found none |
| Accounting.SendIff | crates/fprime-comp/src/queued.rs:144-174 | a send goes through exactly if it is not too long and there is room, or its policy drops or calls the hook |
| Accounting.EndsIff | crates/fprime-comp/src/active.rs:94-111 | a dispatch ends the loop exactly if its message has at least four bytes and begins with four zeros or is answered with an exit |
| Accounting.HeaderLayout | crates/fprime-comp/src/sm.rs:440-449 | type, port number, id and signal stand at offsets 0, 4, 6 and 10, the high byte first, in two's complement |
| SignalDispatch.Dispatch | crates/fprime-comp/src/sm_macro.rs:373-388 | fails exactly for an unknown signal, for leftover bytes, before init or inside another step; otherwise the engine takes the step of the signal |
| SignalDispatch.Handle | crates/fprime-comp/src/sm.rs:455-465 | one received message: other types and other instances are left alone, a short signal message fails, the instance's own signal is dispatched, with every failing assert reported |
| SignalDispatch.Execute | crates/fprime-comp/src/sm_macro.rs:373-388 | a fresh instance given any messages in order passes every assert exactly when they are sound, and its log and state are then those of the run of the signals they carry for it |
| SignalDispatch.DeliveredSound | crates/fprime-comp/src/sm_macro.rs:991-1024 | in every interleaving in which senders use known signals without data, every message received passes the asserts, with no bytes left over |
| SignalDispatch.EndToEnd | crates/fprime-comp/src/sm.rs:412-465 | for every interleaving of senders and dispatches the engine's log and state are those of the run of the signals accepted for the instance, in send order, less those still pending, and are explained by the machine's tables piece by piece |

## Left out

- Device drivers, ports, glue, logging and configuration: each would add only easy members.
- The FPP parser, the semantic analysis and the code generator behind the three front-end passes: an included file is parsed by an abstract function of its level and text.
- Typed signal values and the Rust types around actions and guards: actions and guards are names, and a guard's answer is a function of the history of calls.
- Numeric value of JSON floats: a float is its literal text; printing it and reading it back is text equality. Valid values are those with integers in the 128-bit range and floats whose text is a float literal.
- JsonParser.Parser.ReadNumber: a literal too large for a 64-bit float, such as `1e999`, is read as the finite literal it is written as, where the code reads infinity.
- Escrow.HistoryRefines: histories in which the slot count stays at most 2^32, since an index beyond that does not fit a token.
- PriorityQueue.PriorityQueue.Send: does not model wrap-around of the 64-bit arrival counter, because it would take 2^64 sends.
- PriorityQueue.PriorityQueue.Receive: the heap is modelled by its entries and the choice of the greatest, not by sift-up and sift-down, because the heap is the standard library's; blocking receives appear as disabled steps in `Lifecycle`.
- Queued.QueuedBase.SendMessage: over the message sequence that `PriorityQueue` is proved to keep, not over its arrays; a blocking send on a full queue reports that it waits, and its retry is a later send.
- Lifecycle.ShutdownDrains: assumes what the component contract reserves, that message type 0 is used by the exit request alone and that handlers do not answer with the exit status; thread primitives and the preamble and finalizer hooks are steps without further effect.
- Lifecycle.SignalsInOrder: assumes that only signal senders use the signal message type.
- SignalDispatch.EndToEnd: signals without data, because typed signal values are not modelled; the routing of other message types is left out.
- Reconnect timing: delays, timeouts and retry intervals are environment choices, so nothing is said about how long a wait takes. That the socket is closed after stop and join is not claimed, because an open in flight can still publish.
- The errors of `open_protocol` are one code, because its implementations never return the two statuses that `open` itself produces.
- Include.Resolver.ResolveMembers: one method parameterised by the level stands for the seven loops, which differ in the kinds of member they descend into; node ids and source locations are not tracked, and after a failure the stack is unspecified.
- Lexer.Lexer.Run: the keyword table and the characters that trimming removes are parameters; error messages are reduced to their kind and place; file names and include chains of locations are not tracked.
- StateEnum.Pass.AddStateEnums: the tree is rebuilt rather than edited in place; node ids are unbounded, and source locations and annotations are not tracked.
- StateEnum.StateEnumIs: strings are compared by characters, which agrees with the byte order of UTF-8.
