# A Dafny model of the Lua core behind the host

The repository is a small C++ host around Lua 5.1.4. This project models the parts of
the Lua core whose correctness rests on an invariant, and the host's own protocol for
sequence numbers, and proves what they are for:

- **The incremental collector** (`lgc.c`, `lgc.h`): `ObjectGraph`, `Marking` and the
  `Collector*` modules. A state machine of marking, atomic phase and sweeps, interleaved
  with allocation, stores through barriers and upvalue traffic; `CollectorEffects` says what
  each action does to the heap, and `CollectorMachine` is the state updated in place.
- **Tables** (`ltable.c`, `lobject.c`): `Log2`, `TableSizes`, `ScatterTable`,
  `TableContents`, `TableCounting`, `TableRebuilding`, `TableTraversal` and the class in
  `Table`.
- **Boolean and jump code** (`lcode.c`, on the opcodes of `lvm.c`): `BoolExpr` gives the
  meaning of expressions and the route their code takes, `BoolCode` the machine,
  `BoolCodeGen` the generator on sets of jumps, and `JumpLists` and `FuncState` the
  generator that threads its lists through the code array. `BoolCodeForms` has the code of
  each operator, instruction by instruction, `NilCode` and `NilPrograms` the merging of
  LOADNIL.
- **The pattern matcher** (`lstrlib.c`): `PatternItems` and `PatternDerivation` (what
  patterns mean: sets by character codes, items, derivations and their order),
  `PatternClasses` and `PatternSearch` (the search), and `PatternMatcher` (the matcher with
  its capture stack).
- **Quicksort** (`ltablib.c`): `QuickSort`.
- **Upvalues** (`lfunc.c`): `UpValues`. **Operator precedence** (`lparser.c`):
  `Precedence`, and `PrecedenceLevels` with the grammar it follows. **Precompiled chunks**
  (`ldump.c`, `lundump.c`, `lzio.c`): `Bytecode`, `BytecodeLayout` with the bytes of a chunk,
  `BytecodeRoundTrip`, `DumpState`, `LoadState`, `Zio`. **Interning** (`lstring.c`):
  `StringTable`, `Interning`. **Quoting** (`lstrlib.c`, `llex.c`): `QuotedStrings`, and
  `EscapeSequences` with all ways of writing a literal. **References** (`lauxlib.c`):
  `References`.
- **Sequence numbers** (`src/mainframe/test.cpp`): `SequenceNumbers` has the critical
  sections, `SequenceProtocol` the threads that interleave, and `LostNumbers` which numbers
  come back.

`Common` has what they share. Where the source works in place there is a class whose
methods are proved equal to specification functions, and the theorems are about those.
`dafny verify dfyconfig.toml` checks the project.

## Findings

- `lcode.c:547-550` and `lcode.c:575-578`: when the left operand of `and` is a compile-time
  false, or that of `or` a compile-time true, `luaK_jump` lets the jumps on hold join a
  control jump with the values they carry. The value of `((1 or false) and true) or false`
  is true and its code gives 1 (`BoolCompiler.WrongProgram`); the condition
  `(((1 or false) and true) or false) == true` is found false
  (`BoolCompiler.WrongConditionCode`). The exact conditions, for every expression, are
  `BoolExpr.Escapes` for values and `BoolExpr.Misjudges` for conditions
  (`BoolExpr.ValueIff`, `BoolExpr.ConditionIff`, and on the machine
  `BoolCompiler.ProgramRuns`, `BoolCompiler.ConditionCode`). Every failure goes back to one
  event, `BoolExpr.Derails`: such an operand is reached with another value on hold than its
  constant (`BoolExpr.OnlyDerailedFails`). `BoolExpr.Clean` is a guard on the expression
  alone that rules it out, and trees without constant left operands meet it.
- `test.cpp:109-110`: a number under which nothing was read or stored since it was last
  issued is not put back by `cls_seqno`. It is lost: never again on the stack, held or
  issued (`LostNumbers.LostForever`; the input is the run of `LostNumbers.WastedNumber`).
  This is the exact condition (`LostNumbers.FreeIffTouched`): what was done under the
  number before its last issue does not count.

## Model

| member | source | states |
|---|---|---|
| CollectorSafety.RunSafe | dep/lua-5.1.4/src/lgc.c:556-607 | Over every run of collector steps interleaved with allocations, stores with their barriers, upvalue and string traffic: no step frees an object that is reachable, and during marking no black object has a white child |
| CollectorSafety.ActionSafe | dep/lua-5.1.4/src/lgc.c:662-711 | Every single action, of the collector or of the mutator, keeps the collector invariant and frees nothing that can be reached |
| CollectorSafety.InitialInv | dep/lua-5.1.4/src/lgc.c:501-513 | A new state (main thread, globals, registry) satisfies the invariant that the run theorem starts from |
| CollectorRuns.FullGcExact | dep/lua-5.1.4/src/lgc.c:636-659 | A full collection from any reachable state ends, and leaves exactly the reachable and the fixed objects, all current-white, with the edges they had; begun while marking, its first sweep (without a flip of the white) frees nothing |
| CollectorRuns.SingleStepSafe | dep/lua-5.1.4/src/lgc.c:556-607 | One step of the state machine keeps the invariant and every live object, in every phase |
| CollectorMarkPhase.MarkRootInv | dep/lua-5.1.4/src/lgc.c:501-513 | Marking the roots establishes the mark-phase invariant |
| CollectorMarkPhase.AtomicInv | dep/lua-5.1.4/src/lgc.c:525-553 | The atomic phase (remarking of open upvalues, of the running thread and of grayagain, then the flip of the white) establishes the sweep invariant, in which no live object refers to a dead one and the roots are live |
| Marking.MarkObjectInv | dep/lua-5.1.4/src/lgc.c:69-112 | Marking an object keeps the tricolor and worklist invariants and all earlier marks, and the object is not white afterwards |
| Marking.PropagateMarkInv | dep/lua-5.1.4/src/lgc.c:277-320 | Traversing the first gray object keeps the invariants; the object ends black (a thread gray, and listed for the atomic phase), all its children are marked, and no other marked object changes colour |
| CollectorSweep.SweepChainEffect | dep/lua-5.1.4/src/lgc.c:407-428 | Sweeping a chain frees exactly its dead unfixed objects and whitens exactly the others |
| CollectorMutator.StoreInv | dep/lua-5.1.4/src/lgc.h:86-97 | A store followed by its barrier (forward, backward, or none for threads) keeps the invariant in every phase |
| CollectorClosing.CloseUpvalInv | dep/lua-5.1.4/src/lgc.c:695-711 | Closing an open upvalue, relinking and recolouring it, keeps the invariant in every phase |
| CollectorMachine.GlobalState.Perform | dep/lua-5.1.4/src/lgc.c:556-711 | The state updated in place, for any action, is the one the run theorem is about; it has the effect on the heap that the action says, and nothing reachable is gone from it |
| CollectorEffects.ActionEffect | dep/lua-5.1.4/src/lgc.c:556-711 | What each action does to the heap, slot by slot: a store puts its value in that slot and changes no other object; a new or found object has the kind and slots given and is in the anchoring slot of the running thread; a closed upvalue has the value of its stack slot; a collector step changes no object that it keeps, but for upvalues it closes |
| CollectorEffects.LastStored | dep/lua-5.1.4/src/lvm.c:134-146 | Over every run: the value last stored in a slot of an object is still there as long as the object stays reachable, and the object stored is in the heap itself |
| CollectorEffects.AnchoredIsReachable | dep/lua-5.1.4/src/lvm.c:457-463 | An object that an action makes or finds can be reached afterwards |
| CollectorMachine.GlobalState.Step | dep/lua-5.1.4/src/lgc.c:556-607 | The in-place step is the step of the specification |
| CollectorMachine.GlobalState.FullCollection | dep/lua-5.1.4/src/lgc.c:636-659 | The in-place full collection leaves exactly the reachable and fixed objects, all white, in the pause phase |
| CollectorMachine.GlobalState.ReallyMarkObject | dep/lua-5.1.4/src/lgc.c:69-112 | In-place marking by kind gives the marks of the specification |
| CollectorMachine.GlobalState.StoreInto | dep/lua-5.1.4/src/lvm.c:143-144 | The slot has the value, every other slot and object is as it was, and the colours are those after the barrier |
| Table.LuaTable.Run | dep/lua-5.1.4/src/ltable.c:399-530 | Any run of assignments (also of nil), look-ups and removals of dead keys by the collector gives the results of a finite map; it fails only with at least 2^26 entries |
| Table.LuaTable.Set | dep/lua-5.1.4/src/ltable.c:494-530 | Assignment updates the finite map in exactly one key, whether or not the parts are rebuilt; a key that has a place keeps it, and so does every other key |
| Table.LuaTable.Get | dep/lua-5.1.4/src/ltable.c:435-491 | A look-up in array or hash part gives the value of the finite map, or nil |
| Table.LuaTable.InsertKey | dep/lua-5.1.4/src/ltable.c:399-429 | A new key is inserted at its main position, behind the colliding chain, or by moving the colliding node away; the scatter invariant is kept, including that all nodes from lastfree on are used; it fails only if no node is free |
| Table.LuaTable.FindPrevious | dep/lua-5.1.4/src/ltable.c:412 | The search for the predecessor of a colliding node ends, at a node that links to it |
| ScatterTable.MovingScatter | dep/lua-5.1.4/src/ltable.c:409-417 | Brent's variation: moving a node that is out of its main position keeps all chains acyclic, every key on the path from its main position, and main positions free of strangers |
| ScatterTable.AfterScatter | dep/lua-5.1.4/src/ltable.c:418-423 | A new key behind its main position keeps the scatter invariant |
| ScatterTable.InPlaceScatter | dep/lua-5.1.4/src/ltable.c:400-428 | A key in a free main position, or in place of a key whose value is nil, keeps the scatter invariant |
| Table.LuaTable.GetFreePos | dep/lua-5.1.4/src/ltable.c:382-388 | The free node found is the last one, and every node from it on is used; none is found only if all are used |
| Table.LuaTable.Rehash | dep/lua-5.1.4/src/ltable.c:333-349 | A rehash keeps the finite map, gives the array part its best size for the keys in use and the new one, and leaves room for the new key: one rehash always suffices |
| Table.LuaTable.Resize | dep/lua-5.1.4/src/ltable.c:297-324 | Entries moved between parts of any sizes that hold them keep the finite map, with no rehash on the way and no dead keys left |
| Table.LuaTable.ResizeArray | dep/lua-5.1.4/src/ltable.c:327-330 | Growing the array part for a table constructor keeps the finite map, never fails and gives the size asked for |
| TableSizes.ComputeSizes | dep/lua-5.1.4/src/ltable.c:189-208 | The size chosen is the largest power of two with more than half of its slots used (0 if none), with the exact number of keys that go there |
| TableCounting.NumUseArray | dep/lua-5.1.4/src/ltable.c:222-244 | The array part is counted exactly, slice by slice between powers of two |
| TableCounting.NumUseHash | dep/lua-5.1.4/src/ltable.c:247-260 | The hash part is counted exactly, integer candidates also by slices |
| TableCounting.CountInt | dep/lua-5.1.4/src/ltable.c:211-219 | One more key changes exactly the count of its slice |
| Log2.IntLog2 | dep/lua-5.1.4/src/lobject.c:54-69 | The byte-wise table look-up gives the integer logarithm, -1 for 0 |
| Table.LuaTable.Traverse | dep/lua-5.1.4/src/ltable.c:137-179 | A whole traversal with luaH_next, existing fields being assigned or cleared and dead keys collected between its steps, never finds its key invalid, ends, and returns every key that keeps a value exactly once, with its value at that step |
| TableTraversal.TraversalVisits | dep/lua-5.1.4/src/ltable.c:137-179 | In every traversal over edits that keep places, a key that always has a value is returned by exactly one step |
| TableTraversal.TraversalIncreases | dep/lua-5.1.4/src/ltable.c:162-179 | A traversal visits positions in increasing order |
| TableTraversal.TraversalStops | dep/lua-5.1.4/src/ltable.c:162-179 | A traversal takes at most as many steps as there are slots, and one |
| Table.LuaTable.Next | dep/lua-5.1.4/src/ltable.c:137-179 | A step returns the next entry after the key, or the end; the key is invalid exactly if it has no place |
| Table.LuaTable.GetN | dep/lua-5.1.4/src/ltable.c:560-576 | The length is a boundary: 0 or a present index whose successor is absent |
| Table.LuaTable.UnboundSearch | dep/lua-5.1.4/src/ltable.c:532-553 | The doubling and halving search in the hash part, and its linear fallback, end at a boundary |
| BoolCompiler.ProgramRuns | dep/lua-5.1.4/src/lcode.c:390-411 | For every boolean expression and in every world the machine runs the code to its end, and the register has the value of the expression if and only if evaluation does not escape |
| BoolCompiler.ConditionCode | dep/lua-5.1.4/src/lcode.c:539-564 | For every boolean expression the code of a condition goes on exactly when the expression is true, if and only if the condition is not misjudged; it changes no register in use |
| BoolCodeForms.OperatorsMean | dep/lua-5.1.4/src/lobject.h:103 | Only nil and false count as false, zero and the empty string as true; `and` and `or` give one of their operands, `not` a boolean |
| BoolCodeForms.ComparisonsMean | dep/lua-5.1.4/src/lvm.c:541-566 | Where the order is that of numbers, each of the six comparisons is the one it says |
| BoolCodeForms.ConnectiveForm | dep/lua-5.1.4/src/lcode.c:539-591 | The code of `x and y` and `x or y` on registers, instruction by instruction: TESTSET, JMP, MOVE |
| BoolCodeForms.NotForm | dep/lua-5.1.4/src/lcode.c:594-626 | The code of `not x` on a register: one NOT |
| BoolCodeForms.ComparisonForm | dep/lua-5.1.4/src/lcode.c:681-694 | The code of a comparison of registers: the test with its operands exchanged for > and >=, a jump over the load of false, which skips the load of true |
| BoolExpr.ValueIff | dep/lua-5.1.4/src/lcode.c:544-591 | For every expression: the route through the code gives its value if and only if evaluation does not escape through an always-jumping left operand reached with another value on hold (or a comparison misjudged because of that) |
| BoolExpr.ConditionIff | dep/lua-5.1.4/src/lcode.c:539-591 | For every expression: the route goes on as true exactly when the value is true, if and only if no comparison is misjudged without the right operand making up for it |
| BoolExpr.CleanIsExact | dep/lua-5.1.4/src/lcode.c:539-591 | Static guard: if no always-jumping left operand can be reached with a value on hold, the code gives exactly the value |
| BoolExpr.OnlyDerailedFails | dep/lua-5.1.4/src/lcode.c:547-550 | Every failure goes back to one event: the route reaches a left operand that always jumps with another value on hold than its constant; without it no condition is misjudged and no value is wrong |
| BoolExpr.CleanNeverDerails | dep/lua-5.1.4/src/lcode.c:539-591 | The static guard on the expression rules that event out in every world |
| BoolExpr.NoConstantLeftIsClean | dep/lua-5.1.4/src/lcode.c:547-550 | Trees in which no left operand of and/or is a compile-time true or false satisfy the static guard |
| BoolCompiler.WrongProgram | dep/lua-5.1.4/src/lcode.c:575-578 | Finding: the code of `((1 or false) and true) or false` leaves 1 instead of true |
| BoolCompiler.WrongConditionCode | dep/lua-5.1.4/src/lcode.c:547-550 | Finding: the code of the condition `(((1 or false) and true) or false) == true` leaves by the exits of a false one |
| BoolCompiler.CompileRuns | dep/lua-5.1.4/src/lparser.c:828-853 | A run that comes to the code of an expression, by falling or with a value on hold, leaves it as the route of the expression says |
| BoolCode.PatchRuns | dep/lua-5.1.4/src/lcode.c:150-160 | Patching a list sends exactly its jumps to their targets, with the value in the register for those that carry one |
| BoolCodeCorrect.GoIfRuns | dep/lua-5.1.4/src/lcode.c:539-591 | Going on if true or false leaves by the exits or goes on, as the value demands |
| BoolCodeValue.Exp2RegRuns | dep/lua-5.1.4/src/lcode.c:390-411 | exp2reg leaves the outcome of the route in the register, whether runs fall or come by exits with or without values |
| BoolCodeListed.ProgramFinished | dep/lua-5.1.4/src/lcode.c:163-182 | The finished code has no unpatched jump |
| JumpLists.ConcatLists | dep/lua-5.1.4/src/lcode.c:185-196 | Linking the last jump of a threaded list to another list gives the list of all their jumps |
| FuncState.FuncState.Concat | dep/lua-5.1.4/src/lcode.c:185-196 | Concatenation in place threads the jumps of both lists, and touches no other instruction |
| FuncState.FuncState.NeedsValue | dep/lua-5.1.4/src/lcode.c:122-128 | The walk over a threaded list finds exactly whether some jump carries no value |
| FuncState.FuncState.PatchListAux | dep/lua-5.1.4/src/lcode.c:150-160 | Patching a threaded list in place is patching its set of jumps, TESTSET becoming TEST where no value is wanted |
| FuncState.FuncState.RemoveValues | dep/lua-5.1.4/src/lcode.c:144-147 | All jumps of a threaded list lose their values |
| FuncState.FuncState.DischargeJpc | dep/lua-5.1.4/src/lcode.c:163-166 | The jumps on hold are patched to the next instruction |
| FuncState.FuncState.Jump | dep/lua-5.1.4/src/lcode.c:59-66 | A jump takes the jumps on hold into its list |
| FuncState.FuncState.Exp2Reg | dep/lua-5.1.4/src/lcode.c:390-411 | exp2reg in place is exp2reg on sets of jumps |
| FuncState.FuncState.GoIfTrue | dep/lua-5.1.4/src/lcode.c:539-564 | goiftrue in place is that of the specification |
| FuncState.FuncState.GoIfFalse | dep/lua-5.1.4/src/lcode.c:567-591 | goiffalse in place is that of the specification |
| FuncState.FuncState.CodeNot | dep/lua-5.1.4/src/lcode.c:594-626 | codenot in place: the lists are exchanged and lose their values |
| FuncState.FuncState.CodeComp | dep/lua-5.1.4/src/lcode.c:681-694 | codecomp in place: operands exchanged for > and >= |
| FuncState.FuncState.Expr | dep/lua-5.1.4/src/lcode.c:718-789 | The driver over infix and posfix gives the code that the run theorems are about |
| FuncState.FuncState.Condition | dep/lua-5.1.4/src/lparser.c:965-972 | A condition compiled in place is the condition of the theorem, nil taken for false |
| FuncState.FuncState.Program | dep/lua-5.1.4/src/lcode.c:390-411 | The code array built in place is exactly the program whose runs are proved, with no unpatched jump |
| NilCode.NilState.Nil | dep/lua-5.1.4/src/lcode.c:35-56 | LOADNIL left out at the start of a function or merged with the one before: from every place where runs come in, the code with jumps back and forth ends if and only if it did, with the same registers and the range filled with nil |
| NilCode.NilState.GetLabel | dep/lua-5.1.4/src/lcode.c:94-97 | The position becomes a target: every jump goes to the last one or before it |
| NilCode.NilState.PatchToHere | dep/lua-5.1.4/src/lcode.c:179-182 | A jump patched to here goes to the current position, which becomes the last target |
| NilCode.NilState.JumpTo | dep/lua-5.1.4/src/lcode.c:169-176 | A jump to a label, back or here, keeps all jumps at or before the last target |
| NilPrograms.SqueezedProgram | dep/lua-5.1.4/src/lcode.c:35-56 | The program that FuncState builds for an expression, with any number of its LOADNILs merged with the one before, or left out at the start, where no jump comes in, leaves the same registers when those above the active variables start as nil; so it too gives the value if and only if evaluation does not escape |
| NilPrograms.SavedRuns | dep/lua-5.1.4/src/lcode.c:39-53 | Removing one LOADNIL, with the jumps over it shortened, changes the end of no run that comes in elsewhere |
| PatternDerivation.SearchIsFirst | dep/lua-5.1.4/src/lstrlib.c:365-440 | A pattern is parsed into items, each with a meaning of its own, and a derivation says how often each repeatable item matches (any number for *, at least one for +, at most one for ?). The search fails exactly if no derivation exists, and otherwise has the result of the first one, where * + ? prefer more repetitions and - fewer |
| PatternDerivation.RepeatMeans | dep/lua-5.1.4/src/lstrlib.c:419-435 | For a repeatable item the matcher tries exactly the numbers of repetitions whose characters are all in the set: from the most down to 0 for *, to 1 for +, from at most 1 down for ?, and from 0 up for - |
| PatternDerivation.SoleMeans | dep/lua-5.1.4/src/lstrlib.c:369-418 | An item without a choice leads where its meaning says: captures opened, closed at the innermost open one, back references equal to the captured text, frontiers between a character outside and one inside the set, errors included |
| PatternDerivation.BalanceMeans | dep/lua-5.1.4/src/lstrlib.c:281-298 | A balanced item ends at the first position where, by counting, no opening character is left without its closing one, and does not match if there is none |
| PatternDerivation.WellFormedIff | dep/lua-5.1.4/src/lstrlib.c:186-223 | A pattern is well-formed exactly if each of its items is: sets closed, captures closed in turn, back references to closed captures, at most 32 captures |
| PatternItems.SetMeans | dep/lua-5.1.4/src/lstrlib.c:208-275 | The end of a one-character item and the characters it matches are those of the set written there: any, a class, a character, or members between brackets, complemented after ^ |
| PatternItems.ClassMeans | dep/lua-5.1.4/src/lstrlib.c:231-249 | Each class is its ranges of character codes, a capital letter its complement, and any other letter itself |
| PatternMatcher.MatchState.Match | dep/lua-5.1.4/src/lstrlib.c:365-440 | The matcher with its mutable capture stack gives the result of the search; after a failure the stack is as it was |
| PatternMatcher.MatchState.Find | dep/lua-5.1.4/src/lstrlib.c:495-535 | The first start with a derivation and there the first one; no earlier start has any; only the initial one if the pattern starts with ^ |
| PatternMatcher.MatchState.MaxExpandAt | dep/lua-5.1.4/src/lstrlib.c:301-314 | Greedy expansion tries the longest repetition first |
| PatternMatcher.MatchState.MinExpandAt | dep/lua-5.1.4/src/lstrlib.c:316-327 | Lazy expansion tries the shortest repetition first |
| PatternMatcher.MatchState.StartCapture | dep/lua-5.1.4/src/lstrlib.c:329-341 | An opened capture is undone if the rest fails |
| PatternMatcher.MatchState.EndCapture | dep/lua-5.1.4/src/lstrlib.c:343-352 | A closed capture is opened again if the rest fails |
| PatternMatcher.MatchState.MatchBalance | dep/lua-5.1.4/src/lstrlib.c:281-298 | A balanced match ends at the closing delimiter of the first nesting |
| PatternMatcher.MatchState.MatchCapture | dep/lua-5.1.4/src/lstrlib.c:354-362 | A back reference matches exactly the captured text |
| PatternSearch.RunIsLongest | dep/lua-5.1.4/src/lstrlib.c:301-305 | The number of repetitions that greedy expansion counts is exactly the most that match |
| PatternSearch.SearchCaptures | dep/lua-5.1.4/src/lstrlib.c:329-352 | A match ends after its start, and its captures lie inside the subject |
| PatternSearch.WellFormedNeverRaises | dep/lua-5.1.4/src/lstrlib.c:186-223 | A well-formed pattern never raises an error, on any subject |
| QuickSort.AuxSort | dep/lua-5.1.4/src/ltablib.c:193-254 | For a strict weak order the range ends sorted and is a permutation of what it was, the error for an invalid order is never raised, every index read is inside the range, and a recursion of depth d needs at least 2^d - 1 elements |
| QuickSort.Distribute | dep/lua-5.1.4/src/ltablib.c:222-241 | The two scans meet, never leave the range, and split it around the pivot |
| UpValues.Thread.Run | dep/lua-5.1.4/src/lfunc.c:53-112 | Over any run of captures, reads, writes, assignments to slots, scope exits, deaths of unreachable upvalues and sweeps of the open ones, closures read what they would from cells of their own |
| UpValues.Thread.SweepOpen | dep/lua-5.1.4/src/lfunc.c:82-93 | Sweeping the open upvalues of a thread frees exactly the dead ones, out of the chain and the ring wherever they are; the others, and all variables, stay |
| UpValues.Thread.FindUpval | dep/lua-5.1.4/src/lfunc.c:53-79 | Whoever captures a slot gets the one open upvalue for it, revived if it was dead; the list stays strictly descending by level |
| UpValues.Thread.Close | dep/lua-5.1.4/src/lfunc.c:96-112 | Exactly the open upvalues at or above the level are closed with their values, the dead ones freed; no other variable changes |
| UpValues.OutlivesScope | dep/lua-5.1.4/src/lfunc.c:96-112 | A captured variable keeps its value when its scope is left, and in any later run, of whatever operations, only a write through a closure that captured it changes it |
| UpValues.UnlinkOk | dep/lua-5.1.4/src/lfunc.c:82-86 | Unlinking keeps the ring of open upvalues doubly linked |
| Precedence.ParsedIff | dep/lua-5.1.4/src/lparser.c:828-853 | subexpr parses tokens to a tree, leaving some, if and only if the tokens are those of the tree and the rest, the tree fits the priorities there, and it is within the levels |
| PrecedenceLevels.ParsedByGrammar | dep/lua-5.1.4/src/lparser.c:808-853 | By the levels of the language, from `or` (loosest) over `and`, comparisons, `..`, sums, products and unary operators to `^`, with `..` and `^` associating to the right: a token string is parsed to a tree exactly if it is that tree written down, the tree is grammatical, and it is not nested deeper than 200 |
| PrecedenceLevels.ParseExpr | dep/lua-5.1.4/src/lparser.c:856-858 | An expression is parsed to the end exactly if it is written by the grammar, and to the tree of the grammar |
| PrecedenceLevels.ThreeOperands | dep/lua-5.1.4/src/lparser.c:813-819 | `a op1 b op2 c` is the tree to the left if and only if op1 is on a tighter level, or on the same one and that is neither `..` nor `^` |
| PrecedenceLevels.UnaryBefore | dep/lua-5.1.4/src/lparser.c:822 | A unary operator before `a op b` takes the power if op is `^`, and only a otherwise |
| PrecedenceLevels.UnaryAfter | dep/lua-5.1.4/src/lparser.c:822 | To the right of any operator a unary one takes its operand, or a power, and the two binary operators then group by their levels |
| PrecedenceLevels.ParsedHasNoLooser | dep/lua-5.1.4/src/lparser.c:828-853 | A parsed tree never has a looser operator directly under a tighter one without parentheses |
| Precedence.PrintParse | dep/lua-5.1.4/src/lparser.c:808-853 | Every expression printed with parentheses only where the priorities need them is parsed back to itself, unless it is nested too deep |
| Precedence.FewestParens | dep/lua-5.1.4/src/lparser.c:808-819 | No way of writing the tree that parses back has fewer parentheses |
| Precedence.Unambiguous | dep/lua-5.1.4/src/lparser.c:828-853 | No two trees that fit are written the same |
| Precedence.LexState.ParseSubexpr | dep/lua-5.1.4/src/lparser.c:828-853 | The loop over operators in the lexer state gives the parse, and returns the first untreated operator |
| BytecodeRoundTrip.DumpUndump | dep/lua-5.1.4/src/lundump.c:161-209 | Undumping a dump, with or without stripping, gives the restored prototype tree and takes exactly its bytes; it fails only if functions are nested deeper than LUAI_MAXCCALLS |
| BytecodeRoundTrip.UnstrippedSame | dep/lua-5.1.4/src/ldump.c:129-141 | Without stripping the restored tree is the original one if and only if every function in it has a source, as every function that is compiled or loaded does |
| BytecodeRoundTrip.UndumpDumpUndump | dep/lua-5.1.4/src/lundump.c:161-181 | Whatever was loaded, from any bytes, has sizes that fit and a source in every function, and dumping it and loading the dump gives the same function again, taking exactly its bytes |
| BytecodeRoundTrip.StripsAll | dep/lua-5.1.4/src/ldump.c:111-141 | With stripping it is the original without debug data and with source "=?" throughout |
| BytecodeLayout.DumpedLayout | dep/lua-5.1.4/src/ldump.c:60-141 | Byte by byte: the header 1B 4C 75 61 51 00 01 04 08 04 08 00, then for every function its source, lines, four bytes, code, constants (each after 0, 1, 3 or 4), nested functions and debug data; byte j of a number is its j-th digit to the base 256 |
| BytecodeLayout.LayoutLoads | dep/lua-5.1.4/src/lundump.c:161-209 | Bytes laid out that way load as the function |
| BytecodeLayout.ConstantLoads | dep/lua-5.1.4/src/lundump.c:106-130 | A constant after 0 is nil, after 1 a boolean, after 3 the number of the next eight bytes, after 4 a string; any other byte is an error |
| BytecodeLayout.HeaderLoads | dep/lua-5.1.4/src/lundump.c:183-209 | Any other twelve bytes in front are a bad header, fewer an unexpected end |
| LoadState.LoadedFromBlocks | dep/lua-5.1.4/src/lzio.c:21-71 | The result does not depend on how the reader cuts the stream into nonempty blocks |
| LoadState.LoadState.UndumpChunk | dep/lua-5.1.4/src/lundump.c:183-209 | Loading from the buffered stream gives the undump of its bytes, errors included |
| LoadState.LoadState.Function | dep/lua-5.1.4/src/lundump.c:161-181 | A function is loaded field by field, nested ones with its source |
| LoadState.LoadState.Constants | dep/lua-5.1.4/src/lundump.c:100-135 | The loop over constants loads exactly that many, or throws the first error |
| DumpState.DumpState.DumpChunk | dep/lua-5.1.4/src/ldump.c:143-164 | The writer gets all bytes of the dump if its status stays 0, and otherwise a prefix |
| DumpState.DumpState.Function | dep/lua-5.1.4/src/ldump.c:129-141 | A function is written field by field |
| Zio.ZIO.Read | dep/lua-5.1.4/src/lzio.c:58-71 | The next bytes of the stream are read, however buffered, or the number of missing ones is returned |
| Zio.ZIO.Lookahead | dep/lua-5.1.4/src/lzio.c:35-45 | Looking ahead gives the next byte and leaves the stream as it is |
| Zio.ZIO.Fill | dep/lua-5.1.4/src/lzio.c:21-32 | Filling gives the first byte of the next block, or the end |
| Interning.Run | dep/lua-5.1.4/src/lstring.c:22-93 | Over any run of creations, drops, collections and resizes: two strings that are held are the same if and only if their texts are |
| Interning.StringPool.NewLStr | dep/lua-5.1.4/src/lstring.c:75-93 | The string with the text: the one in the table, revived if dead, or a new one; every other string is still there |
| Interning.StringPool.Resize | dep/lua-5.1.4/src/lstring.c:22-47 | All strings are rechained by their hashes in the new table, none lost or doubled; nothing happens during the sweep |
| Interning.StringPool.SweepBucket | dep/lua-5.1.4/src/lgc.c:572-580 | Exactly the dead strings of a bucket are freed, and the count goes down with them |
| StringTable.Created | dep/lua-5.1.4/src/lstring.c:50-72 | A new string first in its bucket keeps texts unique, every string in the bucket of its hash, and the count right |
| StringTable.Moved | dep/lua-5.1.4/src/lstring.c:33-42 | Moving the first string of an old chain keeps old and new chains well-formed and apart |
| QuotedStrings.ReadQuoted | dep/lua-5.1.4/src/llex.c:276-329 | Reading a %q-quoted string gives its bytes back, for every byte string, and counts its newlines; it fails only past the last line |
| QuotedStrings.AddQuoted | dep/lua-5.1.4/src/lstrlib.c:696-722 | The loop gives the quoted string |
| EscapeSequences.SpelledBack | dep/lua-5.1.4/src/llex.c:287-321 | Each byte, written plain, as \a \b \f \n \r \t \v (7, 8, 12, 10, 13, 9, 11), by one to three decimal digits, after a backslash that changes nothing, or as a newline after a backslash, is read as that byte |
| EscapeSequences.LiteralBack | dep/lua-5.1.4/src/llex.c:276-329 | However a text is written, with one of these ways for each byte, the literal is read as the text, and its newlines are counted |
| EscapeSequences.ReadIsLiteral | dep/lua-5.1.4/src/llex.c:276-329 | And whatever is read as a text is a literal of it, written in one of these ways byte by byte |
| EscapeSequences.TooLarge | dep/lua-5.1.4/src/llex.c:311-312 | Three digits that make more than 255 are an error |
| EscapeSequences.Endings | dep/lua-5.1.4/src/llex.c:279-286 | The delimiter ends the text; a plain newline or the end of the input before it is an error |
| EscapeSequences.QuotedForm | dep/lua-5.1.4/src/lstrlib.c:696-722 | %q writes quotes, backslashes and newlines after a backslash, a carriage return as \r, a zero as \000, and every other byte as it is |
| QuotedStrings.LexState.ReadString | dep/lua-5.1.4/src/llex.c:276-329 | The scan of a string literal gives the text, the rest and the line, or the first error |
| QuotedStrings.LexState.IncLineNumber | dep/lua-5.1.4/src/llex.c:127-135 | CR LF and LF CR count as one newline |
| QuotedStrings.KeptAsText | dep/lua-5.1.4/src/lstrlib.c:702-717 | A quoted string has no NUL, no CR, and no newline that is not escaped |
| References.RefTable.Run | dep/lua-5.1.4/src/lauxlib.c:481-512 | Over any run of references made and released once, every held reference keeps its value and no two are the same |
| References.RefTable.Ref | dep/lua-5.1.4/src/lauxlib.c:481-501 | A reference is never one that is live: the one released last, if any, and otherwise a new one; nothing else in the table changes. nil has the reference -1 |
| References.RefTable.Unref | dep/lua-5.1.4/src/lauxlib.c:504-512 | A released reference is the first on the free list, and nothing else in the table changes |
| References.RefTable.Deref | dep/lua-5.1.4/src/lauxlib.h:167 | A live reference gives the value that it was made for |
| References.TakeReleased | dep/lua-5.1.4/src/lauxlib.c:491-495 | The first free reference is taken off the list, which stays well-formed |
| References.TakeNew | dep/lua-5.1.4/src/lauxlib.c:496-499 | The successor of any boundary of the table is a new reference |
| References.Release | dep/lua-5.1.4/src/lauxlib.c:504-512 | The free list with a released reference in front is well-formed |
| SequenceProtocol.NumbersAreExclusive | src/mainframe/test.cpp:82-150 | Over every interleaving of the threads' steps: no two clients hold the same number, the numbers on the stack are nobody's and have no values, the lowest is above every number issued, a number is issued only while nobody holds it, and a holder reads what was last stored since the issue |
| LostNumbers.FreeIffTouched | src/mainframe/test.cpp:82-149 | After every run, a number that was issued and is held by nobody is on the stack, to be issued again, if and only if something was read or stored under it since it was last issued; otherwise it is lost |
| LostNumbers.CloseFreesIff | src/mainframe/test.cpp:104-118 | A close puts its number back if and only if something was read or stored under it since it was issued, and loses it otherwise |
| LostNumbers.LostForever | src/mainframe/test.cpp:82-149 | Once lost, a number is never again on the stack, held, or in any event, over any continuation of the run |
| LostNumbers.NoGaps | src/mainframe/test.cpp:89-96 | After every run, if a number was issued then so was every number from 1 to it: none is skipped |
| LostNumbers.WastedNumber | src/mainframe/test.cpp:109-110 | A concrete run that loses a number: get_seqno, then cls_seqno with nothing between |
| SequenceProtocol.StepInv | src/mainframe/test.cpp:82-150 | Every step of a thread, inside or outside the lock, keeps the invariant |
| SequenceProtocol.NeverStuckInside | src/mainframe/test.cpp:91-93 | A thread inside the lock can always go on: the stack has a number for it |
| SequenceProtocol.SectionsAreAtomic | src/mainframe/test.cpp:88-99 | While a thread is inside the lock no other changes the shared state |
| SequenceProtocol.SectionsAreMethods | src/mainframe/test.cpp:88-149 | The steps of a critical section together do what the sequential function does |
| SequenceNumbers.Host.GetSeqno | src/mainframe/test.cpp:89-96 | The top of the stack is issued, and its successor replaces the last one |
| SequenceNumbers.Host.ClsSeqno | src/mainframe/test.cpp:104-118 | A number with values is erased and freed; one without is not freed |
| SequenceNumbers.Host.GetValue | src/mainframe/test.cpp:121-133 | The stored value or the empty string, without changing any value |
| SequenceNumbers.Host.SetValue | src/mainframe/test.cpp:135-149 | Exactly one value changes |

## Left out

- Collector: weak tables, userdata finalizers, pacing and byte accounting, the resizing of the string table inside the collector (it is in `Interning`), and the order in which children are traversed. The mark bits are modelled as a colour and a fixed flag. A dead thread's chain of open upvalues is unlinked by closing its upvalues one by one.
- Marking.PropagateMarkInv: weak tables, which stay gray when they are traversed, are not modelled, because all references of the model's graph are strong.
- CollectorMarkPhase.AtomicInv: the separation of userdata with finalizers and the clearing of weak tables are not modelled, because the graph does not change in the model's atomic phase.
- Collector: open upvalues enter a thread's list at any position; that the list is sorted by level is proved in `UpValues`.
- Tables: keys are integers or opaque values, and the hash is any function of key and size; floating-point keys are not modelled. `luaH_getnum` and `luaH_getstr` are the look-up of `Get`.
- Tables: what is left of a table after "table overflow" (2^26 entries and more) is not described, and `luaH_resizearray` is modelled for growing only, as the virtual machine uses it.
- Code generator: upvalues, indexed variables, calls, varargs, arithmetic and concatenation as leaves; constants are kept by value, so the constant table and its index limit (MAXINDEXRK) do not appear. Limits on registers and jump offsets are left out. The order functions are total and have no metamethods or errors.
- Code generator: `FuncState` always emits a LOADNIL for nil. Leaving them out and merging them is proved of its finished programs (`NilPrograms`) and, as one emission of `luaK_nil` in code with any jumps and other instructions, in `NilCode`; the two are not interleaved with the rest of the generator.
- Matcher: the C locale only; `gmatch`, `gsub`, plain finds and pushing captures to the stack are left out.
- Sort: the table is an array, and the comparator is a strict weak order without errors; other comparators are not described.
- Upvalues: the marking of upvalues is reduced to one flag for dead ones, which may be set for any upvalue that no closure holds.
- Precedence: constants and parentheses are the simple expressions; a parenthesised expression with arguments after it is a call, which is answered with an error of its own.
- Chunks: little-endian machines with 4-byte int and 8-byte size_t; numbers are the bytes that represent them; the check of loaded code is any predicate. Allocation never fails.
- Interning: the hash is any function of the text, and `lmod` on a power of two is the remainder; texts are sequences of characters.
- Quoting: the lexer reads from a byte sequence, and its token buffer has no size limit.
- References: the table is used through `luaL_ref` and `luaL_unref` only, apart from keys that are not integers, which do not matter.
- Sequence numbers: the counter mode of `get_seqno`, time stamps and `check_timeout`, and calls with numbers that the client does not hold.
- The interpreter loop beyond the opcodes above, metamethods, coroutines and error recovery; the host's logging, messaging and process code; the libraries that only move values on the stack.
