# Eddic compiler: a verified model of its front-end passes and its analyses

This project models six parts of the Eddic compiler and proves what they are
for.

1. **Desugaring.** `Ast`, `Semantics`, `Desugar`, `ValueFacts`, `Scoping`,
   `Preservation`, `Meaning`, `Rounds`, `Growth`, `Cleaning`. The transform pass turns
   `while`, `for`, `foreach`, `foreach in`, `switch` and `op=` into `if`,
   `do while`, scopes and plain assignments. Statements have a big-step meaning
   indexed by a fuel that counts loop rounds, with the outcomes Normal, Returned,
   Fault and OutOfFuel. Calls, memory and the operators on values other than
   integers are an arbitrary interpretation. As in code generation
   (`src/mtac/Compiler.cpp:1109-1309`, `src/mtac/Compiler.cpp:1635-1672`) an
   assignment finds its place before it evaluates its right side, a compound one
   finds it once, and arguments are evaluated from the last to the first. The
   main theorem says that source and desugared list have the same outcomes and
   diverge together. The pass uses hidden locals (loop variables and iterators);
   the two states agree on everything else. That evaluating a value has no side
   effect is meant as such: it leaves every state as it was, calls included.
   Integers are those of the target platform and wrap around; its largest one is
   a parameter. `++` and `--`, before or behind a value, change the variable,
   element or member it denotes (`src/mtac/Compiler.cpp:582-646`); any other
   value, the target of a pointer included, has been copied to a temporary by
   then (`src/mtac/Compiler.cpp:865-917`), so `++*p` leaves `*p` alone. An
   assignment used as a value reads its left side again
   (`src/mtac/Compiler.cpp:807-813`).
2. **Data flow and liveness.** `DataFlow`, `Solvers`, `Liveness`, `Execution`. Both
   backward engines are methods over the tables they update in place. They end
   with the least solution of the flow equations whatever the order of the blocks,
   and for liveness that solution is the path property it should be. `Execution`
   gives instructions a meaning of their own, over register contents and an
   arbitrary machine, and shows that exactly the registers the analysis makes live
   can make a difference.
3. **Mangling.** `Mangling`, `Demangling`, `Names`. Mangled names decode uniquely,
   the cursor parser is the inverse of mangling on the types it can read, and the
   names the compiler writes down are those of the library functions meant.
4. **Passes and templates.** `Instances`, `PassManager`. The pass manager and the
   template engine call each other back: a pass asks for an instance, the
   instance catches up on the passes already applied, and these ask for more.
   What a pass asks for is an arbitrary function of the pass, the unit and the
   program. `stack` is the call stack that is left; a run that exhausts it fails,
   so the theorems hold for every depth of recursion. A run fails for the
   reasons in `PassManager.Blamed` only.
5. **Structures.** `Graphs`, `Inheritance`, `Nesting`, `MemberLayout`: parents
   resolved round by round, the bounded nesting check and the sizes it protects,
   the order and the offsets of members.
6. **Two mutable structures.** `InterferenceGraph`, `ParameterFrame`.

`Common` holds two small datatypes. `dafny verify dfyconfig.toml` checks the
project.

## Results that are not what one would expect

- A switch evaluates its value once per case in the desugared code, and a
  compound assignment evaluates its left side twice. With side effects there the
  meaning changes (`Meaning.SwitchReevaluatesItsValue`,
  `Meaning.CompoundReevaluatesItsLeftSide`).
- A `foreach` up to the largest integer has its rounds counted in the source but
  never ends in the desugared code: its variable wraps around
  (`Rounds.ForeachEndsIff`).
- The first case of a switch is emitted twice, so nested first cases make the
  output exponentially large (`Growth.TowerExplodes`).
- The engine that detects changes by size stops too early when blocks start with
  a set that is not low, for example a non-empty one passed through empty blocks
  (`DataFlow.SizesMissAChange`). Liveness starts with empty sets.
- A register that a call both uses and clobbers is not made live, so liveness is
  sound exactly for instructions that clobber nothing they use
  (`Execution.StepSoundIff`).
- `free` is called by the name of a function on a pointer to int, although it is
  declared with an int (`Names.Memory`).
- An array of characters is not put last with the characters: of length 1, it
  leaves the member after it off the words (`MemberLayout.CharactersMoveTheNext`).
- The demangler drops the separator before a last parameter whose mangled name
  has one character (`Demangling.UnmangleInvertsMangle`), and cuts pointers to
  pointers short (`Demangling.NestedPointersAreCutShort`).
- The nesting check accepts a structure that holds an array of itself, and one
  that inherits from a structure it is a member of; neither has a size. With more
  structures than its limit it refuses nestings without any cycle.
- Looking up a register that was never gathered breaks the two index maps
  (`InterferenceGraph.Graph.Convert`); removing a node twice breaks the degrees.
- A request for a class template walks on from its name's first entry into other
  names' entries until one has the right number of parameters. Two names reach
  the same entry exactly when no entry fits between their first ones; the memo
  then holds two keys for one class (`PassManager.WalksMeet`).
- Only classes have a limit on nesting. A function template that calls its own
  instance for a pointer to its parameter exhausts any stack
  (`PassManager.EndlessRun`).
- Asking for the type at a member's own offset can find another member, when the
  one before has size zero; an offset inside a member finds the next one.

## Model

| member | source | states |
|---|---|---|
| Desugar.Transform | src/ast/TransformerEngine.cpp:694-713 | the in-place loop over a list, followed by the visit of its elements, ends, and leaves the list lowered at every depth |
| Desugar.Visit | src/ast/TransformerEngine.cpp:725-776 | visiting a statement the rules no longer apply to lowers every list inside it |
| Desugar.LoweredReplacement | src/ast/TransformerEngine.cpp:192-523 | one application of the rules, then lowering inside, is the same as lowering by structure |
| Desugar.ReplacementWeight | src/ast/TransformerEngine.cpp:430-511 | no rule makes a statement heavier when a switch's first case counts twice: the reason the pass ends |
| Desugar.LoweredIsPlain | src/ast/TransformerEngine.cpp:694-776 | no while, for, foreach, foreach-in, switch or compound assignment is left in any list |
| Growth.LoweredIsBounded | src/ast/TransformerEngine.cpp:228-511 | the output has at most six statements for one, doubled for every level of switches nested in first cases |
| Growth.SwitchlessIsFlat | src/ast/TransformerEngine.cpp:430-511 | without switches nothing is doubled |
| Growth.TowerExplodes | src/ast/TransformerEngine.cpp:434-455 | n switches nested in first cases, n + 1 statements, become 2^(n+1) - 1 statements: the bound's exponential is reached |
| Cleaning.EvalClean | src/ast/TransformerEngine.cpp:26-110 | cleaning a value changes neither what it yields nor the state it leaves |
| Cleaning.CleanLeavesNoneEmpty | src/ast/TransformerEngine.cpp:36-52 | after cleaning no composed value without operations is left at any depth, and exactly the values without one are unchanged |
| Preservation.CompoundSame | src/ast/TransformerEngine.cpp:193-209 | the expansion of `op=` has the same outcome from every state in which finding the place on the left has no side effect |
| Preservation.WhileSame | src/ast/TransformerEngine.cpp:212-225 | while against if and do-while, with side-effecting conditions, fuel by fuel |
| Preservation.ForeachSame | src/ast/TransformerEngine.cpp:228-289 | foreach against its expansion, fuel by fuel, up to the loop variable |
| Preservation.ForeachInSame | src/ast/TransformerEngine.cpp:292-386 | foreach-in against its expansion, fuel by fuel, up to the iterator and the loop variable; the lowered loop asks for the size again in every round |
| Preservation.ForSame | src/ast/TransformerEngine.cpp:389-428 | for against its expansion, with any of start, condition and repeat missing |
| Meaning.ForIsWhile | src/ast/TransformerEngine.cpp:389-428 | a for with a condition is its start, followed by a while whose body ends with its repeat |
| Meaning.WhileCounts | src/ast/TransformerEngine.cpp:212-225 | `while(x < k){ x = x + 1; }` ends with x at k, in as many rounds as x was below it |
| Preservation.SwitchSame | src/ast/TransformerEngine.cpp:430-511 | switch against the chain of tests that repeats its first case |
| Meaning.SwitchPicks | src/ast/TransformerEngine.cpp:430-511 | a switch on an integer, or on a string when the library's `str_equals(str, str)` tells equality, runs the first case equal to its value or else the default; so does the chain it becomes |
| Meaning.SubtractionSubtracts | src/ast/TransformerEngine.cpp:193-209 | `x -= d` and its expansion take d from x |
| Meaning.SwapExchanges | src/mtac/Compiler.cpp:1544-1583 | a swap exchanges two variables and leaves the others alone |
| Meaning.PlaceBeforeValue | src/mtac/Compiler.cpp:1156-1215 | `a[x] = ++x` writes to the cell x names before it is increased |
| Meaning.LastArgumentFirst | src/mtac/Compiler.cpp:1635-1672 | in `f(x, ++x)` both arguments are the increased value |
| Preservation.SameSeq | src/ast/TransformerEngine.cpp:694-713 | for every amount of fuel, a list and its lowered form have the same outcome up to hidden locals |
| Meaning.DesugaringPreservesMeaning | src/ast/TransformerEngine.cpp:192-776 | every outcome of the source is an outcome of the lowered list and the other way round, and both diverge together |
| Meaning.OutcomeIsUnique | src/ast/TransformerEngine.cpp:192-776 | a list has at most one outcome, whatever the fuel, and none if it diverges |
| Rounds.ForeachRounds | src/ast/TransformerEngine.cpp:228-289 | in every run of a lowered foreach the j-th round starts with from + j in the loop variable; max(0, to - from + 1) rounds are due, the run ends normally exactly when all were taken and the last body came to its end, and with fewer the last body did not or the fuel was used up |
| Rounds.ForeachWrapsAround | src/ast/TransformerEngine.cpp:228-289 | up to the largest integer the j-th round starts with from + j wrapped around, every round that ends is followed by another, and no run ends normally |
| Rounds.ForeachEndsIff | src/ast/TransformerEngine.cpp:228-289 | a foreach whose source run ends normally ends in the lowered code exactly when from > to or to is below the largest integer |
| Rounds.ForeachInRounds | src/ast/TransformerEngine.cpp:292-386 | in every run of a lowered foreach-in the iterator is j in the j-th round and the loop variable receives element j of the array or string as it then is; one round is due for every element |
| ValueFacts.PureIsQuiet | src/ast/TransformerEngine.cpp:193-209 | a check for values without side effect: no `++`, `--` or assignment, and only calls of functions that change nothing |
| ValueFacts.QuietPlaceIsRead | src/mtac/Compiler.cpp:1109-1309 | when finding the place of a left value changes nothing, reading the value is reading that place |
| ValueFacts.PostfixMeetsPrefix | src/mtac/Compiler.cpp:582-646 | `v++` and `++v` leave the same state for every value v, or both have none, and yield the values before and after |
| ValueFacts.ElementPostfix | src/mtac/Compiler.cpp:582-646 | `a[i]++` on an array changes that cell and no other, evaluates i once and yields the old value |
| Meaning.SwitchReevaluatesItsValue | src/ast/TransformerEngine.cpp:434-468 | with `++x` as the value, source and lowered code end differently, for every start value that can be increased three times |
| Meaning.CompoundReevaluatesItsLeftSide | src/ast/TransformerEngine.cpp:193-209 | `a[++x] += d` stores another value and moves x twice after the rewriting |
| DataFlow.SolvedIsUnique | include/mtac/GlobalOptimizations.hpp:123-200 | two solved tables agree on every block |
| DataFlow.QuietRoundSolves | include/mtac/GlobalOptimizations.hpp:146-197 | a round that changes nothing leaves the least solution of the equations |
| DataFlow.StepRuns | include/mtac/GlobalOptimizations.hpp:158-195 | one edge, met and transferred, keeps every set between its start and every solution |
| DataFlow.StepGrows | include/mtac/GlobalOptimizations.hpp:158-195 | no set ever shrinks |
| DataFlow.SizesMissAChange | include/mtac/GlobalOptimizations.hpp:28-37 | a start after which the first round leaves the size test's flag clear without a solution, while comparing sets raises it |
| Solvers.Assign | include/mtac/GlobalOptimizations.hpp:28-37 | the entry takes the value; the flag is what the size test makes of it, or, for a top entry, whether the value is not top |
| Solvers.BackwardResults.VisitEdge | include/mtac/GlobalOptimizations.hpp:158-195 | one successor: the block's sets take one step, its statement tables hold what the OUT set gives, and the flag covers every change |
| Solvers.BackwardResults.CarryBack | include/mtac/GlobalOptimizations.hpp:167-188 | the statement tables hold the OUT set carried through the statements from the last to the first |
| Solvers.BackwardResults.BackwardDataFlow | include/mtac/GlobalOptimizations.hpp:123-200 | ends on every finite graph with the least solution, for every order of the blocks |
| Solvers.FastBackwardResults.FastBackwardDataFlow | include/mtac/GlobalOptimizations.hpp:320-377 | the same for the engine that keeps no statement tables and compares sets |
| Solvers.EnginesAgree | include/mtac/GlobalOptimizations.hpp:123-377 | both engines, each in its own order of blocks, compute the same IN and OUT |
| Liveness.LiveRegisterValues.Insert | include/ltac/LiveRegistersProblem.hpp:36-42 | adds the register to the set of its kind |
| Liveness.LiveRegisterValues.Erase | include/ltac/LiveRegistersProblem.hpp:60-66 | removes the register from the set of its kind |
| Liveness.SizeSeparates | include/ltac/LiveRegistersProblem.hpp:68-70 | under growth the encoded size tells any two pairs of sets apart |
| Liveness.Collect | src/ltac/LiveRegistersProblem.cpp:112-134 | the collector turns the set into (out minus killed) plus generated, branch by branch: jumps and calls kill what they use, moves kill their first argument; what these sets must be is `Execution.TransferIsExact` |
| Liveness.TransferValues | src/ltac/LiveRegistersProblem.cpp:184-200 | the transfer works on a copy |
| Liveness.MeetValues | src/ltac/LiveRegistersProblem.cpp:138-152 | the meet of two sets is their union |
| Liveness.FromMeans | src/ltac/LiveRegistersProblem.cpp:112-134 | a block lets a register in exactly when it generates it before killing it, or spares it and it is live after |
| Liveness.LivenessIsPathwise | src/ltac/LiveRegistersProblem.cpp:156-200 | a register is in IN exactly when some path reaches an instruction that generates it before any that kills it |
| Liveness.LiveRegisters | src/ltac/LiveRegistersProblem.cpp:156-200 | the engine run on liveness computes exactly that, for both worlds of registers |
| Execution.StepSound | src/ltac/LiveRegistersProblem.cpp:112-134 | states that agree on the registers live before an instruction agree, after it, on those live after it and on everything else that can be seen, whatever the machine computes |
| Execution.TransferIsExact | src/ltac/LiveRegistersProblem.cpp:112-134 | and a register is live before an instruction exactly when some machine turns a difference in it alone into a difference that is seen or live after |
| Execution.StepSoundIff | src/ltac/LiveRegistersProblem.cpp:20-36 | the first holds exactly for instructions that clobber nothing they use |
| Execution.LiveRegistersSuffice | src/ltac/LiveRegistersProblem.cpp:156-200 | along every path of the graph, states that agree on what the engine found live at its start agree on what it found live at its end and on everything that can be seen |
| Mangling.MangleUnique | src/mangling.cpp:24-78 | mangled types are prefix-free: two can only begin the same string when the types are equal, and then the rests are equal |
| Mangling.MangleDecidesEquality | src/Type.cpp:103-127 | mangled names are equal exactly when the types are, array lengths and constness aside |
| Mangling.SignatureUnique | src/mangling.cpp:80-194 | mangled functions are equal exactly when kind, structure, name and parameter types are |
| Mangling.MangleDeclaration | src/mangling.cpp:80-100 | the overload over parameters skips `this` |
| Mangling.ThisIsSkipped | src/mangling.cpp:80-100 | the name of a member function leaves out its receiver and no other parameter |
| Mangling.MangleCall | src/mangling.cpp:176-194 | the overload over types |
| Mangling.DeclarationMeetsCall | src/mangling.cpp:80-194 | a call finds a declaration exactly when the argument types are its parameter types |
| Demangling.ReadLength | src/mangling.cpp:196-210 | reads the digits at the cursor and stops after them |
| Demangling.GetNameFromLength | src/mangling.cpp:212-223 | reads a counted name and stops after it |
| Demangling.ExtractType | src/mangling.cpp:225-282 | the cursor parser for types follows the suffix grammar |
| Demangling.ExtractInvertsMangle | src/mangling.cpp:225-282 | at the start of a mangled type inside any longer string it yields the type's spelling and stops exactly after the mangled name |
| Demangling.ExtractInvertsExactly | src/mangling.cpp:225-282 | for types with good names and template arguments that is so exactly when there is at most one array layer outside at most one pointer layer, at every depth, and no void |
| Demangling.EmptyTemplateRunsOn | src/mangling.cpp:225-282 | a template without arguments is read back exactly when no digit follows it |
| Demangling.Unmangle | src/mangling.cpp:284-316 | the parser for whole functions, with its separator test |
| Demangling.UnmangleInvertsMangle | src/mangling.cpp:284-316 | it prints the signature exactly when there are fewer than two parameters or the last one mangles to more than one character |
| Demangling.NestedPointersAreCutShort | src/mangling.cpp:237-240 | a pointer to a pointer is spelled as a lone reference sign, and the cursor stops inside it |
| Names.StringComparison | src/ast/TransformerEngine.cpp:472-487 | the name a string switch calls is the mangled name of `str_equals(str, str)` |
| Names.PrintAndRead | src/GlobalContext.cpp:194-209 | the names of the print functions and of `read_char` are their mangled names |
| Names.Memory | src/GlobalContext.cpp:210-218 | so is that of `alloc`; that of `free` is the mangled name for a pointer to int, not for the int it is declared with |
| Names.MainAndTime | src/mtac/Function.cpp:89 | so are those of `main`, with and without arguments, `time` and `duration` |
| Names.KindsOfNames | src/mangling.cpp:80-194 | names of the other kinds of functions and types, written out |
| Names.PrintedTypes | src/mangling.cpp:244-253 | what the unmangler prints for a function of one parameter of each standard type |
| Names.PrintedPair | src/mangling.cpp:300-312 | two equal parameters of standard type are printed without a separator |
| Instances.InsertedSound | src/ast/TemplateEngine.cpp:801-804 | a memo entry made before the passes keeps the rule that no key is instantiated twice |
| Instances.QueueFunction | src/ast/PassManager.cpp:169-200 | a function that caught up waits with all passes applied so far, seen from before it was asked for |
| Instances.QueueClass | src/ast/PassManager.cpp:202-225 | the same for a class and its members |
| Instances.HalfwayNext | src/ast/PassManager.cpp:69-87 | a pass over one block advances its units by one pass and no other unit, whatever it instantiates on the way |
| Instances.PlaceClass | src/ast/PassManager.cpp:264-266 | adding a waiting class keeps every unit of the program on the same passes and loses nothing |
| Instances.PlaceFunction | src/ast/PassManager.cpp:268-284 | the same for a waiting function, free or inside its structure |
| Instances.SettlesTransitive | src/ast/PassManager.cpp:169-225 | what one request made is not touched by the requests after it |
| PassManager.PassManager.InstantiateFunction | src/ast/TemplateEngine.cpp:779-808 | a request whose key is there already succeeds and changes nothing; otherwise no unit that existed is touched, and on success the key is in the memo and its instance waits with every pass applied; a failure has one of the causes in `Blamed` |
| PassManager.PassManager.CheckFunction | src/ast/TemplateEngine.cpp:810-877 | succeeds only with a template of that name and number of parameters in that context, and then the instance is made; fails only without one or for one of the causes |
| PassManager.PassManager.CheckType | src/ast/TemplateEngine.cpp:880-929 | the same for class templates: walks on from the name's first entry as the source does; the class it queues bears the entry's name and its mangled name with the arguments, has a copy of each of its members, and they have had every pass so far |
| PassManager.WalkStaysHome | src/ast/TemplateEngine.cpp:885-929 | the walk ends at an entry of the requested name exactly when one has the right number of parameters |
| PassManager.WalksMeet | src/ast/TemplateEngine.cpp:885-929 | for requests of two names with the same number of parameters: both reach the same entry, or both none, exactly when no entry from the first of the one name up to the first of the other fits |
| PassManager.KeysMeanClasses | src/ast/TemplateEngine.cpp:885-929 | names that have fitting entries of their own never meet at one: there different memo keys are different classes |
| PassManager.OneClassTwoKeys | src/ast/TemplateEngine.cpp:885-929 | a table of two entries in which two names meet: two memo keys for one class |
| PassManager.EndlessRun | src/ast/PassManager.cpp:169-200 | a program whose function instances ask for ever deeper ones fails for every stack, at depth 0 of the limit on classes |
| PassManager.PassManager.FunctionInstantiated | src/ast/PassManager.cpp:169-200 | the catch-up applies every pass so far exactly once, in order, and queues the function |
| PassManager.PassManager.IncDepth | src/ast/PassManager.cpp:228-234 | the depth goes up by one and fails beyond the limit, without going back |
| PassManager.PassManager.StructInstantiated | src/ast/PassManager.cpp:202-237 | the same for a class, one level deeper and never beyond the limit; the depth goes back on success only |
| PassManager.PassManager.Apply | src/ast/PassManager.cpp:69-87 | a pass on one unit: the unit has one more pass, every request was served, and only new units were touched |
| PassManager.PassManager.ApplyToClass | src/ast/PassManager.cpp:43-57 | a pass on a class reaches the class and its members that are not templates, each once |
| PassManager.PassManager.ApplyToProgram | src/ast/PassManager.cpp:59-93 | a pass on the program reaches every unit once; it is valid only if no block failed |
| PassManager.PassManager.Flush | src/ast/PassManager.cpp:262-287 | waiting instances go to the program: its blocks stay where they are, the classes come behind them in order, a free function is a block of its own and any other a member of the first structure of its context's name |
| PassManager.PassManager.RunPass | src/ast/PassManager.cpp:242-289 | between passes every unit has had exactly the passes applied so far and every key made is in the program |
| PassManager.PassManager.RunPasses | src/ast/PassManager.cpp:239-290 | in a successful run every function, structure and member that is no template had exactly the ordinary passes in order and every instance is in the program; no key is made twice and classes never nest beyond the limit in any run; a run fails only when a pass refuses the program, a unit makes a request that must fail, classes nest beyond the limit, or instantiations nest beyond the stack |
| PassManager.TameRun | src/ast/PassManager.cpp:239-290 | when nothing is refused, every request can be met and all are for finitely many keys, every run with stack and depth for that many instances succeeds |
| Graphs.ChainsAreCycles | src/GlobalContext.cpp:172-192 | in a graph of at most n nodes a chain of n steps exists exactly when a cycle can be reached |
| Inheritance.StructTable.Visit | src/ast/structure_inheritance.cpp:29-62 | one structure of a round: resolved if its parent is, refused if its parent is no structure |
| Inheritance.StructTable.ResolveParents | src/ast/structure_inheritance.cpp:20-73 | ends within one round more than there are structures; fails exactly for a parent that is no structure, or for parents that do not end at one of the program's structures without parent (a cycle, or a known structure outside the program); otherwise every declared parent is set |
| Inheritance.FoundedIffNoCycle | src/ast/structure_inheritance.cpp:58-69 | with all parents declared, a structure's chain of parents ends exactly when it runs into no cycle |
| Inheritance.TotalSize | src/GlobalContext.cpp:161-170 | after resolution the loop up the parents ends, and adds the own sizes over the line from the structure to its topmost ancestor, each once |
| Inheritance.LineageIsUnique | src/GlobalContext.cpp:161-170 | there is one such line at most |
| Nesting.IsNestedWithin | src/GlobalContext.cpp:172-188 | true exactly when a chain of that many member steps exists |
| Nesting.IsRecursivelyNested | src/GlobalContext.cpp:190-192 | true exactly for a chain of 100 steps; always for a reachable cycle; with at most 100 structures for nothing else |
| Nesting.IsNestedBeyond | src/GlobalContext.cpp:172-192 | the same for every limit |
| Nesting.LongNestingIsRefused | src/GlobalContext.cpp:190-192 | any nesting longer than the limit is refused, cycle or not |
| Nesting.StructSizeIff | src/Type.cpp:167-200 | the recursion between type sizes and structure sizes ends within a depth exactly when no chain through members, array elements and parents is that long |
| Nesting.SizeIffNoCycle | src/GlobalContext.cpp:151-170 | a structure has a size exactly when that graph reaches no cycle from it |
| Nesting.SizeCountsCells | src/Type.cpp:167-200 | a size is the sum of all the single values a structure is made of, array elements as often as they are there, and of a header for every array with a length |
| Nesting.AcceptedHasSize | src/ast/function_check.cpp:629-633 | without parents and arrays of structures, what the check accepts has a size |
| Nesting.ArrayOfItselfIsAccepted | src/GlobalContext.cpp:177-187 | a structure with an array of itself passes the check and has no size |
| Nesting.MemberOfItsParentIsAccepted | src/GlobalContext.cpp:161-188 | so does a structure that is a member of its own parent |
| InterferenceGraph.Graph.Gather | include/ltac/interference_graph.hpp:77-85 | keeps the two index maps inverse, and appends only new registers |
| InterferenceGraph.Graph.Convert | include/ltac/interference_graph.hpp:67-69 | the maps stay inverse exactly when the register was gathered |
| InterferenceGraph.Graph.BuildGraph | include/ltac/interference_graph.hpp:92-99 | a matrix without edges over the gathered registers, whose numbers stay as they are |
| InterferenceGraph.Graph.AddEdge | include/ltac/interference_graph.hpp:101-104 | sets both cells and no other; the matrix stays symmetric |
| InterferenceGraph.Graph.BuildAdjacencyVectors | include/ltac/interference_graph.hpp:141-157 | each list is the ascending list of connected other nodes, each degree its length |
| InterferenceGraph.Graph.RemoveNode | include/ltac/interference_graph.hpp:112-123 | disconnects the node; the remaining degrees stay right exactly when it was still there or had no neighbour left |
| InterferenceGraph.Graph.DegreeCountsConnections | include/ltac/interference_graph.hpp:126-128 | a remaining node's degree is the number of other nodes it is connected to |
| InterferenceGraph.RemainingStep | include/ltac/interference_graph.hpp:115-120 | removing a node takes one off a count exactly when it is a remaining neighbour |
| ParameterFrame.FunctionContext.constructor | src/FunctionContext.cpp:23-31 | the first parameter lies above one or two words |
| ParameterFrame.FunctionContext.AddParameter | src/FunctionContext.cpp:51-59 | a new name goes right after the last parameter |
| ParameterFrame.FunctionContext.RemoveParameter | src/FunctionContext.cpp:136-155 | the others stay packed in the same order; other variables stay where they are |
| ParameterFrame.RemovedStaysPacked | src/FunctionContext.cpp:143-150 | moving down whatever lies above a removed parameter closes its gap and opens no other, zero sizes included |
| ParameterFrame.OffsetIsSum | src/FunctionContext.cpp:51-59 | an offset is the base plus the sizes of the parameters inserted earlier and still there |
| MemberLayout.Collect | src/ast/structure_member_collection.cpp:31-68 | succeeds exactly for distinct names and arrays of fixed size and one dimension, and keeps every member in order, with its name, type and length |
| MemberLayout.LessIsStrictWeakOrder | src/ast/structure_member_collection.cpp:70-79 | the comparator is a strict weak order |
| MemberLayout.BytesComeLast | src/ast/structure_member_collection.cpp:70-79 | a permutation is sorted by it exactly when all characters and booleans come last |
| MemberLayout.WideMembersAligned | src/ast/structure_member_collection.cpp:70-79 | then every other member starts at a whole word, if the others take whole words |
| MemberLayout.PlatformTables | src/Platform.cpp:14-94 | the sizes of the standard types on both platforms |
| MemberLayout.BytesAreShort | src/Platform.cpp:14-94 | the types put last are exactly those of less than a word, and the others take whole words |
| MemberLayout.ScalarsAligned | src/ast/structure_member_collection.cpp:70-79 | in a structure of standard types, pointers and arrays without a length every member of a word or more starts at a whole word |
| MemberLayout.CharactersMoveTheNext | src/ast/structure_member_collection.cpp:70-79 | an array of one character keeps its place before an int, which then does not start at a whole word |
| MemberLayout.MemberOffset | src/GlobalContext.cpp:123-135 | the size of the members before; an unknown name is an error |
| MemberLayout.SelfSize | src/GlobalContext.cpp:151-159 | the sum of the sizes of the members |
| MemberLayout.MemberType | src/GlobalContext.cpp:137-149 | the type of the first member that starts at the offset or after it, or of the last |
| MemberLayout.TypeAtOwnOffset | src/GlobalContext.cpp:123-149 | a member's own offset finds it exactly when it is the first or the one before it takes up room |
| MemberLayout.TypeInsideIsNext | src/GlobalContext.cpp:137-149 | an offset inside a member finds the next one |
| MemberLayout.ByteHasOwner | src/GlobalContext.cpp:123-159 | every byte below the size of the structure lies within a member |
| MemberLayout.OwnedIsWithin | src/GlobalContext.cpp:123-159 | no byte beyond the size lies within a member |
| MemberLayout.OwnerIsUnique | src/GlobalContext.cpp:123-159 | and within no other one |

## Left out

- Meaning.DesugaringPreservesMeaning: one direction of its hypotheses. It asks that evaluating switch and case values and finding the places on the left of `op=` has no side effect, that the rest of the code does not mention loop variables and iterators, that a body does not replace its iterator or array, that no foreach counts up to the largest integer (for which `Rounds.ForeachEndsIff` has the exact condition), and that comparing strings changes nothing; two lemmas show the first two are needed, but no exact condition is given, since whether a side effect shows depends on the interpretation.
- Semantics.Eval: the generated code reads a plain variable among the operands when the operation runs, here it is read in its place; the two differ only when a later operand of the same operation changes it. An increment of a unary plus or of a cast without effect reaches the variable below in the generated code, here a temporary.
- Solvers.EnginesAgree: asks that blocks start no higher than their transfer of the empty set, as empty sets do; outside that `DataFlow.SizesMissAChange` shows the engines can stop at different points, and an exact condition would depend on the order of the blocks.
- Solvers.BackwardResults.BackwardDataFlow: a statement's number is the pair of its block and its place in it.
- Liveness.Collect: the four lists of uses and the four lists of kills are one list each, with the kind and world of a register in the register.
- Execution.StepSound: an instruction other than a jump or call is taken to change only what it lists as uses and its first argument, as the statement compiler builds it; the stack pointer is not a register here.
- Demangling.ReadLength: a number without digits reads as zero, where the source leaves it undetermined; reads beyond the end of a string yield the null character.
- Demangling.UnmangleInvertsMangle: types the parser cannot read, and constructors and destructors, are outside its domain.
- Demangling.ExtractInvertsExactly: templates without arguments, which programs cannot write, are outside its domain; `EmptyTemplateRunsOn` has the condition for one alone, and a type holding one among others is not treated.
- Mangling.SignatureUnique: the overload that computes types from argument values first is the one over types once those are known.
- PassManager.PassManager.Apply: what a pass does to the body of a unit is not modelled, only which instances it asks for; members that a pass generates for a structure are not units of the model.
- PassManager.PassManager.CheckType: the order of the table of class templates is arbitrary, and entries registered during a run are part of it. Arguments of a requested template are not instantiated by the request itself, as in the source.
- PassManager.PassManager.CheckFunction: the registry that is asked before the program is searched only changes the error message.
- PassManager.PassManager.RunPasses: every pass has one sub-pass, as none overrides the count; type arguments are compared as strings, and the two instantiation tables are one set of keys.
- ParameterFrame.FunctionContext.AddParameter: asks for a new name, since an old one would be overwritten in the table; parameters moved to registers and stored variables are not modelled.
- InterferenceGraph.Graph.BuildGraph: spill costs are not modelled, and degrees kept from an earlier graph count as undetermined until the lists are built.
- MemberLayout.BytesComeLast: the sort itself is any function that obeys the comparator.
- Cleaning.EvalClean: asks that the operand of a member call is the call itself, as parsed; the walk over statements is not modelled.
- The visit of the values inside statements by the transform pass, which rebuilds them unchanged, and compound assignments used as values, which it does not rewrite.
- Destructor calls at the end of scopes, source positions, contexts and the identity of shared nodes.
- Memory, pointers, floating point and calling conventions: they are an arbitrary interpretation of the statements' meaning.
- The forward data-flow engines and the intersection meet, whose problems are not part of this model.
- The optimisation passes, the register allocator, code generation, the parser and error reporting.
