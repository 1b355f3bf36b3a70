# LICE in Dafny

LICE reads C99, builds a typed tree and emits x86-64 assembly that uses `rax` as an
accumulator and the machine stack for temporaries. This project models its code generator,
its expression and declarator parsers, its initializers and structure layout, its
declaration specifiers, its label resolution, its token buffer, linked list and growing
string, and proves what these are for.

## How it is organised

**Code generation.** `Words` and `Machine` are a 64-bit machine with registers, flags,
word-addressed memory, labels and a program counter. `Syntax` is the tree the generator
walks, on eight-byte integers and pointers. `Semantics` gives that tree a big-step meaning
in four dialects that share one definition: `Iso` (C99), `Lice` (what the emitted code
does), `Common` (where the two coincide) and `Narrow` (C99, with switches on `int` values
only). `Code` is the emitted code with break, continue and switch labels resolved by
nesting. `ExprSim`, `StmtSim` and `FunctionSim` prove forward simulation from the `Lice`
dialect, `Divergence` that a run that never ends has code that never returns, `Endings` that
every run ends, is stuck or never ends; `Dialects`
says exactly where C99 and the code part, operator by operator, and `Guards` gives a
condition on a program's text under which the generated code does what C99 says. `Chains`
ties chains of members to the layout: addresses, and what is read after a write. `Labels`
counts label definitions and says where jumps go; `JumpTargets` does so for the whole tree
with gotos, whose destinations come from `Gotos`. `SaveSlots` is the generator with its
single break, continue and switch slots, and says exactly when these agree with the nesting.
`Emission.Generator` is the generator as it is written, a class that appends to an output,
counts `gen_stack` and overwrites its slots, proved to emit the code the other modules
reason about. `Frames` lays out a function's frame. `ConstEval` compares the compile-time
folder with the emitted code. `StackCode`, `StackDiscipline` and `Marshalling` cover the
larger tree with floating operands: the depth of the stack on every path, and the registers
at a call.

**Parsing.** `Grammar` is precedence climbing and the language it accepts, `Precedence` the
stratified grammar and minimal parentheses, `ExpressionParser` the parser over a token
buffer. `Declarators` is the heap of stub types a declarator patches. `Layout`,
`Initializers`, `NestedInitializers`, `InitMemory` and `InitializerParser` are structure
layout, flattening of initializers, what nested braces and designators mean, their effect on
memory, and the flattening parser. `Specifiers` is the declaration-specifier state machine,
`Gotos` label resolution.

**Containers and tokens.** `Lists`, `TokenSource`, `Strings` and `Literals` are the linked
list, the push-back token source, the growing string, and quoting and reading of string
literals.

## Where the code departs from C99

Each departure is either in the `Lice` dialect, with a lemma that says exactly when it
shows, or has a lemma of its own: `%` keeps 32 bits (`Dialects.RemainderAgrees`), pointer
minus adds (`PointerMinusAgrees`), `++` on a pointer steps by one byte and computes its
place twice (`IncDecAgrees`, `IncDecQuiet`, `MovedTwice`), `continue` in a `do` goes to its
start (`ContinueAgrees`, `DoContinueLoops`), cases after `default` are not tested and the
comparison uses 32 bits (`SelectAgrees`, `SelectWide`), `&*p` and `&a[i]` load through the
address (`AddressOfDeref`, `AddressOfElement`), constant folding passes over casts and over
unsigned types (`ConstEval.FoldsIso`, `CastIsDropped`, `SizesAreSigned`), members of
anonymous structures are not aligned (`Layout.PlacedAligned`, `AnonymousUnaligned`), an
element of an initializer list ends before a binary operator (`Initializers.BracedExactly`,
`SumRefused`, `DifferenceSplit`), a member may be initialized once only and a designator
after elided braces belongs to the inner structure (`NestedInitializers.NestedExactly`,
`OverrideRefused`, `InnerTaken`), a call may end in a comma (`Precedence.TrailingComma`), three nested
breakable constructs lose a label (`SaveSlots.ThreeDeep`), `int *(x)` ends in a stub
(`Declarators.BareParentheses`), a float initializer stores eight bytes
(`InitMemory.FloatSpills`), upper-case hexadecimal escapes are misread
(`Literals.HexExactly`), compound assignments do not chain
(`Precedence.CompoundDoesNotChain`), `char long long` and `long long char` differ
(`Specifiers.OrderMatters`).

## Model

| member | source | states |
|---|---|---|
| Runs.StopsOnce | gen_amd64.c:720-727 | a run that stops has exactly one final state, so what the simulation theorems reach is what the code does |
| Machine.FindLabel | gen_amd64.c:453-459 | a jump goes to a place that defines its label, and fails only if no place does |
| Words.DivRem | gen_amd64.c:307-311 | idiv truncates: quotient times divisor plus remainder is the dividend and the remainder is smaller than the divisor |
| Words.TruncDivFits | gen_amd64.c:307-309 | the 64-bit quotient overflows for no operands but the least number divided by -1 |
| Words.BitwiseWiden | gen_amd64.c:773-780 | and, or and exclusive or on m bits agree with those on more bits, for numbers that fit in m |
| ExprSim.SimExpr | gen_amd64.c:461-806 | for every expression whose evaluation succeeds, the machine runs its code to the end with the value in rax, the new memory, the stack pointer as before and every other stack cell untouched |
| ExprSim.SimFinish | gen_amd64.c:259-316 | with the left operand on the stack and the right one in rax, the code of each of the 17 binary operators pops the one and leaves the result in rax |
| ExprSim.SimPointer | gen_amd64.c:176-188 | pointer arithmetic scales the index by the size of what is pointed to and adds it, for minus as well |
| ExprSim.SimRead | gen_amd64.c:215-237 | running the code of a load leaves in rax the word at the place the lvalue designates, through any chain of members, and keeps memory |
| ExprSim.SimWrite | gen_amd64.c:190-213 | running the code of a store changes the word at that place to rax, which survives, and nothing else |
| Chains.PlaceSum | gen_amd64.c:190-237 | the place a chain of members designates is that of its root plus the sum of the offsets, modulo 2 to the 64 |
| Chains.ChainOffset | parse.c:448-459 | for the chain built for a path of members that sum is the offset the layout computes, to any depth |
| Chains.ReadAfterWrite | gen_amd64.c:190-237 | after an assignment to a member of a structure, a read of the same member gives the value stored, and a read of one that parts from it in a structure gives what it held before |
| Chains.MachineReadAfterWrite | gen_amd64.c:190-237 | the same of the machine: the code of the assignment and that of the read, one after the other, leave that value in rax |
| ExprSim.SimWriteDeref | gen_amd64.c:153-168 | the value waits on the stack while the address, side effects included, is computed, and then goes there |
| ExprSim.SimCall | gen_amd64.c:514-568 | arguments are evaluated left to right, nested calls included, the callee gets them in the argument registers, and afterwards these hold what they held before |
| ExprSim.SimInvoke | gen_amd64.c:546-552 | at the call instruction the first registers hold the argument values, and what the callee returns and does to the objects it can reach is what the semantics says |
| ExprSim.SimRestore | gen_amd64.c:541-564 | saved registers come back in last-in first-out order, each its own value |
| StmtSim.SimStmt | gen_amd64.c:461-806 | for every statement, entered at its start or at any of its case markers, a run of the semantics is matched by one of the code that ends after it, at the label a break or continue names, or back in the caller |
| StmtSim.SimChain | gen_amd64.c:692-709 | from a switch, the chained comparisons reach the first case equal to the low half of rax or an earlier default, wherever in nested loops it stands, else the end, and keep rax |
| StmtSim.SimSwitch | gen_amd64.c:678-690 | a switch enters its body at the selected marker, falls through from there, and leaves at its end or its breaks |
| StmtSim.SimLiteralInit | gen_amd64.c:381-394 | a literal initializer stores its value and gives rax back |
| StmtSim.SimLeave | gen_amd64.c:720-727 | a return from any depth of nesting restores the frame pointer, the stack pointer and the return address |
| FunctionSim.FunctionCorrect | gen_amd64.c:1008-1026 | calling a function whose body runs to an end returns to the caller with the result in rax, the frame gone, and every object as the semantics says |
| FunctionSim.GeneratedCorrect | gen_amd64.c:1013-1026 | the same for the code the generator emits with its single label slots, where these agree with the nesting |
| Divergence.Goes | gen_amd64.c:602-735 | the code of every statement whose run is not stuck and takes more than so many rounds of a loop makes at least so many steps, entered at its start; one less at a marker |
| Divergence.GeneratedForever | gen_amd64.c:1013-1026 | a function whose body's run never ends: from the call on every state the code reaches has a next one, lies in the function's own code and is not at a ret, whatever the return address |
| Divergence.SpinsUnfinished | gen_amd64.c:619-664 | a run that takes more rounds than there is fuel has no result, in each dialect |
| Endings.EndsStuckOrNever | gen_amd64.c:602-735 | in each dialect exactly one is true of every run: it ends, it is stuck, or it never ends |
| Endings.StuckMore | gen_amd64.c:602-735 | a run that is stuck stays so with more fuel |
| Guards.GuardedRuns | gen_amd64.c:461-806 | a statement without %, pointer minus, &*, steps by more than one or of places with side effects, and continue of a do, with default last in each switch, has the same runs in C99 and in the code, if switches are on int values |
| Guards.GuardedCorrect | gen_amd64.c:1013-1026 | and then the code generated for such a function, single label slots included, returns what C99 says: any run of the body that ends |
| Divergence.GuardedForever | gen_amd64.c:1013-1026 | the same for a guarded function whose run in C99 never ends |
| Guards.IntValuedFits | gen_amd64.c:678-690 | an expression in the form of a comparison, logical operator, small constant or such, has an int value, so the switches can be checked from the text as well |
| FunctionSim.SimPrologue | gen_amd64.c:967-1006 | after the prologue the frame base is fixed, each parameter register is stored in the word of its parameter, and the rest of memory is as before |
| FunctionSim.PushedObject | gen_amd64.c:979-992 | the word at a parameter's offset holds its argument when the body starts |
| Frames.FrameSafety | gen_amd64.c:967-1006 | every parameter and local has its own aligned bytes between the final stack pointer and the frame base, parameter k where the k-th push wrote, although the sum of offsets is what is reserved |
| Frames.AlignmentRounds | gen_amd64.c:960-965 | the least multiple of the alignment that is not below a size |
| Frames.SumReaches | gen_amd64.c:994-1004 | the sum of the offsets reaches at least as far down as the lowest of them |
| Dialects.MoreFuel | gen_amd64.c:619-664 | more fuel never changes the result of a run that ended: the bound on loop iterations is not part of the meaning |
| Dialects.SelectAgrees | gen_amd64.c:692-709 | for a value that fits in 32 bits the comparison chain selects what C99 selects if and only if the matching case is missing or comes before default |
| Dialects.SelectWide | gen_amd64.c:692-702 | for a wider value it agrees if and only if no case before default equals its low half |
| Dialects.RemainderAgrees | gen_amd64.c:307-311 | the remainder that is cut to 32 bits agrees with C99 if and only if the dividend is nonnegative or a multiple of the divisor, and the remainder of the magnitudes is below 2 to the 32 |
| Dialects.PointerMinusAgrees | gen_amd64.c:176-188 | subtracting from a pointer by adding agrees with C99 if and only if twice the scaled distance is zero modulo 2 to the 64 |
| Dialects.IncDecAgrees | gen_amd64.c:421-433 | a step, whose place the code computes twice, agrees with C99 if and only if the two computations leave the same words everywhere else and the stores come out the same, or, at one place, the step is by one |
| Dialects.IncDecQuiet | gen_amd64.c:421-433 | so where the place holds no assignment, step or call, it agrees if and only if the object stepped over is one byte long, modulo 2 to the 64 |
| Dialects.QuietKeeps | gen_amd64.c:461-806 | evaluating an expression without assignment, step or call leaves memory as it was |
| Dialects.MovedTwice | gen_amd64.c:421-433 | (*(p = p + 1))++ moves p twice in the code and once in C99 |
| Dialects.DoContinueLoops | gen_amd64.c:653-664 | a do whose body always ends in a continue never ends in the code, whatever the test; C99 ends it when the test is zero |
| Dialects.DoContinue | gen_amd64.c:653-664 | do continue; while (0); is such a statement |
| Divergence.DoContinueSpins | gen_amd64.c:653-664 | and its run in the code is endless |
| Dialects.NeverContinued | gen_amd64.c:653-664 | without a continue of its own no run of a body ends in one |
| Dialects.DoAgrees | gen_amd64.c:653-664 | and then the do has the same runs in both, if its body and test have |
| Dialects.ContinueAgrees | gen_amd64.c:653-664 | after a continue the code starts the body again in the same memory, C99 evaluates the test first: they go on alike if and only if the test is nonzero and leaves memory as it is |
| Dialects.AddressOfDeref | gen_amd64.c:575-594 | for any operand, &*e is the value of e in C99 and the word stored there in the code: they agree if and only if that word is its own address |
| Dialects.AddressOfElement | gen_amd64.c:575-594 | &a[i] likewise: C99 gives the scaled sum, the code what is stored there |
| Labels.ExprDefs | gen_amd64.c:453-455 | an expression defines exactly the labels handed out for it, each once |
| Labels.StmtDefsExact | gen_amd64.c:602-718 | a statement, cases included, defines each of its labels once and leaves the next case label open |
| Labels.BodyLabels | gen_amd64.c:602-718 | the code of a body without gotos defines every label handed out for it exactly once and no other |
| Labels.StmtAims | gen_amd64.c:602-718 | every jump in a statement's code goes to a label handed out for it or to where its break or continue goes |
| Labels.BodyTargets | gen_amd64.c:1013-1026 | so every jump in the code of a body goes to a label that the code defines exactly once |
| JumpTargets.ExprMark | gen_amd64.c:461-806 | on the whole tree, calls, floating values and literals with initializers included, the code of an expression marks the labels handed out for it, each once, and no other |
| JumpTargets.BodyCounts | gen_amd64.c:602-735 | the code of a body with gotos marks each label handed out once, and others as often as label statements place them, and jumps elsewhere as often as gotos do |
| JumpTargets.BodyTargets | gen_amd64.c:1013-1026 | if label statements have different labels, taken before, and each goto goes to one of them, every jump and branch of the body's code goes to a label that is marked there exactly once |
| JumpTargets.TableResolves | parse.c:1371-1384 | which is what the backfilling of gotos leaves |
| SaveSlots.RawIsLexical | gen_amd64.c:22-55 | whatever the slots hold before, the code with single save slots is the code of the nesting if and only if the scan for spoilt slots finds none |
| SaveSlots.TwoDeepSafe | gen_amd64.c:619-690 | with breakable constructs nested at most two deep it always is |
| SaveSlots.RestoredExactly | gen_amd64.c:45-55 | after a loop or switch the break label is its old value if and only if the body holds no breakable construct, and after a loop the continue label if and only if it holds no loop |
| SaveSlots.ThreeDeep | gen_amd64.c:619-690 | a break after a loop in a loop in a loop jumps to the wrong loop's end |
| SaveSlots.RawAlways | gen_amd64.c:666-709 | a well-nested body never meets the internal errors, whatever the slots hold |
| Emission.Generator.GenExpr | gen_amd64.c:461-806 | appends the expression's code, takes its labels and leaves the count of pushed bytes as it was |
| Emission.Generator.GenRead | gen_amd64.c:215-237 | appends the code of a load of a member chain |
| Emission.Generator.GenWrite | gen_amd64.c:239-257 | appends the code of a store to a variable, dereference or member chain, and refuses what is none of these |
| Emission.Generator.GenCall | gen_amd64.c:514-568 | appends the code of a call, and refuses more than six arguments |
| Emission.Generator.GenArgs | gen_amd64.c:526-536 | the loop over the arguments pushes one value for each |
| Emission.Generator.GenStatement | gen_amd64.c:602-735 | appends a statement's code with the labels in the slots, and stops with an error exactly where a label is missing |
| Emission.Generator.GenCase | gen_amd64.c:692-702 | jumps over the comparison, defines the pending label and hands out the next |
| Emission.Generator.GenSwitch | gen_amd64.c:678-690 | saves the slots, resolves its own markers and breaks, and restores what the save slots then hold |
| Emission.Generator.GenFor | gen_amd64.c:619-638 | the three clauses of a for statement and its labels |
| Emission.Generator.GenPrologue | gen_amd64.c:967-1006 | assigns every variable its offset and emits the pushes and the reservation |
| Emission.Generator.PlaceLocals | gen_amd64.c:994-1001 | the loop over the locals computes the offsets, the lowest of them and the sum that is reserved |
| Emission.Generator.GenFunction | gen_amd64.c:1013-1026 | prologue, body and epilogue, with the count reset |
| Emission.Generator.GenUnit | lice.c:18-31 | over all functions of a unit, whatever was handed out and emitted before, no label is defined twice, and each function's code is in the output with its jumps resolved by nesting |
| ConstEval.FoldsIso | parse.c:65-99 | for every tree it accepts the folded value of the tree and of each part is what C99 gives if and only if each literal keeps its value as an int, each cast operand fits its type, and operators of unsigned type have operands on which signedness does not show |
| ConstEval.SignedFolds | parse.c:65-99 | without unsigned types as wide as int, if and only if each cast operand lies in the type it is cast to |
| ConstEval.CastIsDropped | parse.c:93 | (unsigned char)300 is 44 and folds to 300 |
| ConstEval.SizesAreSigned | parse.c:78 | -1 < sizeof(int) is false and folds to 1 |
| ConstEval.UnsignedStep | parse.c:65-99 | for an operator at an unsigned type, exactly which operands give the folder's value |
| ConstEval.FoldsLice | parse.c:65-99 | and it is what the emitted code gives, where each remainder is of a nonnegative number or comes out even |
| ConstEval.RemainderFolds | parse.c:65-99 | for a remainder of such trees the two agree if and only if the dividend is nonnegative or a multiple of the divisor |
| ConstEval.FoldedInRax | parse.c:65-99 | running the tree's code leaves the folded value in rax |
| StackDiscipline.ExprOn | gen_amd64.c:461-806 | the code of every expression, floating and calls included, brings the stack back to its depth, its labels each belong to one depth, and the count moves with the pushes |
| StackDiscipline.StmtOn | gen_amd64.c:602-735 | the same for every statement, with the labels left in the slots and those of gotos all at the statement's depth |
| StackDiscipline.CallOn | gen_amd64.c:514-568 | a call takes back what it pushed for any mix of arguments, padding included |
| StackDiscipline.CombineOn | gen_amd64.c:259-338 | the left operand is popped the way it was pushed, by integer, floating, pointer operators and comparisons alike |
| StackDiscipline.SaveLocalOn | gen_amd64.c:139-151 | storing a local leaves the stack at its depth, floats spilling a register and taking it back |
| StackDiscipline.SaveLiteralOn | gen_amd64.c:381-407 | storing a literal leaves the stack at its depth for every kind that has a store |
| StackRuns.ExpressionRuns | gen_amd64.c:461-806 | in every state of every run through an expression's code the stack is as deep as the place says, over an untouched rest, and at the end as at the start; its labels are its own |
| StackRuns.BodyRuns | gen_amd64.c:1013-1026 | for every body, however deep constructs nest: every label has one depth, no state of any run is shallower than the start, and gen_stack ends where it began |
| StackRuns.EveryState | gen_amd64.c:57-74 | one depth for each label is enough for that |
| Marshalling.CallMarshals | gen_amd64.c:514-568 | at the call the k-th integer argument is in the k-th argument register and the k-th floating one in xmm k, each the value its evaluation left, and eax counts the floating ones; afterwards the stack, all those integer registers, xmm1 and up and the result are as they should be |
| Marshalling.ArgsRuns | gen_amd64.c:526-536 | evaluating the arguments, whatever they contain, adds exactly their values to the stack |
| Marshalling.LoadRuns | gen_amd64.c:541-547 | popping in reverse order delivers every value to its register |
| Marshalling.RestoreRuns | gen_amd64.c:557-564 | popping the saved registers in reverse order restores all but the first floating one, which was not saved |
| Marshalling.SaveRuns | gen_amd64.c:516-524 | the save loop pushes every integer argument register and every floating one but the first |
| OneGenerator.SameExpr | gen_amd64.c:461-806 | for every integer expression both views of the generator fail together or emit the same code, as far as the whole view shows it, with the same labels |
| OneGenerator.SameStmt | gen_amd64.c:602-735 | the same for every statement, save slots included |
| OneGenerator.IntegerBodies | gen_amd64.c:1013-1026 | so the code of every integer body the generator accepts reaches each label with one depth of the stack |
| StackGenerator.Generator.SaveRegisters | gen_amd64.c:516-524 | the loop with its two counters emits those pushes |
| StackGenerator.Generator.LoadArguments | gen_amd64.c:538-547 | the loop over the reversed list, counting back, emits the pops of the arguments |
| StackGenerator.Generator.RestoreRegisters | gen_amd64.c:557-564 | the loop whose floating counter stops at one emits the restoring pops |
| StackGenerator.Generator.GenExpr | gen_amd64.c:461-806 | emits what the function says for every expression, and fails where it refuses |
| JumpTargets.InitsOnce | gen_amd64.c:170-174 | once a compound literal's initializers have been emitted, they are not again: after any statement a second use adds nothing and changes nothing |
| StackGenerator.Generator.GenStmt | gen_amd64.c:602-735 | emits what the function says for every statement, gotos and labels included |
| StackGenerator.Generator.GenSwitch | gen_amd64.c:678-690 | overwrites the save slots before the expression and restores from them after the body |
| Grammar.ClimbExact | parse.c:506-586 | the loop with its moving bound, calls and their arguments included, returns a tree and a rest if and only if the tokens are the tree's yield and the rest, the tree respects priorities and associativity, and the next token ends it |
| Grammar.ClimbSound | parse.c:506-582 | what is consumed is the tree's yield |
| Grammar.ClimbComplete | parse.c:506-582 | every tree of the language is found from its tokens |
| Grammar.Unambiguous | parse.c:101-154 | no two trees are written with the same tokens |
| Precedence.StratifiedExact | parse.c:101-154 | the trees are those of the grammar with one stratum for each priority |
| Precedence.PrintParses | parse.c:506-586 | a tree printed with parentheses where strata need them parses to itself, and nothing of what follows is consumed |
| Precedence.PrintMinimal | parse.c:101-154 | no other way to write the tree has fewer parentheses |
| Precedence.CompoundDoesNotChain | parse.c:51-53 | a = b = c parses and a += b += c is refused |
| Precedence.TrailingComma | parse.c:179-195 | f(e,) is accepted and is the call f(e) |
| ExpressionParser.Parser.ParseIntermediate | parse.c:506-582 | the loop over the token buffer yields the specified tree, calls included, and leaves the specified tokens |
| ExpressionParser.Parser.ParseOperand | parse.c:381-439 | operands, calls and prefix operators, and no operand where a separator comes |
| ExpressionParser.Parser.ParseGeneric | parse.c:209-222 | a name is a call if and only if a parenthesis follows |
| ExpressionParser.Parser.ParseCall | parse.c:179-195 | the loop that pushes arguments on a list reads what the recursive reading of argument lists reads |
| ExpressionParser.Parser.ParseCondition | parse.c:441-446 | both arms of a conditional are full expressions |
| ExpressionParser.Parser.ParseSubscript | parse.c:320-325 | a subscript is a full expression up to its bracket |
| ExpressionParser.Parser.ParseField | parse.c:448-459 | a member name must be an identifier |
| ExpressionParser.Parser.Expect | parse.c:55-59 | consumes the punctuation or fails |
| Declarators.DeclaratorParser.ParseDeclarator | parse.c:1651-1666 | the declared type's chain of objects spells the declarator's layers over the base type with every array size right, though stubs were filled in later, and each parameter object of each function layer heads a chain that spells its parameter the same way, to any depth; with a bare parenthesis inside it ends in a stub |
| Declarators.DeclaratorParser.Direct | parse.c:1616-1649 | the chain built by patching, its name and how its last object relates to the base |
| Declarators.DeclaratorParser.Restage | parse.c:1574-1601 | suffixes, parameter lists included, are applied right to left, and arrays of functions, functions returning functions or arrays are refused |
| Declarators.DeclaratorParser.ParameterList | parse.c:1448-1495 | the loop over parameters pushes for each a type whose objects, those of its own parameters included, have the layers and the base it spells, to any depth of nested lists |
| Declarators.DeclaratorParser.Parameters | parse.c:1574-1601 | a parameter list makes of the base a function type that holds these types in their order |
| Declarators.DeclaratorParser.ParseParam | parse.c:1234-1241 | one parameter: specifiers, declarator, void refused, and a complete chain, function layers and their parameters included |
| Declarators.DeclaratorParser.Decay | parse.c:1480-1481 | an array parameter is a pointer to its element, whose chain is shared |
| Declarators.DeclaratorParser.FillStub | parse.c:1625-1630 | assigning the type of the suffix to the stub joins the two chains |
| Declarators.ArrayFix | parse.c:1651-1660 | afterwards every array reachable in the chain has length times element size |
| Declarators.LostExactly | parse.c:1616-1649 | the base type is lost if and only if parentheses with nothing after them stand inside the declarator, and shared if and only if there are none |
| Declarators.RoundTrip | parse.c:1448-1666 | printing any legal list of layers, parameter types of functions and theirs included, as a declarator and parsing it gives the layers and the name back |
| Declarators.ReadsBack | parse.c:1448-1649 | every declarator the parser can accept, parameter lists included, is read back from its tokens |
| Declarators.WordsForRight | parse.c:987-1206 | the specifiers printed for a parameter's base type mean that type |
| Declarators.OneMeaning | ast.c:460-497 | an object denotes only one chain of layers, the types of parameters at any depth among them |
| Declarators.BareParentheses | parse.c:1616-1649 | int *(x) is accepted and its type is a stub |
| Layout.LayOut | parse.c:632-687 | the loop over the members, anonymous structures and unions included, gives the offsets and the size |
| Layout.Squash | parse.c:623-630 | the members of an anonymous one are added, each moved |
| Layout.PlacedMembers | parse.c:632-687 | each member keeps its name and type, those of anonymous ones in their place, in structures and unions |
| Layout.PlacedInside | parse.c:632-687 | whatever is anonymous, all members end inside the structure |
| Layout.GroupsApart | parse.c:632-687 | members declared later lie after the end of those before |
| Layout.PlacedAscends | parse.c:618-687 | where anonymous members are structures, all members ascend without overlap inside the size |
| Layout.PlacedAligned | parse.c:618-687 | every member is at a multiple of its size, or of 16, if and only if each member of each anonymous structure comes to lie at one, from where the structure is met |
| Layout.MetExactly | parse.c:618-687 | for anonymous structures aligned in themselves that is so if and only if each is met where every one of its members could start |
| Layout.AnonymousUnaligned | parse.c:649-656 | in struct { char c; struct { long x; }; } the long is at offset 1 |
| Layout.OverlaidInside | parse.c:632-687 | union members share offset 0, those of an anonymous structure moved to it, all within the largest size |
| Layout.LeavesStrung | parse.c:618-687 | the scalars of any nested type are disjoint, ascend and lie inside the object |
| Layout.WalkInside | gen_amd64.c:215-237 | a chain of member accesses ends inside the object, unions or not |
| Layout.LaysHoused | parse.c:632-687 | whatever this layout makes, structure or union, houses its members |
| Layout.LaysLaid | parse.c:632-687 | and a structure of it has members that ascend, apart, inside its size |
| Layout.WalksDisjoint | gen_amd64.c:190-237 | two chains that part ways in a structure designate disjoint places |
| Layout.SaneDisjoint | gen_amd64.c:190-237 | in an object without unions any two chains of which neither continues the other designate disjoint places |
| Layout.UnionShares | parse.c:668-671 | two members of a union begin at the same place |
| Initializers.Cover | parse.c:757-975 | whatever tokens succeed, elided braces, designators, strings and missing values included, the list holds every scalar of the type exactly once |
| Initializers.FlatList | parse.c:924-975 | a list of expressions of stratum below 3 without inner braces fills the scalars in order, with zeros for those missing and the excess dropped |
| NestedInitializers.NestedValues | parse.c:829-975 | initializers in nested braces or with those of any member left out, with designators of structure members in any order, strings and missing members: if no designator follows a structure without its braces or an array without them that is not full, they are accepted if and only if no member is initialized twice, and then the list sets each scalar to what section 6.7.8 of ISO/IEC 9899:1999 gives it or to zero |
| NestedInitializers.NestedExactly | parse.c:829-975 | and of all such initializers it is exactly those with both properties that are accepted with these values |
| NestedInitializers.InnerTaken | parse.c:878-892 | { 1, .b = 2 } for a structure of a structure with a member b and a member b: C99 sets the outer b, the code the inner one |
| NestedInitializers.ElidedThenNamed | parse.c:880-886 | { 1, .c = 2 } is refused for a structure whose first member is a structure without a c |
| NestedInitializers.NestedLands | gen_amd64.c:381-419 | and executing that list in any order leaves these values in memory and changes nothing outside the object |
| NestedInitializers.OverrideRefused | parse.c:899-903 | { .f = 1, .f = 2 } is refused |
| Initializers.BracedExactly | parse.c:829-838 | of all expressions e the list { e } for an array of scalars sets the first element to e and the rest to zero if and only if e is of a stratum below 3, not a string for characters |
| Initializers.SumRefused | parse.c:834 | { 1 + 2 } is refused |
| Initializers.DifferenceSplit | parse.c:834 | { 1 - 2 } sets two elements, to 1 and to -2 |
| InitMemory.InitializedExactly | gen_amd64.c:381-419 | executing the list in any order gives every scalar its value or zero and changes no byte outside the object, if what each store writes ends before the next scalar and inside the object |
| InitMemory.SafeExactly | gen_amd64.c:381-419 | and if and only if: otherwise some order, values and memory lose a scalar or reach outside |
| InitMemory.NoFloatRoomy | gen_amd64.c:381-407 | without floats there is always that room |
| InitMemory.FloatSpills | gen_amd64.c:396-402 | a float before a gap is harmless; one at the end of an object, or right before an int, is not |
| InitializerParser.Flattener.ParseElement | parse.c:829-838 | appends what the specification says and leaves its tokens |
| InitializerParser.Flattener.ParseArray | parse.c:924-951 | the loop over elements with or without a brace |
| InitializerParser.Flattener.ParseStructure | parse.c:864-922 | the loop over members with designators and the set of those written |
| InitializerParser.Flattener.ParseList | parse.c:953-975 | strings, arrays and structures |
| InitializerParser.Flattener.ParseZero | parse.c:840-862 | appends a zero for every scalar |
| InitializerParser.Flattener.AssignString | parse.c:757-783 | the characters of a string, cut to the array or padded with NULs |
| InitializerParser.Flattener.BraceSkipTo | parse.c:799-821 | excess initializers are dropped up to the closing brace |
| Specifiers.ParseSpecifiers | parse.c:987-1206 | the loop over the specifiers gives the type and storage class of the state it ends in, or an error |
| Specifiers.AcceptsExactly | parse.c:987-1206 | a list is accepted if and only if its words are consistent whatever their order and, for two longs with void, char or float, the longs come first |
| Specifiers.OrderDoesNotMatter | parse.c:987-1206 | two permutations of a list without that combination mean the same or are both refused |
| Specifiers.OrderMatters | parse.c:987-1206 | long long char is a char and char long long is refused |
| Specifiers.IsoAccepted | parse.c:987-1206 | the lists of section 6.7.2 of ISO/IEC 9899:1999 are accepted with the type it gives |
| Gotos.LabelTable.Backfill | parse.c:1371-1384 | succeeds if and only if every goto names a label, and then two gotos have the same assembly label if and only if they name the same one, all different from those handed out before |
| Gotos.LabelTable.AddLabel | parse.c:1386-1396 | a second label of the same name is refused |
| Gotos.LabelTable.AddGoto | parse.c:1359-1369 | records the goto without a destination |
| Gotos.LabelTable.FreshLabel | ast.c:403-408 | the counter never gives the same label twice |
| Lists.List.Push | util.c:127-137 | appends at the tail |
| Lists.List.Pop | util.c:139-150 | takes the last element, or nothing from an empty list |
| Lists.List.Shift | util.c:152-163 | takes the first element |
| Lists.List.Shiftify | util.c:191-200 | puts an element first |
| Lists.List.Reverse | util.c:202-207 | a new list in the opposite order, the old one untouched |
| Lists.ReversedAt | util.c:202-207 | element k of the reversed list is element k from the end |
| Lists.ReversedTwice | util.c:202-207 | reversing twice gives the list back |
| TokenSource.Lexer.Next | lexer.c:327-331 | pushed-back tokens come first, the last pushed first, then the input |
| TokenSource.Lexer.Unget | lexer.c:321-325 | the token comes next again; a missing one is ignored |
| TokenSource.Lexer.Peek | lexer.c:333-337 | looks without consuming |
| TokenSource.Lexer.FunctionDefinitionCheck | parse.c:1512-1552 | however far it looks ahead, the tokens still to come are unchanged when it returns |
| TokenSource.LookaheadMeans | parse.c:1512-1552 | it says function definition if and only if the first token that settles the matter outside parentheses is a brace after a closing parenthesis, and declaration if and only if it is a semicolon, comma or equals sign |
| Strings.StringBuffer.Cat | util.c:79-84 | appends a character, growing when full |
| Strings.StringBuffer.CatText | util.c:47-64 | appends formatted text however often the buffer has to double |
| Strings.StringBuffer.Reallocate | util.c:38-45 | what was before the terminator survives |
| Strings.SeenExactly | util.c:38-84 | C sees of the buffer what it would see of everything appended, all of it if there was no NUL |
| Literals.QuoteString | util.c:86-98 | the loop over the characters appends the quoted string |
| Literals.QuoteUnquote | lexer.c:136-186 | reading a quoted string up to a closing quote gives it back, and the rest of the input |
| Literals.Reader.ReadString | lexer.c:172-186 | reads a string literal, newlines and escapes, or fails at the end of input |
| Literals.Reader.ReadEscaped | lexer.c:136-160 | each escape sequence |
| Literals.Reader.ReadHexadecimal | lexer.c:115-134 | all hexadecimal digits, and an error without any |
| Literals.Reader.ReadOctal | lexer.c:97-113 | up to three octal digits |
| Literals.HexExactly | lexer.c:115-134 | the byte read is the one the digits spell if and only if neither of the last two digits is an upper-case letter |

## Left out

- Literals.HexExactly: the low byte only; the code keeps the whole number and stores a character.
- Emission.Generator.GenUnit: the part about nesting requires of every function that the label slots agree with it, which SaveSlots.RawIsLexical decides; GenFunction does not.
- Guards.GuardedRuns: the guard is sufficient; each of its parts has an exact condition of its own in Dialects.
- ExpressionParser.Parser.ParseOperand: casts, sizeof and compound literals, which the source parses, are failures here.
- Declarators.DeclaratorParser.Restage: array lengths other than a literal, which the source evaluates, are failures here.
- Declarators.DeclaratorParser.ParseParam: struct, union and enum specifiers, which the source parses, are failures here.
- NestedInitializers.NestedExactly: empty braces and types without a member or an element, neither of which C99 has, are outside, and so are excess initializers other than in a list without inner braces.
- Array designators, which the parser does not have.
- Floating arithmetic, conversions between floating and integer values, and floating literals: words to the machine of StackRuns, absent from the simulation.
- Objects narrower than eight bytes in the simulation: loads zero-extend while comparisons and divisions work on 64 bits, so negative values do not survive.
- Stores of the program into the generator's temporaries: StackRuns has a stack apart from memory. That the two do not meet is proved for the integer fragment (Relation, ExprSim).
- StackCode drops register widths and the names of global labels from instructions that touch neither the stack, the program counter nor an argument register.
- Alignment of the stack to 16 bytes at calls, which the count of gen_stack gets wrong after the prologue.
- Calls between the functions of a unit: a callee is a function from arguments and reachable objects to a result; FunctionCorrect gives a generated function that shape, but the two are not tied into one recursive theorem.
- goto in the simulation theorems; StackCode has it.
- More than six integer arguments or parameters: a failure of the generator.
- Loops in Semantics.Exec have fuel (MoreFuel); what the code does where a run is stuck (Endings.EverStuck), which C99 leaves undefined, is not stated.
- Global variables in the simulation, global data, string constants, the output's columns and comments.
- A missing argument, as in f(,), which makes a call on a null tree there, is a failure here; type checks, ast_result_type, and the exchange of operands in ast_new_binary.
- The duplicated left operand of a compound assignment is not built; its evaluation twice shows in the prefix and postfix operators.
- parse_evaluate on equality, the other comparisons, logical operators and shifts: the folder tests for token codes its tree never holds.
- A bracket after a parameter's own parameter list is a failure here, and a typedef name is a leaf type.
- Unions, arrays without a length and strings in braces in initializers; the order of bytes of stored numbers other than least significant first.
- The order of members in the chained table of an anonymous structure, and a member declared twice.
- Number literals, comments, identifiers and preprocessing in the lexer; undeclared identifiers.
- Reading past the end of the input, which dereferences a null pointer in several places, is a failure here.
- The chained table, the bump allocator, ast_string, input and output.
