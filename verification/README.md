# Repomap's analyses and canonical forms

A model of the parts of repomap that its factual claims rest on, with proofs of what each of
them claims. One group of modules stands for one part of the repository:

| part | modules |
|---|---|
| C syntax tree and its runs | `Ast`, `Execution` |
| values of C locals | `LocalsIndex`, `LocalsRules`, `LocalsFollow`, `LocalsSound`, `LocalsText`, `LocalsOrder`, `LocalsValues`, `LocalsLimits` |
| functions and statements that never return | `Guards`, `GuardsBuilder`, `NeverReturns`, `NeverReturnsText`, `NeverReturnsFound`, `NeverReturnsRounds`, `NeverReturnsLimits` |
| targets of calls through function pointers | `PointsTo`, `PointsToBuilder`, `PointsToText`, `PointsToRuns`, `PointsToValues`, `PointsToExact`, `PointsToLimits`, `PointsToExample` |
| unreachable functions | `Reach`, `ReachText` |
| the linker's choice of units | `Closure`, `ClosureOrder`, `ClosureLinker` |
| the store that parses a unit once | `UnitStore`, `UnitStoreResults` |
| clang's dump: strings, values, elided places | `DecodeText`, `DecodeWritten`, `DecodeTree`, `DecodeJson`, `DecodeOnlyJson`, `DecodeDump`, `DecodeReader` |
| sealing a graph | `Ordering`, `Texts`, `Seal`, `SealOrder`, `SealBuilder`, `SealReferences`, `SealAgain` |
| spellings of one value | `Spellings`, `SpellingsExact`, `SpellingsWalk` |
| Clojure forms | `Characters`, `ClojureReader`, `ClojureWritten` |
| zones of a target | `ZoneTree` |
| the dependency catalog | `Canon`, `Catalog`, `CatalogFacts`, `CatalogParts`, `CatalogSubset`, `CatalogBuilder`, `CatalogRows`, `CatalogPlaces`, `CatalogCheck`, `CatalogShapes`, `CatalogBuild`, `CatalogOperations` |

`dafny verify dfyconfig.toml` checks the whole project.

## What the claims are about

**Runs of C.** `Execution` says what a run of a body can do as far as control goes (sections 6.5
and 6.8 of ISO/IEC 9899:2011). Conditions are not evaluated: every branch a condition could
choose is a run, so a claim about all runs covers the real ones. Operands whose order the
language leaves open may run in any order, one after the other. A run may be cut at any moment.

**Locals.** `ReachingWrites` needs a body without switch and goto, no unsequenced conflict over
the local (section 6.5, paragraph 2), and a read that `Trusted` admits: a declaration is read in
its scope; no write around the read reaches it again around a loop; the dominating write is in
no other write of the local; a break or continue does not leave a do statement before it; and a
for statement's increment does not read past a body that writes the local. `Trusted` is enough, and
does not ask which code runs reach; the exact condition is `Told`, a test on the syntax tree:
`CoversExactly` proves, of every function, that the answer covers all runs if and only if it holds.
For each of the last four conditions of `Trusted`, `LocalsLimits` gives a shape of code the source
follows and a run that leaves a write the certain answer does not list; `CountingInput` is an input.
`AnswerValues` says which expression each listed write stores, and `LocalsOrder` that the tests of
evaluation order are no weaker than they should be: each is compared with the ways control can take
through a node. What `BeforeExactly` calls overlooked is all they miss; of a switch only the condition is
looked at.

**Never returns.** The source looks for returns and gotos in a `do { } while (0)`, not for a break or
continue that leaves it. `BreakingReturns` gives a function that is found never to return and
returns; `FoundLeftEarly` and `StatementLeftEarly` say that nothing else can go wrong, and
`FoundNeverReturn` and `FoundNotLeft` are what holds where it cannot happen. `FoundRightExactly` and
`LeftExactly` give the exact condition, for all programs, as a test on the text. Functions have one
body that no break or continue leaves, as C asks. A goto counts as leaving the function, as it does
in the source. That enough is found is said of the statements the source looks into: `StuckFound`
and `EndsExactly` compare what is found with the exact test on the text, `StableExactly` does so of
the set the rounds leave.

**Function pointers.** A program stores, passes, loads, copies and calls; the platform may call
any function it got and keeps the addresses it got. `Followable` is what a slot needs, and is
about the text alone: an array is only subscripted, dereferenced, handed to a call or has its
address taken; no table's initializer takes the slot's address; entries of initializer lists for
it are null, lists, or names of functions in a list that is read and, for elements, the table's
own; it is no parameter of a function that is one of several definitions of a name; and no
parameter that is stored in it is written or has its address taken. The property fails where
these do not hold. For each shape they exclude `PointsToLimits` proves, of every program that has
the shape, a run that puts the function into the slot, and that the answer is certain and wrong
exactly when nothing else in the text tells of the function; `PointsToExample` is one program in
which nine of them go wrong. The other way round, `UncertainExactly` says for which slots the index
gives up, and `ElseExactly` that it does so for a value that in some state is something it does not
name. It also does so for a value that is always null but not written as a null, as `h = NULL` is in
`g = h = NULL`: `HiddenNullGivesUp` and `ChainedNull`.

**Linker closure.** The comment at internal/cproject/closure.go:151-153 says that an unresolved
name is one no other unit of the pool defines. The code leaves a name unresolved also where two
or more units define it tentatively; `UnresolvedDefined` says that this is the only case, and
`TwoTentative` is an instance. The model follows the code. It notes the names of a unit in any
order, which covers the sorted order of the source. Which units are taken, and in which order, is
said without a queue: a rescan that starts from main and looks for the first open use every time
(`ClosureOrder`).

**Store.** Callers, their cancellations and any number of sweeps interleave step by step at the
mutex, the done channel, the semaphore and the parse. A waiter can get the cancellation of the
caller that owns the parse; `WaiterReturns` says so. But for those cancelled themselves, all who
asked for one parse are told the same (`AllToldTheSame`).

**Decoder.** `DecodeText` works on bytes and on a reader that gives one byte or more unless it is
at its end; `DecodeTree` on tokens. `DecodeJson` says what JSON values mean as locations, ranges, types
and nodes, on the values as trees (RFC 8259); `NodeExactly` says that a node is read exactly where
such a value stands, and `DecodeWritten` does the same for strings. The flag `misread` marks objects that begin with an offset
where no location is expected, which clang does not print; `RangeMisread`, `PlainMisread` and `NodeMisread` show of each reader
that sets it that reading and skipping then part over the line.

**Sealing.** `Sealable` asks for distinct construction ids, none of which is another place's source
key; `RenamingInjective` says that the second is needed. A reference that names no place is left as
it is, and so may be taken for a place that gets that very id: `DanglingStays` and `KeptApart` give
the exact condition, `DanglingCaptured` an input. Ids are compared as text when places are numbered,
so that a tie over a carry makes every further seal change ids; `SettledOrNever` says so. New ids
follow the source (`NumbersFollowSource`).

**Clojure.** `ClojureWritten` prints forms as they may be written and reads them back. Printing puts a
separator behind a token that another form follows; what is not closed or not complete is covered by
the laws of `ClojureReader`, which hold of every text.

**Catalog.** A digest stands as the text it is taken of, so that identities differ where the
texts do; `EncodedOnce` proves that the texts differ where the fields do. A catalog that passes
`Validate` may still hold two rows of one identity with different names, which building refuses;
`SubsetAccepts` says that nothing else can make `Subset` fail, and its other laws are about
catalogs with one row for each identity, as building gives them.

## Model

| member | source | states |
|---|---|---|
| `LocalsSound.ReachingWrites` | internal/cproject/locals.go:116-175 | In every run of a structured function body the last write a read of a local finds is a write the rules collect at that read; a run that wrote nothing yet only where nothing dominates. Holds for every read `Trusted` admits, over runs that choose every branch. |
| `LocalsFollow.AnswerCoversRuns` | internal/cproject/locals.go:116-175 | The answer's listed writes cover what any run leaves in the local at the read, and the unknown value is in the answer where a run may have written nothing. |
| `LocalsFollow.FollowLocal` | internal/cproject/locals.go:116-175 | Following a read succeeds exactly for a read that can be followed; the answer is then exactly the collected writes with the values they store, in source order, with the unknown value exactly when no write dominates. |
| `LocalsValues.AnswerValues` | internal/cproject/locals.go:57-84 | Every listed write says what it stores: of an assignment the operand that does not say where to write, of a declaration the last child that is neither missing nor an attribute, each of which any run completing the write has evaluated; nothing exactly where the old value goes into the new one. |
| `LocalsValues.FollowedExactly` | internal/cproject/locals.go:57-133 | A read is followed exactly when the function declares the local, neither static nor an array, its address is nowhere taken, some node writes it, and it is not followed already. |
| `LocalsValues.WritesExactly` | internal/cproject/locals.go:62-84 | A write of a local declares it with a value, or has the local itself on its left: an assignment, a compound one, an increment or decrement; nothing else is one. |
| `LocalsValues.UnwrapExactly` | internal/cproject/locals.go:106-112 | An expression names what stands under all its casts, parentheses and constant wrappers, but for casts between pointers and integers. |
| `LocalsOrder.AlwaysExactly` | internal/cproject/locals.go:266-287 | A child is found always evaluated exactly when every way control can take to the end of its node runs it, whatever the children do. |
| `LocalsOrder.BeforeExactly` | internal/cproject/locals.go:293-320 | Of two children one is found evaluated before the other exactly when on every way through the node it has run when the other begins; overlooked are declarators, labels, and the body of a for loop before its increment. |
| `LocalsOrder.RepeatedExactly` | internal/cproject/locals.go:235-250 | A child is in the part a loop repeats exactly when some way through its node runs it twice. |
| `LocalsOrder.DominatesExactly` | internal/cproject/locals.go:181-204 | A write dominates a read exactly when it is the declaration, or no label or case stands between the two, control comes to the write's side before the read's where their ways part, and from there always down to the write. |
| `LocalsOrder.ChosenExactly` | internal/cproject/locals.go:138-144 | The chosen write is the last of the writes before the read that so dominate it, and one is chosen wherever there is one. |
| `LocalsOrder.BackEdgeExactly` | internal/cproject/locals.go:209-231 | A write behind a read is carried back exactly when some node around both can run the two again, and not the dominating write. |
| `LocalsOrder.ListedExactly` | internal/cproject/locals.go:138-158 | The answer lists the dominating write, the writes between it and the read, and those behind the read that are so carried back; none of these is left out and no other write, nor one around the read, is listed. |
| `LocalsFollow.Dominating` | internal/cproject/locals.go:138-144 | The chosen write is a dominating one, and no dominating write comes after it before the read; none is chosen only if there is none. |
| `LocalsFollow.Reached` | internal/cproject/locals.go:145-158 | A write is taken exactly if it is the dominating one, stands between it and the read, or is carried around a loop. |
| `LocalsFollow.Dominates` | internal/cproject/locals.go:181-204 | Climbing the parent map decides the dominance test stated on paths, jump labels included. |
| `LocalsFollow.BackEdge` | internal/cproject/locals.go:209-231 | Climbing from the read finds a loop that repeats read and write but not the dominating write exactly if there is one. |
| `LocalsFollow.InsideLoop` | internal/cproject/locals.go:235-250 | A node is in the part a loop repeats exactly if its way from the loop starts with a repeated child. |
| `LocalsFollow.ChildHolding` | internal/cproject/locals.go:253-260 | The child found is the one on the way to the read. |
| `LocalsFollow.Holders` | internal/cproject/locals.go:134-137 | The nodes found around a read are exactly its ancestors and itself. |
| `LocalsFollow.FollowedWrites` | internal/cproject/locals.go:116-133 | What decides that a read is followed, and the local's writes in source order. |
| `LocalsIndex.FunctionLocals.Visit` | internal/cproject/locals.go:57-101 | The walk appends exactly the nodes of the subtree in preorder, outside nested declarations, and the maps stay the ones those nodes give. |
| `LocalsFollow.LocalsIndexOf` | internal/cproject/locals.go:45-102 | Indexing a function gives the complete index of its body. |
| `LocalsIndex.FunctionLocals.Gather` | internal/cproject/locals.go:70-96 | What one node adds to the declared locals, their writes and the values these store, the taken addresses and the labels. |
| `LocalsFollow.OrderFacts` | internal/cproject/locals.go:45-102 | The finished index numbers exactly the indexed nodes, in preorder, each with its parent. |
| `LocalsFollow.LabelFacts` | internal/cproject/locals.go:181-188 | Comparing label numbers decides whether a jump target stands between a write and a read. |
| `LocalsText.CoversExactly` | internal/cproject/locals.go:116-175 | The answer for a read covers whatever any run leaves in the local there exactly if the text lets the read find nothing but what the rules collect. Nothing is asked of the function; runs do not go into switches or on after jumps. |
| `LocalsText.FoundExactly` | internal/cproject/locals.go:116-175 | A write can be the last before a read, in some run, exactly if a test on the syntax tree says so: once around each loop is enough. |
| `LocalsText.TrustedTold` | internal/cproject/locals.go:116-175 | Where `Trusted` admits a read of a structured function, the text lets it find nothing but what the rules collect. |
| `LocalsLimits.LoopCarriedWrite` | internal/cproject/locals.go:149 | Where a local declared with a value is incremented in a while loop of its block, a run has the increment read the one before it. The source follows the read, and its answer is certain, as the declaration dominates, and leaves that write out, as the read stands inside it. For any condition that does not write the local and any other statements of the block, if those before can complete. |
| `LocalsLimits.CountingInput` | internal/cproject/locals.go:149 | `int x = 0; while (1) x++;` is such a function. |
| `LocalsLimits.NestedWriteLost` | internal/cproject/locals.go:138-158 | At a use of a declared local right after `x = (x = .., ..);` the inner write is chosen, and the certain answer leaves out the outer one, which a run leaves. For any values and surroundings of that kind. |
| `LocalsLimits.BodyWriteLost` | internal/cproject/locals.go:318 | In `for (; x = ..; x) x = ..;` the increment reads the body's write, which the certain answer leaves out: the condition is taken to run right before the increment. |
| `LocalsLimits.SkippedWriteChosen` | internal/cproject/locals.go:284 | At a use right after `x = ..; do { if (..) break; x = ..; } while (..);` the write in the loop is chosen, and the certain answer leaves out the first one, which a run that skips the other leaves. |
| `NeverReturns.FoundNeverReturn` | internal/cproject/guards.go:33-63 | Under a semantics that follows calls, no run of the body of a function the iteration leaves ever ends, for all mutually recursive programs, any order of the functions and however the rounds stop. |
| `NeverReturns.FoundNotLeft` | internal/cproject/guards.go:86-113 | A statement found ending under the set the iteration leaves is never completed normally, where no break or continue leaves a `do { } while (0)`; nor is it left by a return or goto, but for one inside an expression. |
| `NeverReturns.EndsNotLeft` | internal/cproject/guards.go:86-113 | The same for any supported set. |
| `NeverReturns.BodyNeverLeft` | internal/cproject/guards.go:86-159 | For any supported set: a run of a member's body is never left. |
| `NeverReturns.EndsLeft` | internal/cproject/guards.go:86-113 | For any set whose members' bodies end under it, without that condition: a run that completes a statement found ending has left, in it or in a function of the set it calls, the body of a `do { } while (0)` found ending by a break or continue. |
| `NeverReturns.FoundLeftEarly` | internal/cproject/guards.go:33-63 | The same of every function the iteration leaves: a run of its body that is left has done so, with found ending meant under the greatest set. |
| `NeverReturns.StableLeftEarly` | internal/cproject/guards.go:49-62 | Where the rounds stop because nothing changes, found ending means under the set they leave. |
| `NeverReturns.StatementLeftEarly` | internal/cproject/guards.go:86-113 | The same of every statement found ending under the set the iteration leaves. |
| `NeverReturnsFound.StuckFound` | internal/cproject/guards.go:86-159 | Completeness: a statement of blocks, ifs, `do { } while (0)` and calls, so far as it can be reached, that by the text cannot be completed where the functions of the set never return, and that holds no return or goto in the statements of its blocks that can be reached nor in a `do { } while (0)`, is found ending. |
| `NeverReturnsFound.EndsExactly` | internal/cproject/guards.go:86-159 | Of statements so built, where no break or continue leaves a `do { } while (0)`, exactly those are found ending. |
| `NeverReturnsFound.StableExactly` | internal/cproject/guards.go:33-63 | A set no step of a round changes holds exactly the functions with such bodies that cannot be left where its members never return; only one declared noreturn may be missing. |
| `NeverReturnsFound.BodyEndsExactly` | internal/cproject/guards.go:86-159 | A function's body ends exactly when it can be left neither to its end nor by a return or goto. |
| `NeverReturnsFound.EndsLonger` | internal/cproject/guards.go:91-99 | A block found ending is found ending with any statements behind it, returns and gotos among them. |
| `NeverReturnsFound.OnlyFound` | internal/cproject/guards.go:86-113 | No loop is found ending but a do around a literal 0, no if without an else, no switch, and no block but one with a statement found ending. |
| `NeverReturnsFound.MayLeaveExactly` | internal/cproject/guards.go:118-137 | A return or goto somewhere in it, and nothing else, makes a statement one that may leave. |
| `NeverReturnsRounds.DeclaredExactly` | internal/cproject/guards.go:20-48 | The rounds start with exactly the functions declared noreturn, by their type or by C11's _Noreturn. |
| `NeverReturnsRounds.LeftTold` | internal/cproject/guards.go:49-62 | Everything the rounds leave can be told to end in finitely many steps from the declared functions. |
| `NeverReturnsRounds.OwnCallsNotFound` | internal/cproject/guards.go:49-62 | Functions each of which would end only in calls of one another, none declared noreturn, are never found. |
| `NeverReturnsRounds.DeclaredStaysOut` | internal/cproject/guards.go:49-62 | A function declared noreturn that a round found to return stays out in all later rounds. |
| `NeverReturnsText.LeftExactly` | internal/cproject/guards.go:86-113 | Some run, calls followed, leaves a statement normally, by break, continue, return or goto exactly if a test on the text says so, in all mutually recursive programs. |
| `NeverReturnsText.ReturnsExactly` | internal/cproject/guards.go:33-63 | Some run of a function returns exactly if the function is in the set that grows, in as many steps as there are functions, from those whose bodies the test says can be left if no call returns. |
| `NeverReturnsLimits.FoundRightExactly` | internal/cproject/guards.go:33-63 | What the iteration leaves is right of all its functions exactly if it has none in common with that set. |
| `NeverReturnsLimits.ClosedRight` | internal/cproject/guards.go:33-63 | It has none in common where no break or continue leaves a `do { } while (0)`. |
| `NeverReturnsLimits.DoOnceLeftExactly` | internal/cproject/guards.go:103-107 | Where a `do { } while (0)` is found ending it can be left normally exactly if by its text a break or continue can leave its body, which is so exactly if a run leaves it that way. |
| `NeverReturnsLimits.FoundReturnsExactly` | internal/cproject/guards.go:33-63 | A function the iteration leaves whose body is one such statement returns exactly if by the text a break or continue can leave the statement's own body, recursion included. |
| `NeverReturnsLimits.BreakingReturns` | internal/cproject/guards.go:103-109 | For a function of one `do { if (c) break; abort(); } while (0);` the rounds leave it in the set, and a run of it returns. |
| `Guards.LeftInsideGreatest` | internal/cproject/guards.go:49-62 | What the in-place rounds leave, stopped by no change or by the bound, lies inside the greatest set whose members' bodies end under it. |
| `Guards.RoundsInside` | internal/cproject/guards.go:49-62 | After k rounds, in whatever order of the functions, the set lies inside the k-th approximation of the greatest one. |
| `Guards.GreatestIsGreatest` | internal/cproject/guards.go:49-62 | As many steps as there are functions reach a fixpoint that holds every set supporting itself. |
| `Guards.EndsMonotone` | internal/cproject/guards.go:86-159 | With more functions known not to return no statement stops being found ending. |
| `GuardsBuilder.Builder.FindEnding` | internal/cproject/guards.go:33-63 | The in-place loop leaves the set of its rounds: one that no step of a round changes, or one reached past the bound. |
| `GuardsBuilder.Builder.EndsNow` | internal/cproject/guards.go:86-113 | The recursive test under the current set, with the memo of ways out kept right, answers what `Ends` says, which `EndsExactly` and `OnlyFound` describe. |
| `GuardsBuilder.Builder.MayLeave` | internal/cproject/guards.go:118-137 | The memoised test finds exactly the nodes that hold a return or a goto. |
| `GuardsBuilder.Builder.ArmEnds` | internal/cproject/guards.go:198-207 | The memo over arms answers what the test answers under the finished set. |
| `PointsToRuns.SlotHoldsCandidates` | internal/cproject/resolve.go:1665-1726 | In every state any run reaches, a slot that `Followable` admits by the text of the program and that is not reported uncertain holds a candidate of it, or nothing that leads to a function. |
| `PointsToRuns.CallRunsCandidate` | internal/cproject/resolve.go:1382-1456 | A call through such a slot can run only one of the slot's candidates. |
| `PointsToText.FoundTold` | internal/cproject/resolve.go:489-682 | The walks record exactly what the text tells: each construct of a body, each entry of an initializer list under no other list and of the lists nested in it, each plain initializer of a table; nothing else and nothing less. |
| `PointsToExact.UncertainExactly` | internal/cproject/resolve.go:1665-1726 | A slot is uncertain exactly when the text gives it up: it is exposed or overwritten as a whole, a value that is no null, no known function, no parameter of the function itself and not read from the slot is put into it, or it is or holds a parameter whose function escapes or is passed such a value. |
| `PointsToExact.CandidatesExactly` | internal/cproject/resolve.go:1665-1726 | A slot's candidates are exactly the functions the text names for it: put into it, or passed to the parameter it is or holds. |
| `PointsToExact.StoreExactly` | internal/cproject/resolve.go:1069-1099 | What putting a value into a slot tells, by what the value is; a written null, and a value read from the same slot, tell nothing. |
| `PointsToExact.StoresExactly` | internal/cproject/resolve.go:1069-1242 | What is found stored in a slot is what some assignment, declaration or list entry of the text puts there. |
| `PointsToExact.PassesExactly` | internal/cproject/resolve.go:1382-1472 | What is found passed to a parameter is what some call of its function by name passes there; a written null is not. |
| `PointsToExact.EscapesExactly` | internal/cproject/resolve.go:1569-1626 | A function escapes exactly when some code uses its name as a value elsewhere than as a callee, an argument or a stored value. |
| `PointsToExact.ElseExactly` | internal/cproject/resolve.go:1069-1099 | Over runs: a value is given up exactly when in some state it is something it does not name, or when it is null in every state but neither written as a null nor as a name. |
| `PointsToExact.NullsAddNothing` | internal/cproject/resolve.go:1069-1099 | Code that stores and passes nothing but written nulls changes no slot's candidates and no slot's certainty. |
| `PointsToExact.HiddenNullGivesUp` | internal/cproject/resolve.go:1069-1099 | Any value that is null in every state but not written as one gives the slot up, though no run puts anything there. |
| `PointsToExact.ChainedNull` | internal/cproject/resolve.go:1069-1140 | In `g = h = NULL` g is given up and h stays certain. |
| `PointsToValues.NowhereExactly` | internal/cproject/resolve.go:1069-1099 | The expressions that are null in every state are exactly those a test on the text finds. |
| `PointsToValues.NullExactly` | internal/cproject/resolve.go:1069-1072 | A null is a zero, converted any number of times. |
| `PointsToValues.DesignatorExactly` | internal/cproject/resolve.go:889-926 | A value designates a function when it is its name, cast, dereferenced or taken the address of. |
| `PointsToBuilder.CandidatesOf` | internal/cproject/resolve.go:1665-1726 | The walk, the search for escapes and the join compute for every slot the functions that can be in it and whether it is uncertain; `CandidatesExactly` and `UncertainExactly` say of the text which these are. |
| `PointsToBuilder.Builder.Candidates` | internal/cproject/resolve.go:1665-1726 | The loop over the recorded stores gives exactly the functions that are stored, or joined from a stored or own parameter, and uncertainty exactly where the rules say so. |
| `PointsToBuilder.Builder.Join` | internal/cproject/resolve.go:1675-1698 | Joining what the direct callers pass to a parameter adds exactly the functions they pass, and is uncertain where the function escapes or a caller passes what has no name. |
| `PointsToBuilder.Builder.FindEscapes` | internal/cproject/resolve.go:1569-1626 | The functions found to escape are exactly those a construct of the program uses as a value. |
| `PointsToBuilder.Builder.Walk` | internal/cproject/resolve.go:489-682 | The walk records every construct of an expression once, in order. |
| `PointsToBuilder.Builder.Store` | internal/cproject/resolve.go:1069-1099 | What storing a value records: a function, a parameter, another slot, an unknown value, or, for a null, nothing (`StoreExactly`). |
| `PointsToBuilder.Builder.EscapeSlot` | internal/cproject/resolve.go:1106-1119 | Letting the address of a slot go records the unknown value in it. |
| `PointsToBuilder.Builder.AssignTo` | internal/cproject/resolve.go:1122-1140 | What an assignment records. |
| `PointsToBuilder.Builder.Initialize` | internal/cproject/resolve.go:1144-1158 | What a declaration's initializer records. |
| `PointsToBuilder.Builder.InitList` | internal/cproject/resolve.go:1164-1242 | What an initializer list, and the lists in it, record for the members and elements. |
| `PointsToBuilder.Builder.RecordCall` | internal/cproject/resolve.go:1382-1472 | What a call records: arrays handed over, and the arguments of a callee it names. |
| `PointsToLimits.MissedUnsaid` | internal/cproject/resolve.go:1665-1726 | The answer for a slot is certain and lacks a function exactly when no construct of the text tells of it, by a store, an escape or a call. |
| `PointsToLimits.EntryLost` | internal/cproject/resolve.go:1164-1212 | In every program with a list entry that is no bare name, or stands in a list that is not read, or is an element of an array other than a table's own, a run puts the entry's function into the slot; the answer is wrong exactly when nothing else tells. |
| `PointsToLimits.EntryKept` | internal/cproject/resolve.go:1164-1225 | The function any other entry names is a candidate of its slot. |
| `PointsToLimits.CopiedEntryLost` | internal/cproject/resolve.go:1208-1211 | The same for an entry that reads another slot the function was put into. |
| `PointsToLimits.ParameterEntryLost` | internal/cproject/resolve.go:1208-1211 | The same for an entry that is a parameter, whatever a call passes for it. |
| `PointsToLimits.AlternativeLost` | internal/cproject/resolve.go:1382-1456 | A call by a name with alternative definitions passes its function to a parameter of each, and nothing is recorded: the parameter's answer is wrong exactly when nothing else tells. |
| `PointsToLimits.AlternativeStoredLost` | internal/cproject/resolve.go:1675-1714 | The same for a slot the parameter is stored in. |
| `PointsToLimits.OverwrittenLost` | internal/cproject/resolve.go:1122-1131 | A parameter overwritten in its own function and then stored puts the function written into the slot, while the answer joins what callers pass. |
| `PointsToLimits.LentParameterLost` | internal/cproject/resolve.go:1106-1119 | The same for a parameter written through its address. |
| `PointsToLimits.AliasLost` | internal/cproject/resolve.go:1069-1099 | An array that decays in an assignment, initializer, list entry or conditional, or an address in a table's initializer, lets a write through the pointer reach the slot; the answer is wrong exactly when nothing else tells. |
| `PointsToLimits.HandedLost` | internal/cproject/resolve.go:1446-1453 | The same for an argument that is not itself the array, such as a conditional of arrays. |
| `PointsToLimits.ReturnedLost` | internal/cproject/resolve.go:489-682 | The same for an array a function returns, written through a call of that function. |
| `PointsToLimits.ElementLost` | internal/cproject/resolve.go:1031-1036 | Writing an element of an array that is a member reaches the member's slot and is recorded for none. |
| `PointsToExample.WrongAnswers` | internal/cproject/resolve.go:1665-1726 | One program with nine such slots: each is found to hold one function, certainly, and a run puts another into it. |
| `Reach.Marker.MarkUnreachable` | internal/cproject/reach.go:36-158 | With a main, and nothing unreadable, a function is marked unreachable exactly if no run executes it; otherwise nothing is marked. |
| `Reach.ReachedExactly` | internal/cproject/reach.go:36-158 | The least set closed over the gathered edges and roots holds exactly the functions some run puts on its stack: what code names or memory holds may be called, and from outside any external function. |
| `ReachText.ExecutesExactly` | internal/cproject/reach.go:36-158 | Some run executes a function exactly when a chain of names, beginning at the roots or, from outside, at an external function, leads to it. |
| `ReachText.NamedByExactly` | internal/cproject/reach.go:48-94 | A function names exactly what some node of one of its definitions tells: a reference, or a word of readable text. |
| `ReachText.RootsExactly` | internal/cproject/reach.go:95-139 | Running starts exactly at what a node outside every body names and at the functions whose declarations start them. |
| `ReachText.AnyLoadsExactly` | internal/cproject/reach.go:48-94 | Loading code is noted exactly where some node looked at loads code. |
| `ReachText.AnyOpaqueExactly` | internal/cproject/reach.go:48-94 | Unreadable text is noted exactly where some node looked at holds such text. |
| `ReachText.ExternalsExactly` | internal/cproject/reach.go:95-139 | External functions are exactly the declared functions with external linkage. |
| `Reach.StaysInside` | internal/cproject/reach.go:140-152 | No run leaves a closed set: whatever is on the stack or in memory stays in it. |
| `Reach.ReachedRuns` | internal/cproject/reach.go:140-152 | Everything in the least closed set some run executes. |
| `Reach.Reached` | internal/cproject/reach.go:143-152 | The worklist, which pushes a function once for every edge naming it, ends with exactly the least closed set. |
| `Reach.Marker.Visit` | internal/cproject/reach.go:48-94 | Walking code gathers exactly the functions it names, and notes text that cannot be read or code that is loaded. |
| `ClosureLinker.LinkClosure` | internal/cproject/closure.go:166-324 | The selection ends. On success it has taken the units of the rescan's end, in that order and so far linked, and they are a closure: every name a taken unit uses is defined by one or could be by no pool unit, every unit but main was needed by an earlier one, linked units come first and do not clash, and exactly the places that differ are listed, for names several taken units define for good. On failure units on the way of the rescan, all linked, define one name for good at different places. |
| `ClosureOrder.EndsOnce` | internal/cproject/closure.go:251-311 | The rescan, which has no queue, ends in one way: main first, then again and again what answers the first open use the build decides, and only where there is none the units any of which could be meant. |
| `ClosureOrder.EndsGrown` | internal/cproject/closure.go:251-311 | Whatever comes on the way of the rescan is a prefix of its end. |
| `ClosureOrder.FailsRightly` | internal/cproject/closure.go:193-229 | Where linking fails, the units the rescan ends with hold a clash of linked units, so that no closure could be given. |
| `ClosureOrder.ChoiceExactly` | internal/cproject/closure.go:233-272 | The choice for a name is one unit exactly when the build says which is meant. |
| `ClosureOrder.NoChoiceExactly` | internal/cproject/closure.go:233-281 | It is none exactly when no pool unit could be meant. |
| `ClosureOrder.DefinersExactly` | internal/cproject/closure.go:233-248 | Those that could be meant are the units that define the name for good, or, where none does, the only one that defines it tentatively; each once. |
| `ClosureOrder.FirmInOrder` | internal/cproject/closure.go:233-248 | They come in the order of the pool. |
| `Closure.Compared` | internal/cproject/closure.go:193-229 | Remembering one definition for each name is enough: two definitions at different places never are in two linked units, and both places are listed. |
| `Closure.UnresolvedDefined` | internal/cproject/closure.go:273-281 | A pool unit does define an unresolved name exactly when several do, all tentatively. |
| `Closure.TwoTentative` | internal/cproject/closure.go:151-153 | Where two units both define tentatively what main uses, main alone is a closure and every closure is main alone with that name, and nothing else, unresolved. |
| `ClosureLinker.Linker.Take` | internal/cproject/closure.go:193-229 | Taking a unit keeps what is remembered of names, the order of the phases and the reason for every unit. |
| `ClosureLinker.Linker.NoteAll` | internal/cproject/closure.go:193-229 | Noting a unit's definitions fails only for a real clash between linked units. |
| `ClosureLinker.Linker.DefinersOf` | internal/cproject/closure.go:233-248 | The candidates for a name: the firm definers not yet taken, or the only tentative one. |
| `ClosureLinker.Linker.Drain` | internal/cproject/closure.go:251-290 | Answering the queue leaves every use answered or put off. |
| `UnitStore.WellRun` | internal/cproject/native.go:324-397 | The invariant of the store holds in every state any interleaving of callers, cancellations and sweeps reaches. |
| `UnitStore.OneParsePerKey` | internal/cproject/native.go:351-377 | No key is parsed by two callers at once. |
| `UnitStore.AtMostFourParses` | internal/cproject/native.go:388-397 | No more than four parses run. |
| `UnitStore.InFlightIsHeld` | internal/cproject/native.go:351-377 | An entry in flight is the one the map holds for its key until its own owner takes it out. |
| `UnitStore.RemovedOnlyFinished` | internal/cproject/native.go:324-348 | A sweep removes only finished entries no program needs; nothing else leaves the map but an entry in flight whose own caller was cancelled. |
| `UnitStore.NoStoppedResultStays` | internal/cproject/native.go:363-376 | A finished entry in the map never holds a cancelled result. |
| `UnitStore.WaiterReturns` | internal/cproject/native.go:355-361 | A waiter returns the parse's result for its key or, cancelled itself, stops; a stopped result reaches it only if it or the owner was cancelled. |
| `UnitStore.NoDeadlock` | internal/cproject/native.go:324-397 | Short of the end some step other than a cancellation is possible. |
| `UnitStore.EveryoneReturns` | internal/cproject/native.go:324-397 | No run is longer than a bound fixed by its start, and where only cancellations are possible everyone has returned. |
| `UnitStoreResults.AllToldTheSame` | internal/cproject/native.go:351-386 | Everyone who asked for one parse returns the same result, owner and waiters, whenever they return, but those that were themselves cancelled and stop. |
| `UnitStoreResults.OwnerReturns` | internal/cproject/native.go:363-386 | The owner of an entry returns the entry's result, and with that the entry is finished. |
| `UnitStoreResults.ResultRecorded` | internal/cproject/native.go:363-386 | An entry's result is the one its owner's parse gave, or that it stopped before it parsed. |
| `UnitStoreResults.ResultStays` | internal/cproject/native.go:363-386 | Whatever happens later, it keeps that result. |
| `UnitStoreResults.UnitsStay` | internal/cproject/native.go:324-377 | An entry leaves the map other than by a sweep only if its parse gave no unit and its own caller was cancelled. |
| `UnitStoreResults.CheckDecides` | internal/cproject/native.go:366-376 | An owner takes its entry out exactly when it was cancelled and its parse gave no unit. |
| `UnitStoreResults.LookTakes` | internal/cproject/native.go:337-346 | A look of a sweep takes an entry out exactly when it is finished and not needed, and no other. |
| `UnitStoreResults.KeepReleases` | internal/cproject/native.go:324-348 | When a sweep ends, no entry that was finished when it began and that it does not need is left. |
| `UnitStoreResults.KeepSpares` | internal/cproject/native.go:324-348 | Every unit it needs that was there when it began is there, the same, when it ends. |
| `DecodeText.SkipStopsWhereReadDoes` | internal/cproject/decode.go:251-342 | Where reading a string succeeds, skipping it stops at the same byte exactly when no half of a surrogate pair stands right before a quote; otherwise it stops earlier. |
| `DecodeText.WellWrittenReads` | internal/cproject/decode.go:251-342 | A string as section 7 of RFC 8259 lets it be written is read, and skipped to the same byte. |
| `DecodeText.ReadsBack` | internal/cproject/decode.go:251-314 | A printed string is read back byte for byte. |
| `DecodeWritten.WrittenReads` | internal/cproject/decode.go:251-314 | A string made of pieces, plain bytes, escapes and encoded characters, is read to its closing quote as exactly what the pieces say, replacement characters for halves of pairs included. |
| `DecodeWritten.ReadWritten` | internal/cproject/decode.go:251-314 | Whatever is read is such a string, so that exactly these are read. |
| `DecodeWritten.SpacedReads` | internal/cproject/decode.go:184-314 | The same behind any white space and the opening quote. |
| `DecodeWritten.SpacedWritten` | internal/cproject/decode.go:184-314 | Whatever is read so stands behind white space and a quote. |
| `DecodeWritten.Utf8Exactly` | internal/cproject/decode.go:251-314 | A character is written as section 3 of RFC 3629 spells it. |
| `DecodeWritten.SpelledOnce` | internal/cproject/decode.go:251-314 | A character has one spelling. |
| `DecodeText.Decoder.ReadString` | internal/cproject/decode.go:251-314 | What is read, or that reading fails, and the input left depend on the bytes that come only, not on how they are cut into reads. |
| `DecodeText.Decoder.SkipString` | internal/cproject/decode.go:317-342 | Where skipping stops, or that it fails, depends on the bytes that come only, not on how they are cut into reads. |
| `DecodeText.Decoder.Fill` | internal/cproject/decode.go:162-181 | Compacting or growing the buffer changes nothing of the input left; more came, or the input is at its end. |
| `DecodeText.Decoder.Peek` | internal/cproject/decode.go:184-198 | White space is skipped and the next byte, if any, is buffered. |
| `DecodeTree.LocationFollows` | internal/cproject/decode.go:474-651 | Reading a location leaves the input and the elided file and line exactly where skipping it does. |
| `DecodeTree.NodeFollows` | internal/cproject/decode.go:474-844 | Reading a node leaves the input and the elided file and line where skipping it would, whatever of it is kept, unless an object in it that is no location begins with an offset. |
| `DecodeOnlyJson.NodeExactly` | internal/cproject/decode.go:746-872 | A node is read exactly where one whole JSON value stands that says a node; what is read is what the value says, and what is left is what follows it, with the file and line its places leave. |
| `DecodeJson.ReadNodeIs` | internal/cproject/decode.go:746-872 | Reading the tokens of any JSON value as a node gives what the value says as a tree, or fails where it says none. |
| `DecodeJson.SkimIs` | internal/cproject/decode.go:474-528 | Skipping the tokens of any JSON value passes over exactly it, following the places in it. |
| `DecodeJson.LocationIs` | internal/cproject/decode.go:615-651 | Reading the tokens of any JSON value as a location gives the place the value says. |
| `DecodeJson.RangeIs` | internal/cproject/decode.go:653-678 | As a range, the two places it says. |
| `DecodeJson.PlainIs` | internal/cproject/decode.go:680-737 | As a type or a reference, whether it is one, following what is in it. |
| `DecodeTree.KeepingLeavesTheSame` | internal/cproject/decode.go:746-872 | Which children are kept changes no position decoded later. |
| `DecodeTree.RangeMisread` | internal/cproject/decode.go:653-678 | A range that begins with an offset: skipping it changes the line later locations elide against, reading it does not. |
| `DecodeTree.PlainMisread` | internal/cproject/decode.go:680-737 | Of a type or a reference that begins with an offset the same: read, it leaves the line alone, skipped it changes it. |
| `DecodeTree.NodeMisread` | internal/cproject/decode.go:746-844 | Of a node that begins with an offset the same. |
| `DecodeDump.PlaceBack` | internal/cproject/decode.go:532-651 | Every place is read back exactly, plain or spelled and expanded, whatever the dump left out of it. |
| `DecodeDump.NodeBack` | internal/cproject/decode.go:746-872 | A dumped node is read back with every file and line exact, whatever is skipped in it, and what follows can be read on. |
| `DecodeDump.SkippedBack` | internal/cproject/decode.go:474-528 | A dumped node that is skipped leaves the elided state the dumper had. |
| `DecodeReader.Reader.Skim` | internal/cproject/decode.go:474-528 | The one-pass reader skips a value, following its locations, as the function of the tokens does: same verdict, input left, file and line. |
| `DecodeReader.Reader.BareRest` | internal/cproject/decode.go:532-583 | The one-pass reader reads the rest of a bare location and updates the elided file and line as the function does. |
| `DecodeReader.Reader.Location` | internal/cproject/decode.go:615-651 | The one-pass reader reads a location, bare or spelled and expanded, as the function does. |
| `DecodeReader.Reader.SourceRange` | internal/cproject/decode.go:653-678 | The one-pass reader reads a range as the function does. |
| `DecodeReader.Reader.Plain` | internal/cproject/decode.go:680-737 | The one-pass reader reads a type or a reference to a declaration, following what is in it, as the function does. |
| `DecodeReader.Reader.ReadNode` | internal/cproject/decode.go:746-844 | The one-pass reader reads a node, in any mode, as the function does. |
| `DecodeReader.Reader.Children` | internal/cproject/decode.go:848-872 | The one-pass reader reads a child array, kept or skipped, as the function does. |
| `Seal.RenamingInjective` | internal/atlas/atlas.go:1251-1288 | With distinct construction ids the renaming tells any two places apart exactly when no place's source key is another's id. |
| `Seal.SealedInOrder` | internal/atlas/atlas.go:1355-1391 | A sealed graph's places are as many, distinct, valid for their kinds and strictly increasing. |
| `SealOrder.NumbersFollowSource` | internal/atlas/atlas.go:1235-1263 | The new ids of two places of a kind are in the order of the source: by path, then line, then column, then construction id. |
| `SealOrder.NumbersFill` | internal/atlas/atlas.go:1251-1263 | The places of a kind are numbered from 1 to their count, each number once, behind the letter of the kind. |
| `SealOrder.ValidIdExactly` | internal/atlas/atlas.go:1384-1391 | An id is valid for a kind exactly when it is the kind's letter and a positive number as it is written. |
| `SealOrder.IdOrder` | internal/atlas/atlas.go:1372-1381 | Ids of different letters are compared as texts, numbered ids of one kind by their numbers. |
| `SealOrder.EdgeOrder` | internal/atlas/atlas.go:1355-1368 | Edges are ordered by where they start, where they end, and their kinds. |
| `SealOrder.KeyIs` | internal/atlas/atlas.go:1193-1211 | The source key of a directory or file is its path, of a named symbol its path, line and name; nothing else has one. |
| `SealOrder.KeysLead` | internal/atlas/atlas.go:1264-1279 | A reference written so names the place, unless one numbered later is known by the same. |
| `SealReferences.ReferencesFollow` | internal/atlas/atlas.go:1280-1348 | What a reference, by id or by source key, named has alone the id the reference becomes, keeps kind, position and name, and its parent, callers, callees and other references become what they were renamed to, each as often. |
| `SealReferences.SeedsFollow` | internal/atlas/atlas.go:1353-1354 | Both lists of seeds hold what the seeds were renamed to, each as often. |
| `SealReferences.SourceKeyFollows` | internal/atlas/atlas.go:1264-1279 | A source key leads to a place's new id exactly when no place numbered later is known by the same key. |
| `SealReferences.SealedNames` | internal/atlas/atlas.go:1280-1293 | What any reference becomes names a place of the sealed graph exactly when the reference named one, or is itself one of the ids sealing gives. |
| `SealReferences.DanglingStays` | internal/atlas/atlas.go:1280-1293 | Every reference names a place after sealing exactly when it did before, if and only if none that named no place is a prefix and number sealing gives to a place. |
| `SealReferences.KeptApart` | internal/atlas/atlas.go:1280-1293 | Sealing makes two names one only where they meant one place, if and only if the same condition holds. |
| `SealReferences.FalseLink` | internal/atlas/atlas.go:1349-1352 | An edge to nothing known whose end is an id sealing gives ends at a place of the sealed graph. |
| `SealReferences.DanglingCaptured` | internal/atlas/atlas.go:1280-1293 | The smallest such graph, computed: an edge to the unknown s1 becomes an edge of the only symbol to itself. |
| `SealReferences.ListSettles` | internal/atlas/atlas.go:1289-1294 | A list of references that all name places is in the order of the new ids. |
| `SealReferences.EdgesFollow` | internal/atlas/atlas.go:1349-1368 | Every edge is kept, between the new ids of its ends and with its evidence, and edges of equal ends and kind keep their order. |
| `SealReferences.EdgesInOrder` | internal/atlas/atlas.go:1355-1368 | Where every end names a place no edge stands behind one it comes before. |
| `SealAgain.SealingAgainKeepsIds` | internal/atlas/atlas.go:1235-1279 | A sealed graph can be sealed, and sealing it changes no place's id exactly when no two places that share kind, path, line and column are numbered on either side of a longer numeral. |
| `SealAgain.SealingAgainSame` | internal/atlas/atlas.go:1217-1370 | Without such a tie the second sealed graph is the first: places, references, edges and seeds. |
| `SealAgain.TiesStay` | internal/atlas/atlas.go:1235-1250 | Sealing neither makes nor removes such a tie. |
| `SealAgain.SettledOrNever` | internal/atlas/atlas.go:1217-1370 | After any number of seals: without a tie the next ones change nothing, with one each changes some id. |
| `SealBuilder.SealGraph` | internal/atlas/atlas.go:1217-1370 | The in-place renaming and sorting give the sealed graph these laws are about, numbered in the order `NumbersFollowSource` states, or the fault. |
| `SealBuilder.NumberPlaces` | internal/atlas/atlas.go:1251-1263 | Numbering kind by kind refuses a missing or repeated id and gives every place its number. |
| `SealBuilder.AddSourceKeys` | internal/atlas/atlas.go:1264-1279 | Source keys lead to their places' numbers too, over what stood under them before. |
| `SealBuilder.RenamePlaces` | internal/atlas/atlas.go:1300-1348 | Every place, with its parent and its lists of references, is renamed where it stands. |
| `SealBuilder.RenameEdges` | internal/atlas/atlas.go:1349-1352 | Every edge is renamed where it stands. |
| `SealBuilder.ValidatePlaces` | internal/atlas/atlas.go:1627-1647 | The check passes exactly for distinct valid ids in order. |
| `SealBuilder.SealedPasses` | internal/atlas/atlas.go:1627-1647 | A sealed graph passes the check of ids and of their order. |
| `Ordering.DecimalCarries` | internal/atlas/atlas.go:1235-1250 | Where counting on makes a numeral longer, the tie-break by text puts the greater number first. |
| `Ordering.DecimalLess` | internal/atlas/atlas.go:1235-1250 | Between numerals of one length the tie-break by text is number order. |
| `Texts.LessExactly` | internal/atlas/atlas.go:1235-1250 | A text comes before another exactly when it ends, or has the smaller character, where the two part. |
| `Texts.DecimalDigits` | internal/atlas/atlas.go:1251-1263 | A numeral has the number's decimal digits, one for each place. |
| `Texts.DecimalLength` | internal/atlas/atlas.go:1251-1263 | It has no more places than it needs. |
| `Spellings.SpellingsFlat` | internal/cproject/spellings.go:69-174 | After a whole function is walked, all chains and nested ones included, a call that is another spelling names a call that is none, in the same function and with the same target, and the first and a later read of some group spell them with the same shape. |
| `Spellings.WalkFlat` | internal/cproject/spellings.go:18-57 | Any part of the code, walked from any state that has not touched it, is flat afterwards, and what was joined elsewhere stays. |
| `Spellings.Joiner.JoinSpellings` | internal/cproject/spellings.go:137-150 | The nested loops join what the pairwise rule joins. |
| `SpellingsExact.RespellsExactly` | internal/cproject/spellings.go:132-150 | A call is another spelling of one exactly when both are of one target in one function and written the same but for what their literals say. |
| `SpellingsExact.GroupExactly` | internal/cproject/spellings.go:137-150 | In a group none of whose calls was joined before exactly the reads that do not lead are joined, each to the first leading read it spells again. |
| `SpellingsWalk.WalkExactly` | internal/cproject/spellings.go:18-174 | After a whole function is walked a call is another spelling of one exactly when in some chain of the function that is the first leading read it spells again. |
| `SpellingsWalk.GroupsExactly` | internal/cproject/resolve.go:525-563 | What is compared are the chains whose heads are a || that is no operand of another, in parentheses or not, or an if that is no other's else. |
| `SpellingsWalk.OperandsExactly` | internal/cproject/spellings.go:18-39 | The operands of a chain of || are what one comes to from its head through others and parentheses; no call of the chain is lost, repeated or moved. |
| `SpellingsWalk.ArmsExactly` | internal/cproject/spellings.go:43-57 | The arms of a chain of ifs are the condition and statement of each of its else-ifs, in order. |
| `SpellingsWalk.ReadExactly` | internal/cproject/spellings.go:69-129 | An operand or condition is compared exactly when it has one call given a literal, which is recorded and whose text can be read, and as that text says. |
| `Spellings.Joiner.WalkCode` | internal/cproject/resolve.go:525-563 | The walk joins every chain once, at its head, after what stands in it. |
| `ClojureReader.FormAlone` | internal/clojureproject/source.go:56-121 | The exact text of a form, read on its own, is the same form shifted to its start, terminated or not. |
| `ClojureWritten.ReadsBack` | internal/clojureproject/source.go:22-121 | Round trip: any written text, of tokens, characters, strings with escapes, the three kinds of list, metadata, every reader prefix and discards, separated by white space, commas and comments, is read to its end as exactly the forms it is written from, with their places, the discarded ones left out. |
| `ClojureWritten.FormBack` | internal/clojureproject/source.go:56-121 | The same of one form, wherever in a text it stands: a token ends at white space, a comma, a delimiter, a quote or a semicolon. |
| `ClojureReader.ArgumentsFromCall` | internal/clojureproject/source.go:169-206 | Each child of a call is found from the call's own text, at its place less the call's start and with the same text. |
| `ClojureReader.FormsFrom` | internal/clojureproject/source.go:38-121 | Forms read from some place on are the same, shifted, without the text before it. |
| `ClojureReader.FormsTo` | internal/clojureproject/source.go:38-121 | Forms are the same with the text cut anywhere behind where reading them ends. |
| `ClojureReader.FormsLie` | internal/clojureproject/source.go:38-55 | Every text is read to an end; siblings are in bounds, disjoint and increasing. |
| `ClojureReader.FormLies` | internal/clojureproject/source.go:56-121 | Children lie inside their parent, behind its first character. |
| `ClojureReader.ReadForms` | internal/clojureproject/source.go:38-55 | The loop reads exactly the forms of the recursive definition that `ReadsBack` and these laws are about. |
| `ClojureReader.ReadFormAt` | internal/clojureproject/source.go:56-121 | Reading one form, discards, prefixes, strings and lists included, is exactly the recursive definition that `FormBack` and these laws are about. |
| `ClojureReader.SkipSpace` | internal/clojureproject/source.go:22-37 | The loop skips exactly white space, commas and comments. |
| `ZoneTree.ValidateZoneTree` | internal/atlas/zone_tree.go:5-41 | Accepts exactly the lists whose parent chains all end at a root, whose subtrees hold two boxes or more, and whose children hold fewer than their parents; each refusal names a zone that breaks the rule it gives. |
| `ZoneTree.Checker.Follow` | internal/atlas/zone_tree.go:10-21 | Following parents with a seen map finds a root, an unknown parent, or a cycle, and says which. |
| `ZoneTree.Checker.Count` | internal/atlas/zone_tree.go:22-31 | The recursive count ends once cycles are ruled out, and is the number of boxes in and under the zone. |
| `ZoneTree.TotalIs` | internal/atlas/zone_tree.go:22-31 | A zone's total is its own boxes and its children's totals. |
| `ZoneTree.ChildrenApart` | internal/atlas/zone_tree.go:22-31 | Nothing lies under two children of one zone. |
| `ZoneTree.CycleNeverEnds` | internal/atlas/zone_tree.go:10-21 | A zone that comes back to itself never comes to a root. |
| `CatalogOperations.BuildWithOmissions` | internal/dependencies/catalog.go:117-237 | Gives a catalog exactly from acceptable parts; it is valid, has one row for each identity, and says exactly what the parts say: importers, uses, uses for effect and omissions. |
| `CatalogParts.OneCatalog` | internal/dependencies/catalog.go:117-237 | The same rows in any order and with any repeats, in their reference lists too, give the same catalog, or none. |
| `CatalogFacts.SameContentSame` | internal/dependencies/catalog.go:260-313 | What a valid catalog with one row for each identity says determines it: order, ids, references and counts follow. |
| `CatalogFacts.RetainedCounts` | internal/dependencies/catalog.go:213-216 | The imports retained are the pairs of a package and an importer of it, each counted once. |
| `CatalogOperations.Subset` | internal/dependencies/catalog.go:318-360 | Succeeds exactly for a valid catalog whose kept parts are acceptable, and gives the catalog of those parts. |
| `CatalogSubset.SubsetAccepts` | internal/dependencies/catalog.go:318-360 | What is kept of a valid catalog makes a catalog exactly where no identity kept has two names. |
| `CatalogSubset.SubsetKeeps` | internal/dependencies/catalog.go:318-360 | Keeping importers of a built catalog never fails and keeps exactly the uses, effects and omissions of the kept importers. |
| `CatalogSubset.SubsetWhole` | internal/dependencies/catalog.go:318-360 | Keeping every importer gives the same catalog exactly when no omission lacks an importer. |
| `CatalogCheck.Validate` | internal/dependencies/catalog.go:260-313 | Passes exactly the valid catalogs: numbered, strictly ordered, every reference listed and in order, counts right. |
| `CatalogCheck.ValidateCoverage` | internal/dependencies/catalog.go:362-395 | The counts, the state and the omissions fit the rows. |
| `CatalogBuild.Carried` | internal/dependencies/catalog.go:146-152 | A reference and the number it is given stand for the same importer. |
| `CatalogBuild.ContentCarried` | internal/dependencies/catalog.go:155-231 | Merging, placing, sorting and numbering lose and add nothing that is said. |
| `CatalogBuilder.SealImporters` | internal/dependencies/catalog.go:118-140 | Sealing succeeds exactly if identities have one name and references one importer, and every name then leads to its identity. |
| `CatalogBuilder.NumberImporters` | internal/dependencies/catalog.go:141-152 | Importers are ordered and numbered, each identity once, whatever order the map gives them in. |
| `CatalogRows.MergeRows` | internal/dependencies/catalog.go:154-188 | Uses merge to one row for each package exactly if every reference is known and names agree; the row has all importers of its uses. |
| `CatalogPlaces.PlaceRows` | internal/dependencies/catalog.go:190-216 | Rows are placed, ordered and numbered, whatever order the map gives them in, and their imports counted. |
| `CatalogPlaces.PlaceOmissions` | internal/dependencies/catalog.go:217-229 | Omissions are numbered, each once and in order, unless one names no importer. |
| `Catalog.OneDependency` | internal/dependencies/catalog.go:474-493 | With digests told apart by their text, packages of one identity differ in name only. |
| `Catalog.OneImporter` | internal/dependencies/catalog.go:470-493 | With digests told apart by their text, importers of one identity differ in name only. |
| `Catalog.DependencyKeyTells` | internal/dependencies/catalog.go:616-650 | Kind and the compared fields tell valid packages apart without the id. |
| `Catalog.DependencyFirst` | internal/dependencies/catalog.go:616-643 | Which of two different packages is first does not depend on their ids, so numbering rows anew keeps their order. |
| `CatalogShapes.RowExactly` | internal/dependencies/catalog.go:416-451 | A dependency's row is well shaped exactly when its kind is one of three, every field is what that kind demands, only an external one is replaced, and some importer is named. |
| `CatalogShapes.ImporterExactly` | internal/dependencies/catalog.go:408-414 | An importer's row is well shaped exactly when its fields are plain texts and its path one in the repository. |
| `CatalogShapes.OmissionExactly` | internal/dependencies/catalog.go:362-406 | An omission names a package and one of five reasons, and its importer unless that is the reason. |
| `CatalogShapes.PlainExactly` | internal/dependencies/catalog.go:453-455 | A text is plain exactly when trimming leaves it, it is not empty and has no NUL, line feed or carriage return. |
| `CatalogShapes.PathExactly` | internal/dependencies/catalog.go:457-468 | A repository path is plain, relative, without backslashes, and none of its parts is empty or leads up. |
| `CatalogShapes.ImporterOrder` | internal/dependencies/catalog.go:597-614 | Importers are ordered by repository path, then package path, language, module path, name and reference. |
| `CatalogShapes.DependencyOrder` | internal/dependencies/catalog.go:616-656 | Packages are ordered by kind, workspace, standard library, external, and in a kind field by field. |
| `CatalogShapes.OmissionOrder` | internal/dependencies/catalog.go:554-568 | Omissions are ordered by the importer's package, the package, the reason, and the reference by its number. |
| `CatalogShapes.ImporterIdentity` | internal/dependencies/catalog.go:470-493 | Importers have one identity exactly when they agree in all but name and reference. |
| `CatalogShapes.SameDependency` | internal/dependencies/catalog.go:474-493 | Packages have one identity exactly when they agree in all but name, id and importers. |
| `Texts.CompactExactly` | internal/dependencies/catalog.go:523-538 | An id is compact exactly when it is its letter and a positive number as it is written. |
| `Canon.EncodedOnce` | internal/dependencies/catalog.go:486-493 | The text a digest is taken of writes different lists of fields differently. |
| `Canon.Canonical` | internal/dependencies/catalog.go:495-507 | The in-place loop leaves the sorted list without the elements that repeat the one before them. |
| `Canon.SameMembersSame` | internal/dependencies/catalog.go:495-521 | Two ordered lists of the same elements are the same. |

## Left out

- Running clang, make, git and clj-kondo, reading and writing files, HTTP and configuration.
- SHA-256, JSON encoding and regular expressions: digests are taken as injective, texts as given.
- Messages, signatures, source snippets and display order (internal/cproject/build.go).
- The values themselves: internal/cproject/locals.go:330-364 shows the collected writes as alternatives; the model stops at which writes they are.
- LocalsSound.ReachingWrites: goto and switch, GNU statement expressions, and interleaved evaluation of operands are outside the runs; static, array and address-taken locals are not followed by the source. `Trusted` is sufficient only: it does not ask which code the runs can reach. `LocalsText.CoversExactly` is exact, over the same runs.
- NeverReturnsFound.StuckFound: of loops, switches, conditional operators and unread expressions the source finds nothing (`OnlyFound`), so that a statement built of these may never be completed and not be found.
- NeverReturns.FoundNeverReturn: that the rounds reach the greatest set is not claimed; the source's rounds can go back and forth over a cycle of calls.
- PointsToRuns.SlotHoldsCandidates: the elements of a member that is an array and is listed in a table are recorded for the table's variable, as in the source (internal/cproject/resolve.go:1178-1179); unions, casts of numbers to functions and writes past an object are outside the runs; initializers of tables are constant; which slot a member, variable or element is, and what a written name stands for, are given. `Followable` is sufficient only: what it excludes does harm exactly where nothing else tells of the function (`PointsToLimits`).
- PointsToExact.ElseExactly: the condition has a second half, values that are always null but not written so, because the source gives up on these; `HiddenNullGivesUp` shows it of all of them.
- PointsToBuilder.Builder.Candidates: the sites and conditions shown with a candidate and the `conditional` result are not modelled.
- Reach.ReachedExactly: resolution of references, the reading of assembly text and whether the program is linked into something else (internal/cproject/reach.go:172-237) are given.
- ClosureLinker.LinkClosure: what each unit defines and uses (internal/cproject/closure.go:49-128) is given.
- UnitStore.EveryoneReturns: the parse is one step with any result; the toolchain and corpus caches of the store are not modelled.
- DecodeText.Decoder.Peek: a NUL byte in the input and its end look alike to the source; the model tells them apart.
- DecodeTree.NodeFollows: goes one way, because an object that begins with an offset does no harm where its line is the one printed last; the filter mode, top-level declarations, interning of names and path resolution are not modelled, and a string is one token there.
- SealReferences.ReferencesFollow: the lists of one call's callees are one list here, and the references of a symbol that keep their order (callers of a symbol, uses, reads, stores, field types) and of a boundary are `related`; the sorting and merging of equal uses and fields, the presentation and the copy of the graph are not modelled, and numerals are unbounded.
- SealReferences.ListSettles: a list with a reference that names no place is compared in a way that is no order, and Go's unstable sort may then leave it differently from the insertion sort here; what it holds is the same. The same goes for SealReferences.EdgesInOrder.
- Spellings.SpellingsFlat: the text of a piece of code with its literals left out, and whether it stands in a macro, are given; the map of chains already joined is a flag passed down the tree.
- ClojureReader.ArgumentsFromCall: classifying the arguments it finds is not modelled.
- ZoneTree.ValidateZoneTree: that ids are given and unique is checked before (internal/atlas/atlas.go:1927-1935).
- CatalogOperations.BuildWithOmissions: the source rewrites the reference lists of its arguments in place and so changes them for the caller; here lists are values. Signs in numerals and numerals too large for an int are not modelled; which error is reported is not either. The first sort of the omissions compares references that need not be numbered and may follow no order; only what it keeps matters to the result.
- Canon.Canonical: Go's sort is taken as one insertion sort; where the order is linear every sort gives that list.
