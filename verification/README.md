# Verified models of the ritz0 compiler and its build system

`ritz0` is a bootstrap compiler written in Python; around it stands a build system with a shared artifact store and
several caches. This project models the algorithms in them whose correctness is hard to see, and proves what they are
for. Each model takes the form the code has: objects that update their fields are classes whose methods are proved
against specification functions, pure recursion is functions, and the properties are lemmas over all inputs, runs or
reachable states. Where the code does not have a property in full, there is a lemma that shows an input on which it
fails and one that says exactly when it holds.

| files | part | what is proved |
|---|---|---|
| `OwnershipSyntax`, `MoveRules`, `MoveChecker`, `Execution`, `MoveSoundness`, `MoveEffects`, `MoveLimits`, `Reaching`, `LiveCode`, `MoveWitness`, `MoveExactness`, `FieldPaths` | the ownership checker | soundness against an operational semantics with values that have holes, and its converse: a refused body has a run that gets stuck; the loop fixpoint; exact conditions for the three shapes that are not joined |
| `MoveTypes` | which types move | the memoised search is exact, and exactly on which type graphs its cached guard makes it wrong |
| `SingleFlight`, `SingleFlightLimits` | the artifact store | one builder at a time over any number of processes, failures and crashes, and exactly which builds and collections break it; complete files under any collection; each process returns what it did |
| `Mangling`, `GenericPrograms`, `Substitution`, `Monomorphizer` | monomorphisation | names are uniquely decodable; the specialised program means what the generic one means, and exactly when names can clash; no parameter is left in an instance |
| `Precedence`, `ExprParser` | the two expression parsers | round trip both ways, shortest text, what groups with what, agreement of the two, exact backtracking |
| `ImportGraph`, `SourceOrder` | import resolution | closure is reachability; import traces are sufficient; the compile order depends on the set alone |
| `ImportClosure`, `IncrementalCache`, `BuildCache`, `StoreKeys` | the build caches | rebuild checks exact over every run of builds; exactly when kept scans and remembered keys are right; what equal keys mean |
| `AsyncTransform` | async functions | every poll sequence agrees with the sequential program; exactly which expressions survive the transformation |
| `ConstFold` | constant folding | agreement with wrap-around arithmetic, and exactly where a shift right, logical or arithmetic as the type is, or a narrowing cast parts from it |
| `TypeText` | types in metadata | the printer and the parser, exactly when they agree |
| `Indentation` | blocks | which sources have tokens; they nest; the line scan of the interface text finds the lexer's blocks |
| `Basics` | shared | options, sizes of sets |

How the world is modelled: a file system is a map from paths to contents; a hash is its content, so equal hashes mean
equal contents; the parser and the candidates an import may resolve to are any functions; a compiled artifact is the
record of all it was compiled from, of which any compiler's output is a function; a lock is a map from inodes to
holders; and a run is a sequence of steps or of builds with arbitrary changes between them.

Where code and comments part, the model follows the code. The comment on else-less ifs speaks of a merge and the
code keeps only the block's state. The "circular import" error cannot be raised, because every file on the processing
stack is already among the processed ones.

## Model

| member | source | states |
|---|---|---|
| `MoveCheckerClass.MoveChecker.CheckFn` | projects/ritz/ritz0/move_checker.py:541-577 | no run of an accepted body whose joins are all made, by any path and of any length, gets stuck on a moved value; and if besides nothing in it is dead, some run of a refused one does |
| `MoveCheckerClass.MoveChecker.CheckPlaceUse` | projects/ritz/ritz0/move_checker.py:766-797 | a use of a place is refused when it overlaps a moved one or would move a pinned one; else a moving use adds just that place |
| `MoveCheckerClass.MoveChecker.ReownField` | projects/ritz/ritz0/move_checker.py:1181-1197 | assigning to a field gives back exactly what moved out of it and its parts, and says whether anything did |
| `MoveCheckerClass.MoveChecker.AssignPlace` | projects/ritz/ritz0/move_checker.py:620-640 | assigning to a place whose parent is gone is an error; otherwise exactly the entries in the place are dropped |
| `MoveCheckerClass.MoveChecker.CheckCall` | projects/ritz/ritz0/move_checker.py:826-847 | after a call the state is the one its parts leave, plus the whole bindings that were moved before the arguments (releasing borrows puts back their state) |
| `MoveCheckerClass.MoveChecker.CheckIf` | projects/ritz/ritz0/move_checker.py:953-1013 | after an if with both branches: the state of the branch that does not leave, or the union of both, and every break and continue of either noted |
| `MoveCheckerClass.MoveChecker.CheckIfOnly` | projects/ritz/ritz0/move_checker.py:1014-1020 | after an else-less if: the state before it if its block leaves, and only the block's state if it does not |
| `MoveCheckerClass.MoveChecker.CheckMatch` | projects/ritz/ritz0/move_checker.py:906-935 | after a match: the union of the arms that do not leave, each checked from the scrutinee's state with its own bindings |
| `MoveCheckerClass.MoveChecker.CheckStatement` | projects/ritz/ritz0/move_checker.py:577-687 | each statement has the effect on bindings, moved places, errors and loop frames that the rules give it |
| `MoveCheckerClass.MoveChecker.CheckPass` | projects/ritz/ritz0/move_checker.py:739-755 | one pass over an iteration gives the head joined with every way back to it, and the states at its breaks |
| `MoveCheckerClass.MoveChecker.CheckPasses` | projects/ritz/ritz0/move_checker.py:739-757 | the passes over a loop end with the fixpoint of at most eight, joined with the breaks, and report each pass's errors |
| `Execution.TakeMakesAHole` | projects/ritz/ritz0/move_checker.py:1198-1231 | moving a part out leaves a hole exactly at it and below it, and no other |
| `Execution.PutFillsHoles` | projects/ritz/ritz0/move_checker.py:1181-1197 | assigning to a place fills exactly the holes at and below it |
| `MoveSoundness.AcceptedBodiesNeverStick` | projects/ritz/ritz0/move_checker.py:561-757 | soundness over every run: a body of the visited kinds, accepted with its joins made, never reads, moves or assigns into a moved-out value, whatever its branches, loops, breaks, continues and matches do |
| `MoveExactness.BlockIsExact` | projects/ritz/ritz0/move_checker.py:561-1032 | the converse too: from any state and a store whose holes are what it says is moved, a block with its joins made and no dead code is accepted if and only if none of its runs gets stuck, whatever its branches, matches, loops, breaks and continues: no over-strict verdict passes |
| `MoveExactness.AcceptedExactly` | projects/ritz/ritz0/move_checker.py:541-577 | in particular a function body from its parameters |
| `MoveWitness.ExprShows` | projects/ritz/ritz0/move_checker.py:759-1032 | every moved place the checker has after an expression, or noted at a break or continue of it, is moved on some run that gets there, so branches are not joined with states no run has |
| `MoveSoundness.ExprAgrees` | projects/ritz/ritz0/move_checker.py:759-1032 | simulation: whatever an expression's run has moved is moved in the state the checker has after it, at every break and continue too |
| `MoveSoundness.LoopAgrees` | projects/ritz/ritz0/move_checker.py:739-757 | a loop run any number of times stays covered by the head the passes settled on and leaves covered by the state after the loop |
| `MoveSoundness.HeadAgrees` | projects/ritz/ritz0/move_checker.py:739-757 | every return to the head of a checked loop is covered by that head: it is a post-fixpoint of all the ways back |
| `MoveEffects.ExprIsGenKill` | projects/ritz/ritz0/move_checker.py:759-1032 | the effect of an expression checked without error on one place is to set, clear or keep it, whatever the state it is checked from: the transformer is gen/kill |
| `MoveEffects.SecondPassIsStable` | projects/ritz/ritz0/move_checker.py:739-757 | when the first two passes over a loop, nested loops and field moves included, report no error the second leaves the head as it was |
| `MoveEffects.LoopSettles` | projects/ritz/ritz0/move_checker.py:739-757 | a loop checked without error settles within two passes on a head its own iteration maps to itself: the cap of eight never decides the result |
| `MoveEffects.LoopIsGenKill` | projects/ritz/ritz0/move_checker.py:739-757 | so the whole loop is gen/kill again, which is what nested loops need |
| `MoveLimits.StraightBlockIsExact` | projects/ritz/ritz0/move_checker.py:577-640 | on straight-line code, with the store whose holes are the moved places, the checker reports no error if and only if the run goes through |
| `MoveLimits.StoreFor` | projects/ritz/ritz0/move_checker.py:43-62 | for every state of the checker there is a store whose holes are exactly what it says is gone |
| `MoveLimits.SkipIsIncludedExactly` | projects/ritz/ritz0/move_checker.py:1014-1020 | the block's own state covers skipping it if and only if every place moved before it, or a parent of it, is still moved by the block's gen/kill effect |
| `MoveLimits.ElseLessIfIsSoundExactly` | projects/ritz/ritz0/move_checker.py:1014-1020 | an else-less if that falls through is checked soundly if and only if its block gives back nothing moved before it; otherwise some use after it is accepted and gets stuck |
| `MoveLimits.LoopExitIsSoundExactly` | projects/ritz/ritz0/move_checker.py:756-757 | no use accepted after a while loop sticks in any run through it if and only if every place its condition moves, or a parent of it, is gone in the state at exit, breaks included; for straight conditions and joined bodies |
| `MoveLimits.ShortCircuitIsSoundExactly` | projects/ritz/ritz0/move_checker.py:799-802 | from any state, with the right operand accepted and its own joins made: no use accepted after a short-circuit operator sticks in any run if and only if that operand gives back, by its gen/kill effect, nothing gone before it |
| `MoveLimits.ElseLessIfIsUnsound` | projects/ritz/ritz0/move_checker.py:1014-1020 | counterexample for every x: give(x); if c { x = ... }; give(x) is accepted and gets stuck when the block is skipped |
| `MoveLimits.ShortCircuitIsUnsound` | projects/ritz/ritz0/move_checker.py:799-802 | counterexample for every x: an operand of && that assigns x may not run, yet give(x) after it is accepted |
| `MoveLimits.MovingConditionIsUnsound` | projects/ritz/ritz0/move_checker.py:756-757 | counterexample for every x: a loop condition that moves x leaves it moved at exit, yet give(x) after the loop is accepted |
| `FieldPaths.PathWithinIsPrefix` | projects/ritz/ritz0/move_checker.py:114-116 | the test on dotted strings is the prefix test on field paths, for field names without dots |
| `MoveTypes.TypeTable.IsMoveOnly` | projects/ritz/ritz0/move_checker.py:169-177 | the memoised query updates its cache and answers as the search does |
| `MoveTypes.TypeTable.Compute` | projects/ritz/ritz0/move_checker.py:178-200 | the search sets its guard first and looks at the parts in order, stopping at the first that is move-only |
| `MoveTypes.TrueIsJustified` | projects/ritz/ritz0/move_checker.py:169-224 | after any questions and however types recur, a true answer means a Drop type is reachable by value |
| `MoveTypes.FirstQueryIsExact` | projects/ritz/ritz0/move_checker.py:169-224 | the first query on a fresh table is true if and only if a Drop type is reachable, cyclic type graphs included |
| `MoveTypes.AlwaysExactExactly` | projects/ritz/ritz0/move_checker.py:169-224 | every question after any others is answered exactly if and only if no type that holds a Drop is reached, in the order parts are declared, through a stack of types without Drop around which it has no path to one |
| `MoveTypes.AlwaysExactInAnyOrder` | projects/ritz/ritz0/move_checker.py:169-224 | and in whatever order the parts are declared, if and only if there is no such type in any order |
| `MoveTypes.NoneTrappedWithoutDropCycles` | projects/ritz/ritz0/move_checker.py:169-224 | in particular when no type that holds a Drop is on a cycle with another type: recursive copies and types recurring in themselves do no harm |
| `MoveTypes.LaterQueryCanBeWrong` | projects/ritz/ritz0/move_checker.py:169-177 | counterexample on a cyclic graph: the guard's cached false makes a second query answer false although a Drop type is reachable |
| `SingleFlight.ArtifactsAreComplete` | projects/ritz/cas.py:263-277 | after any steps of any number of processes, crashes, failures and collections included, every visible artifact is the whole output of a build that finished, and locks are held as the processes think |
| `SingleFlight.StepKeepsLocks` | projects/ritz/cas.py:339-391 | every step, on whichever inode, keeps locks and program counters in agreement and inode numbers fresh |
| `SingleFlight.StepKeepsProtocol` | projects/ritz/cas.py:339-391 | every step keeps the single-flight invariant, whatever files of the key the processes want and although the lock file is unlinked while held and two inodes can be locked, if a build stored leaves out what at most one process wants and a collection is safe where it happens |
| `SingleFlight.OneBuilderHolds` | projects/ritz/cas.py:339-391 | over every such run, failures, crashes and safe collections included, at most one process is building or storing |
| `SingleFlight.SingleFlightHolds` | projects/ritz/cas.py:339-391 | when all want the same file and nothing is collected there is besides one publication of it at most, whatever builds give and wherever stores fail, and a process that finished without failing finds the file there |
| `SingleFlight.ReturnsWhatItDid` | projects/ritz/cas.py:339-391 | over every run: who returns with a hit ended no build of its own and who ended none returns with a hit; who returns as having built finished a build that gives its file and published it; who fails had its build or its store fail or a build without its file |
| `SingleFlight.EachFileIsPublishedOnce` | projects/ritz/cas.py:339-391 | whatever files are wanted: when builds that are stored give all of them, no store ends half-way and nothing is collected, each file is published at most once and whoever finished without failing finds its own |
| `SingleFlightLimits.OneBuilderExactly` | projects/ritz/cas.py:339-391 | for any processes and wants, and any outputs builds may give: two builders can come to be without a collection if and only if some output gives what one process wants and leaves out what two others want |
| `SingleFlightLimits.CollectIsSafeExactly` | projects/ritz/cas.py:401-436 | with two processes yet to look for the file, collecting it lets two build at once if and only if someone storing does not have it still to publish, or someone who may yet build locks an inode that is not the lock file |
| `SingleFlight.PresentIsHitAtOnce` | projects/ritz/cas.py:339-364 | over every run without a collection: a process yet to look for a file that is there never waits for the lock, it returns with a hit at its first step |
| `SingleFlight.NoDeadlock` | projects/ritz/cas.py:339-391 | whenever a process has not finished, some process can make progress |
| `SingleFlightLimits.CollectionBreaksExclusion` | projects/ritz/cas.py:401-436 | counterexample family: a collection between the publication and the unlink leads to two builders |
| `SingleFlightLimits.DifferentFilesBreakExclusion` | projects/ritz/cas.py:339-391 | counterexample family: two processes that want files the first build does not give come to build at once |
| `Mangling.MangleIsJoin` | projects/ritz/ritz0/monomorph.py:158-188 | a mangled type is its words in Polish notation joined by '_' |
| `Mangling.DemangleUndoesMangle` | projects/ritz/ritz0/monomorph.py:158-188 | reading a mangled name back gives the type, for all types whose names hold no underscore, are no reserved word and keep one arity |
| `Mangling.InstanceNamesAreDistinct` | projects/ritz/ritz0/monomorph.py:191-206 | two instances with one name are instances of the same generic at the same types |
| `Mangling.UnreadableTypesClash` | projects/ritz/ritz0/monomorph.py:158-188 | each of these conditions is needed, for any names: a type named ptr_n and a pointer to n; a type named ptr, or arr and a number, with one argument and a pointer or an array; a name with two arities |
| `Mangling.DollarNamesClash` | projects/ritz/ritz0/monomorph.py:191-206 | and generics' names must hold no $: one named f$a has an instance named like one of f |
| `Substitution.ApplyAt` | projects/ritz/ritz0/monomorph.py:97-130 | place by place in a type: a parameter by itself becomes what it stands for, and every other name, arity, size and mutability stays |
| `Substitution.NothingElse` | projects/ritz/ritz0/monomorph.py:97-130 | and the result has no places but the type's own and those inside what a parameter became |
| `Substitution.ZipPairs` | projects/ritz/ritz0/monomorph.py:948-961 | each parameter stands for the argument in its position |
| `Substitution.InstancesAreConcrete` | projects/ritz/ritz0/monomorph.py:948-966 | given an argument for each parameter, none of them mentioning one, no type anywhere in an instance's function mentions a parameter of its generic |
| `GenericPrograms.SpecializeKeepsMeaning` | projects/ritz/ritz0/monomorph.py:1240-1358 | an expression specialised under type arguments means what the generic one means under them as type environment, sizeof included |
| `GenericPrograms.SpecializedProgramsMeanTheSame` | projects/ritz/ritz0/monomorph.py:829-966 | in a program specialised for a closed set of instances, calling any plain function gives what it gives in the generic program, at every depth of calls |
| `Monomorphization.Monomorphizer.Register` | projects/ritz/ritz0/monomorph.py:523-529 | an instance met is recorded once, in order of discovery, with the types its key stands for |
| `Monomorphization.Monomorphizer.Visit` | projects/ritz/ritz0/monomorph.py:516-529 | visiting an expression records exactly the instances its calls name, in order |
| `Monomorphization.Monomorphizer.SpecializeExpr` | projects/ritz/ritz0/monomorph.py:1240-1358 | specialising an expression gives the specialised expression and records exactly the instances it calls |
| `Monomorphization.Monomorphizer.SpecializeKey` | projects/ritz/ritz0/monomorph.py:1094-1125 | specialising one instance adds its function and whatever it turns out to call, keeping every earlier one right |
| `Monomorphization.Monomorphizer.Generate` | projects/ritz/ritz0/monomorph.py:829-966 | rounds until none is found or the cap of 100 is reached, every instance specialised once and in order; without clashes all that were found are specialised if and only if every instance the program needs is called through a chain of at most 100 instances |
| `Monomorphization.Monomorphizer.Monomorphize` | projects/ritz/ritz0/monomorph.py:285-304 | on every program: without clashes the worklist settles if and only if no needed instance is more than 100 calls deep; and when it settles, all instances the program needs were found as themselves and have names of their own if and only if mangled names do not clash among what is needed; and if they do not, every plain function means what it meant |
| `Monomorphization.ReadableProgramsDoNotClash` | projects/ritz/ritz0/monomorph.py:158-206 | names do not clash when the types written hold no underscore, are no reserved word and keep one arity |
| `Monomorphization.AddAllIsRight` | projects/ritz/ritz0/monomorph.py:268-284 | recording instances keeps keys distinct, loses none already recorded, and without clashes each key stands for the types it was made from |
| `Monomorphization.KeysHaveTheirOwnNames` | projects/ritz/ritz0/monomorph.py:191-206 | in a program without clashes different keys have different function names |
| `Monomorphization.RewriteFnIsSpecializeFn` | projects/ritz/ritz0/monomorph.py:1465-1488 | rewriting a plain function's calls is specialising it at no types |
| `Monomorphization.ApartExactly` | projects/ritz/ritz0/monomorph.py:829-966 | a settled pass has found every needed instance as itself under its own name if and only if names do not clash |
| `Monomorphization.Assembled` | projects/ritz/ritz0/monomorph.py:285-304 | without clashes the assembled module is closed under calls and has each instance's function under its own name |
| `ExprParser.Parser.Expr` | projects/ritz/ritz0/parser.py:749-786 | the loop over operators takes the tokens and builds the tree the recursive parser does, and fails when it fails |
| `ExprParser.Parser.PrefixExpr` | projects/ritz/ritz0/parser.py:788-842 | prefix operators, parentheses and atoms likewise |
| `ExprParser.Parser.ConstExpr` | projects/ritz/ritz0/parser.py:419-453 | the constant parser's loop likewise |
| `ExprParser.Parser.ConstPrimary` | projects/ritz/ritz0/parser.py:455-488 | the constant parser's primaries likewise |
| `Precedence.ParseUndoesYield` | projects/ritz/ritz0/parser.py:749-786 | parsing the tokens of any tree that respects precedence gives back that tree and leaves the rest, whatever binds less tightly follows |
| `Precedence.GroupsByClass` | projects/ritz/ritz0/parser.py:711-739 | for any operands and two operators of the ten classes, ranges and logical or loosest and products tightest: a o1 b o2 c is grouped around the tighter one, and to the left within a class |
| `Precedence.PrefixBindsTightest` | projects/ritz/ritz0/parser.py:741-743 | a prefix operator takes just its operand, whichever binary operator follows |
| `Precedence.NewlinesAfterAnOperator` | projects/ritz/ritz0/parser.py:759-768 | the ends of lines after a binary operator do not count |
| `Precedence.ConstGroupsByClass` | projects/ritz/ritz0/parser.py:419-448 | and by the same classes in constant expressions, for the operators they have |
| `Precedence.ConstUndoesYield` | projects/ritz/ritz0/parser.py:419-488 | the constant parser, on the tokens of any tree of its operators that respects precedence, gives that tree but for literals' suffixes |
| `Precedence.ParseUndoesPrint` | projects/ritz/ritz0/parser.py:749-786 | printing any tree with only the parentheses precedence needs and parsing it gives back that tree |
| `Precedence.PrintIsShortest` | projects/ritz/ritz0/parser.py:749-786 | of all texts the parser reads as a tree, newlines and ambiguous operators included, the printed one is the only shortest: leaving out a parenthesis gives another tree or none |
| `Precedence.OnlyOneTree` | projects/ritz/ritz0/parser.py:711-739 | two trees that respect precedence with the same tokens are the same tree |
| `Precedence.ExprRespects` | projects/ritz/ritz0/parser.py:749-786 | whatever the parser accepts is, but for newlines after operators, the text of a tree that respects precedence, and without its parentheses it is that tree |
| `Precedence.ConstRespects` | projects/ritz/ritz0/parser.py:419-488 | the same for the constant parser with its own tests and levels |
| `Precedence.ClimbersAgree` | projects/ritz/ritz0/parser.py:419-488 | on every token sequence the constant parser reads, both parsers take the same tokens and build the same tree up to grouping, if and only if no literal in it has a suffix |
| `Precedence.EntriesAgree` | projects/ritz/ritz0/parser.py:419-419 | in particular where the compiler enters them, both at level 0 |
| `ExprParser.ResetRestores` | projects/ritz/ritz0/parser.py:133-164 | for every sequence of advances, splits and resets of nested marks, resetting restores the tokens and position there were at the mark |
| `ExprParser.SpeculationChangesNothing` | projects/ritz/ritz0/parser.py:293-340 | an attempt that is given up leaves the parser as it was |
| `ExprParser.SplitKeepsText` | projects/ritz/ritz0/parser.py:145-164 | splitting a token keeps the text of the whole |
| `ExprParser.Parser.ResetTo` | projects/ritz/ritz0/parser.py:137-143 | undoing the log from its end gives the state of the mark |
| `ExprParser.Parser.SplitLeadingGt` | projects/ritz/ritz0/parser.py:145-164 | a token that starts with > is replaced by > and the rest, and logged; any other is left alone |
| `ImportGraph.ImportResolver.ResolveImport` | projects/ritz/ritz0/import_resolver.py:942-985 | the first candidate that exists, recording every one missed before it and no other |
| `ImportGraph.ImportResolver.ProcessImport` | projects/ritz/ritz0/import_resolver.py:825-921 | an import is resolved, and its file loaded unless met before; the report of a cycle is never reached, since everything on the stack has been met |
| `ImportGraph.ImportResolver.Collect` | projects/ritz/ritz0/import_resolver.py:761-785 | the walk from a source gives the files met, the candidates missed, the order read and the verdict that the recursive definition gives, on cyclic imports too |
| `ImportGraph.FirstOfIsFirst` | projects/ritz/ritz0/import_resolver.py:942-985 | a lookup hits the first candidate that exists, and misses just the ones before it |
| `ImportGraph.TraceIsSufficient` | projects/ritz/ritz0/import_resolver.py:942-985 | in any later file system with the same content for every file met and none of the missed candidates, resolving again gives the same closure, misses and verdict |
| `ImportGraph.ClosureIsReachability` | projects/ritz/ritz0/import_resolver.py:825-921 | when resolution succeeds it has met exactly the files reachable by imports, all their imports among them, each file read once |
| `ImportGraph.ResolvesWithin` | projects/ritz/ritz0/import_resolver.py:825-921 | and it succeeds whenever the imports of some set of files holding the source all resolve within the set |
| `SourceOrder.OrderSourceFiles` | projects/ritz/ritz0/import_resolver.py:1480-1518 | all files but the main one in dictionary order, then the main one |
| `SourceOrder.LeIsByFirstDifference` | projects/ritz/ritz0/import_resolver.py:1513-1518 | one path comes before another exactly when it is a beginning of it or smaller at the first place where they differ |
| `SourceOrder.OrderDependsOnTheSet` | projects/ritz/ritz0/import_resolver.py:1480-1518 | however the set of files is enumerated, the order is the same |
| `BuildCaches.BuildCache.ScanDirectImports` | projects/ritz/cache.py:514-533 | a kept scan serves for the same content while all it found exists; otherwise a fresh scan is made and kept |
| `BuildCaches.BuildCache.GetTransitiveDependencies` | projects/ritz/cache.py:757-779 | adds to the visited set all the source depends on by the scans, stopping at what does not parse |
| `BuildCaches.BuildCache.InvalidateIfCompilerChanged` | projects/ritz/cache.py:621-679 | nothing recorded by another compiler is kept, and the present one is recorded |
| `BuildCaches.BuildCache.NeedsRebuild` | projects/ritz/cache.py:781-848 | the verdict, and the scans it leaves |
| `BuildCaches.BuildCache.UpdateCache` | projects/ritz/cache.py:850-886 | records the artifact, the compiler and the contents of all dependencies, for the compiled source only |
| `BuildCaches.BuildCache.Build` | projects/ritz/cache.py:888-900 | in a cache that holds, what is delivered, reused or compiled, is what a fresh compile gives, and the cache goes on holding |
| `ImportClosure.GatherLosesNoScan` | projects/ritz/cache.py:514-533 | no kept scan is lost on the way, whether files parse or not, and one that serves stays as it is |
| `ImportClosure.DependenciesAreTheClosure` | projects/ritz/cache.py:757-779 | with current scans the build finds exactly what the source reaches, or fails because some of it does not parse, and scans stay current |
| `ImportClosure.DependenciesAreWhatIsRead` | projects/ritz/cache.py:757-779 | when the compiler resolves a source, the build finds the very files the compiler read |
| `ImportClosure.ClosureStaysExactly` | projects/ritz/build.py:387-404 | where the closure's files import the same, it is still the closure if and only if no import of theirs now resolves out of it |
| `ImportClosure.SameDirectImportsExactly` | projects/ritz/cache.py:514-533 | while a file and all it was found to import are there unchanged, its direct imports are the same if and only if no candidate missed before has appeared |
| `ImportClosure.CurrentExactly` | projects/ritz/cache.py:514-533 | kept scans, whenever made, say what fresh ones would if and only if no file is there that a scan still in use missed; what it missed can be told from the scan |
| `IncrementalCache.NeedsRebuildIsExact` | projects/ritz/cache.py:781-848 | with the compiler recorded and current scans, no rebuild is asked for if and only if the cached artifact is what a fresh compile gives |
| `IncrementalCache.ReusedIsRightExactly` | projects/ritz/cache.py:703-715 | when two sources share a safe name, what is reused is right if and only if the source was the last compiled under it |
| `IncrementalCache.EveryRunIsExact` | projects/ritz/cache.py:621-679 | over every run of builds that first invalidate, with edits and compiler changes between them and sources in any order, every check is exact and every artifact delivered is what a fresh compile gives, while no build begins with a file there that a scan still in use missed |
| `IncrementalCache.RunsFromNothingAreExact` | projects/ritz/cache.py:621-679 | in particular from an empty cache |
| `IncrementalCache.WithoutInvalidationStaleIsReused` | projects/ritz/cache.py:633-645 | without the invalidation, after a compiler change and one compile, every other up-to-date source's artifact of the old compiler is reused |
| `IncrementalCache.SafeNamesAgreeExactly` | projects/ritz/cache.py:703-715 | two sources share a safe name if and only if their paths differ at most in which of '/', '\' and '_' they have where; and no directory is left in a safe name |
| `IncrementalCache.SharedNameServesTheOther` | projects/ritz/cache.py:703-715 | of two sources with one safe name the first is then served the other's artifact |
| `IncrementalCache.RestoredImportGoesUnseen` | projects/ritz/cache.py:514-533 | counterexample family, four builds from an empty cache: a file built, again while its one import is gone, again with that back, and again after that was edited; the last delivers a stale artifact |
| `StoreKeys.EqualKeysMeanTheSameBuild` | projects/ritz/cas.py:178-213 | with distinct identities, equal keys of two modules in two file systems mean the same compiler, flags and source, the same closure with the same digests, and resolution that succeeds alike on the same files |
| `StoreKeys.EqualKeysMeanEqualMaterials` | projects/ritz/cas.py:205-212 | without distinct identities too: a key tells the compiler, the flags, the module's identity and its content |
| `StoreKeys.ExchangedFilesShareAKey` | projects/ritz/cas.py:121-136 | counterexample family without them: exchange the contents of two files of the closure that have one identity and import alike, and the closure is the same files and its key the same |
| `StoreKeys.PairsInAnyOrder` | projects/ritz/cas.py:199-204 | the keyed pairs do not depend on the order the closure is enumerated in |
| `StoreKeys.RecallIsRightExactly` | projects/ritz/build.py:440-459 | a recalled key is what a cold computation gives if no import of the recorded files now resolves out of them, and with distinct identities only then |
| `StoreKeys.FilesStayClosedExactly` | projects/ritz/build.py:387-404 | the recorded files, unchanged, stay closed if and only if no candidate that one of their imports missed has appeared |
| `StoreKeys.KeyMemo.ClosureMemoGet` | projects/ritz/build.py:440-459 | the recorded value if every recorded file has its recorded content, else none |
| `StoreKeys.KeyMemo.ComputeKey` | projects/ritz/cas.py:178-213 | the key of a module and its closure, the module itself left out of the imports |
| `StoreKeys.KeyMemo.CasModuleKey` | projects/ritz/build.py:346-383 | the key recalled or computed and recorded with the contents of its closure; none if some of it does not parse; every entry stays the key of what it records |
| `AsyncTransform.AsyncAnalyzer.Analyze` | projects/ritz/ritz0/async_transform_v2.py:86-115 | the await points in order with their indices, and the locals that become fields: all of them if there is an await |
| `AsyncTransform.TransformPreserves` | projects/ritz/ritz0/async_transform_v2.py:625-676 | reading the future's fields in the transformed expression gives what reading the locals gave in the source one |
| `AsyncTransform.TransformPreservesExactly` | projects/ritz/ritz0/async_transform_v2.py:625-676 | a source expression means the same transformed, for every meaning of the rest of the program and every future whose fields agree, if and only if its locals are bound where the transformer goes and none is bound in a kind it leaves as it is |
| `AsyncTransform.PollsFrom` | projects/ritz/ritz0/async_transform_v2.py:402-577 | one poll moves the state to the first await that is not ready, keeping every stored field the awaited value, and returns the value when there is none |
| `AsyncTransform.FreshPolls` | projects/ritz/ritz0/async_transform_v2.py:458-495 | polling a newly made future of an async call, awaits nested to any depth, gives the call's value if all it waits for is there and pending if not |
| `AsyncTransform.EveryPollSequence` | projects/ritz/ritz0/async_transform_v2.py:402-591 | however a call is polled, each poll returns the sequential program's value if all it waits for is there by then and pending if not, fields hold the awaited values and the state never goes back |
| `AsyncTransform.ReturnedForGood` | projects/ritz/ritz0/async_transform_v2.py:402-591 | once a value has been returned every later poll returns it |
| `AsyncTransform.PendingValueNeverFinishes` | projects/ritz/ritz0/async_transform_v2.py:509-541 | a call that awaits a value equal to the code for pending never finishes |
| `AsyncTransform.LaterLocalHidesGlobal` | projects/ritz/ritz0/async_transform_v2.py:633-645 | counterexample: a name bound only by a later await reads that await's field, still zero, and not the global it names |
| `AsyncTransform.UntransformedKindLosesLocals` | projects/ritz/ritz0/async_transform_v2.py:625-676 | counterexample: inside an expression kind the transformer leaves as it is, a local is no longer found |
| `ConstFold.BitsInTheirPlaces` | projects/ritz/ritz0/const_eval.py:140-145 | each bit of a folded and, or and xor, negative numbers included, is that of the two bits in its place |
| `ConstFold.SameBits` | projects/ritz/ritz0/const_eval.py:140-145 | and, or and xor of unbounded integers keep congruence modulo a power of two |
| `ConstFold.MaskIsRemainder` | projects/ritz/ritz0/const_eval.py:133-139 | masking with n ones is the remainder modulo 2^n, for negative numbers too |
| `ConstFold.FoldIsMachineArithmetic` | projects/ritz/ritz0/const_eval.py:66-145 | on the fragment, casts to full-width types and trustworthy shifts included, folding with any representatives of the constants is congruent to wrap-around evaluation at the width, and fails exactly when it does |
| `ConstFold.CastAgreesExactly` | projects/ritz/ritz0/const_eval.py:84-85 | a cast of an expression of the fragment, to a type of any signedness and no more bits, folds to the number the truncated register is if and only if the operand's value fits the type |
| `ConstFold.ShiftAgreesExactly` | projects/ritz/ritz0/const_eval.py:133-139 | a shift right folds to the machine's result, logical on an unsigned register and arithmetic on a signed one, if and only if the operand is known to be u64 or folds to a number that differs from its register's by a multiple of 2^k words |
| `ConstFold.FittingShiftIsArithmetic` | projects/ritz/ritz0/const_eval.py:133-139 | so a signed operand that folds to a number in its type's range folds to exactly the arithmetic shift of its register |
| `ConstFold.ParenthesesChangeAShift` | projects/ritz/ritz0/const_eval.py:48-64 | counterexample: parentheses hide a u64 operand, so a shift right of it folds to something else |
| `ConstFold.DivisionTruncates` | projects/ritz/ritz0/const_eval.py:119-128 | the quotient and remainder are the only pair with a = b*q + r, r smaller than b in size and of the sign of a |
| `ConstFold.FoldedDivision` | projects/ritz/ritz0/const_eval.py:119-128 | the folds of / and % are that pair, and there is none if and only if the divisor folds to zero |
| `ConstFold.U64ByLeaves` | projects/ritz/ritz0/const_eval.py:48-64 | an expression is taken to be u64 if and only if an operand that decides (no count of a shift, nothing in parentheses) is a literal too large for i64, a name declared u64 or a cast to u64 |
| `ConstFold.FoldedLogic` | projects/ritz/ritz0/const_eval.py:98-163 | and, or and not fold to 1 or 0 by whether their operands fold to 0 |
| `ConstFold.FoldedComparison` | projects/ritz/ritz0/const_eval.py:146-157 | each comparison folds to 1 or 0 by the sign of the folded difference |
| `TypeText.ParseUndoesPrint` | projects/ritz/ritz0/metadata.py:106-147 | parsing a printed type gives it back if no argument in it prints with a comma |
| `TypeText.SlicesAreSpans` | projects/ritz/ritz0/import_resolver.py:54-67 | empty brackets before a type's text are read as a span of that type, and fail as it does |
| `TypeText.BlankPiecesAreSkipped` | projects/ritz/ritz0/import_resolver.py:130-136 | between commas, pieces of nothing but blanks stand for no argument, wherever they are |
| `TypeText.OnlyCommaFreeReadsBack` | projects/ritz/ritz0/import_resolver.py:37-139 | and only then: the parser splits the arguments at every comma |
| `TypeText.RoundTripExactly` | projects/ritz/ritz0/import_resolver.py:37-139 | a type reads back from its text if and only if no argument in it prints with a comma |
| `Indentation.Lexer.StartLine` | projects/ritz/ritz0/lexer.py:94-131 | a line of code opens one level, or closes the deeper ones with a DEDENT each and must then fit; the stack stays strictly increasing from 0 |
| `Indentation.Lexer.NextToken` | projects/ritz/ritz0/lexer.py:617-697 | what was to come is the token returned and what is still to come, and every token but EOF leaves less ahead in a lexicographic order |
| `Indentation.Lexer.Tokenize` | projects/ritz/ritz0/lexer.py:699-707 | terminates on every source with the tokens of its lines, or an error exactly when they have none |
| `Indentation.LexesExactly` | projects/ritz/ritz0/lexer.py:94-131 | a source has tokens if and only if no line starts with a tab and no line of code is shallower than the one before it at a width that no open level has, a level being open when no later line of code was shallower |
| `Indentation.TokensBalance` | projects/ritz/ritz0/lexer.py:94-131 | on every source that lexes INDENT and DEDENT nest and balance |
| `Indentation.ScanFindsTheBlock` | projects/ritz/ritz0/module_interface.py:256-295 | on every source that lexes, the scan by leading blanks below a line of code finds exactly the lines with words in the block the tokens delimit after it, and one if and only if the other |
| `Indentation.DeclareFn` | projects/ritz/ritz0/module_interface.py:256-295 | blanks in place exactly the lines below a one-line header up to where the scan stops, declares the header, keeps every other line, and fails exactly when there is no body |
| `Indentation.InterfaceText` | projects/ritz/ritz0/module_interface.py:256-295 | over all headers: the same number of lines, each header declared, exactly the lines of their bodies blanked, all others kept |
| `Indentation.BlankedIsTheBlock` | projects/ritz/ritz0/module_interface.py:256-295 | the lines of code blanked under a header are those of the block the lexer delimits, and the blanks end with its last line |

## Left out

- MoveCheckerClass.MoveChecker.CheckFn: soundness needs the joins to be made (`JoinsBlock`): else-less ifs that fall through and short-circuit operands give nothing back, and loop conditions move nothing. `MoveLimits` says for each of the three shapes exactly when a use accepted after it cannot stick. A body with an unmade join may still be harmless, if nothing uses the place later. That a refused body has a run that gets stuck is for joined bodies without dead code (`LiveBlock`) in which no call argument and no loop condition gives back a moved binding: the checker goes on after what no run leaves, and takes a binding moved before a call for moved after it.
- MoveExactness.BlockIsExact: under the same conditions.
- MoveSoundness.AcceptedBodiesNeverStick: about the kinds the checker visits. `_check_expr` never looks into assignment expressions, ranges, array fills, slices, `heap`, `await`, closures and interpolated strings, so a moved binding used there is accepted.
- MoveTypes.FirstQueryIsExact: the type graph is finite. Polymorphic recursion makes it infinite, and the search in the code does not end.
- The borrow-state half of the ownership checker, its type inference and its method-name heuristics: whether a use moves, copies or is refused is an input. Drop flags and other annotations for the emitter.
- Shadowed names: names are unique in a body, so state saved by name and by binding agree. `LetTupleStmt`, asserts and unsafe blocks, which the checker does not look into.
- SingleFlight.EachFileIsPublishedOnce: with several files wanted the count of publications is for stores that do not end half-way: one that does leaves files that the next build publishes again. Both builds of modules give all their files (`build.py`, lines 1655 and 2253), which is more than `OneBuilderExactly` asks for.
- The choice of victims in `gc` (any file may be collected at any time), the meta files beside artifacts and the statistics.
- Monomorphization.Monomorphizer.Monomorphize: that meaning is kept is for function names that are identifiers, as the lexer makes them. What a program whose names clash comes to mean is not said, only that some needed instance is then missing or shares its name; nor when the rounds settle then.
- Generic structs, enums and impl blocks, trait bounds, aliases, function types, method and UFCS instantiation; expression kinds the visitor does not walk.
- ExprParser.Parser.Expr: on calls, casts and a name followed by `<` it ends with the outcome outside the model, and says no more.
- ExprParser.Parser.PrefixExpr: likewise on `await`, `heap` and reference prefixes.
- Parsing of calls, indexing, struct literals, casts, `if` and `match` in expressions, and type arguments: outcomes outside the model, which the parsers report as such. The text of literals.
- Symbolic links, directories in place of files and the search for a project root: a candidate either is a file or is not, and its path is its identity. Cached interfaces and signature files, which stand in for parsing the same content.
- ImportGraph.TraceIsSufficient: the resolution context (roots, dependencies) is fixed, as it is where a trace is used.
- IncrementalCache.EveryRunIsExact: requires distinct safe names and that no build begins with a file there that a scan still in use missed, which `CurrentExactly` shows is when the scans are right; `SharedNameServesTheOther` and `RestoredImportGoesUnseen` show what happens without. A wrong scan need not lead to a wrong artifact in every run. The cached bitcode and objects, which follow the same check, and concurrent builds merging their entries.
- The in-memory copy of import scans, which within one build holds what the store holds; the parts of a key fixed for one machine (schema, target).
- Statements between awaits, awaits inside other expressions, calls that may be pending inside an awaited expression (its inner calls have their value at once), and recursive async functions, which as straight chains never finish.
- ConstFold.FoldIsMachineArithmetic: operands of fewer bits, characters and truth values among them unless cast, where the generated code wraps at their own width, are not in the fragment; a narrowing cast is compared where it is made, by `CastAgreesExactly`.
- Comparison and logical operators in `FoldIsMachineArithmetic`: they give 0 or 1 by the stored representative, which the machine does not.
- Function and union types in `TypeText`, whose text the parser reads by other rules, and blanks other than spaces.
- Headers of several lines in `Indentation`, characters within a line (a line of code is its words) and the text of the declared header.
- The emitter, the type checker, linking, packaging, the command line and the self-hosted compiler.
