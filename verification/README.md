# Mighty: verified models of the borrow checker, type inference, Wasm backend, lexer and expression parser

This project models five parts of the Mighty compiler in Dafny and proves what they
promise. Functions on values say what each step computes; where the program updates an
object or runs a loop, a class or a method does the same and is proved against that
function. `dafny verify dfyconfig.toml` checks everything.

**The Rust borrow checker** (`crates/mty-borrow`). `Hir` holds the reduced syntax, `Places`
the places, `Nll` the last-use pre-pass and `Flow` the walk over a body; `BorrowCx` runs the
walk as one object that is changed step by step. `FlowPaths` says what may happen on one path
when every branch is decided, and `FlowState` what every step of it does: lexical scopes, full
places, moves, borrows and lambdas. It does not use the checker's rule for ending a borrow. A
borrow lives until the end of the expression whose value may hold it, and while any name that
may hold it is read later. Reading a holder hands its borrows on to every name that the value
may go to: the names being bound; in a call, every other operand and the receiver; in an
assignment, the target and the owners of whatever the target may point to. What is stored
where it may leave the body lives to the end of the body. A lambda holds what its body names
and the borrows that the body takes (`FlowActs`); what it moves is moved when it is called.
Two places meet when they do after dereferences are dropped, since `p.f` is `(*p).f`.
A path goes wrong in four ways: a borrow is taken that meets a live one when either is
mutable; a moved or uninitialised local is read, moved or borrowed; a scope ends while a name
outside it holds a borrow of one of its locals and is read later; a local is moved while a
borrow of it lives.

`FlowSafety` relates the walk and the path by induction on the body, for the bodies that
`FlowFit` describes: a plan lists where borrows are taken, where scopes end, where locals are
moved and what each name may hold, and wherever one of these would conflict with a borrow
while it lives, the name it is recorded under must still be read. `FlowTheorems` draws the
conclusions, and `CheckBody` states them about the two passes run together. `FlowHoles` says exactly when the checker
accepts something that goes wrong; `FlowBodies` gives a whole body for each way in which a
move or a missing value goes unnoticed, and `FlowAliases`, `FlowOperands` and `FlowLambdas`
for each way in which a second borrow does; `FlowEscapes` for a reference that leaves the
scope of what it points to, and `FlowMoves` for a move of a borrowed local. `FlowSample` has
bodies that are covered and accepted. `FlowReports` says of every check what it reports,
without naming the check, and `FlowShapes` does the same for patterns, types and places.
`FlowInvariant` holds on every body, loops, lambdas and shadowing included; `FlowLockstep` and
`FlowTrace` tie the walker's points to the pre-pass, and `FlowLoops` says exactly when a loop
breaks that tie and gives a body that is accepted because of it. `PoloniusSolver`,
`PoloniusFacts`, `PoloniusPaths` and `PoloniusPass` do the same for the Datalog pass, and
`PoloniusMeaning` says what each derived fact means; `Sendable` is the search that decides
what may cross between agents.

Array, map and struct literals are walked as tuples are, casts as field accesses, `unsafe`
blocks and task scopes as blocks.

**Type inference** (`impl-py/mty/typeck.py`). `Unification` is Robinson's algorithm on a
triangular substitution that survives failure; `UnificationProof` shows it sound, complete
and most general, `UnificationAny` what `TyAny` absorbs; `TypeChecker` is the object that
mutates the substitution.

**Wasm code generation** (`impl-py/mty/codegen_wasm.py`). `Leb128` and `WasmBinary` are the
bytes, `WasmCore` the stack machine of section 4.4 of WebAssembly Core 1.0, `ScalarHir`
direct evaluation, `WasmGen` the emitted code, `WasmGenProof` and `WasmFunction` the proof
that the code means what the source means, `Fuel` that a larger budget changes no result, and
`FnEmitter` the emitter that appends bytes. `WasmOpcodes` states every byte against the
tables of section 5.4, and `WasmSections` reads the module's other sections with literal
bytes only.

**The lexer and the expression parser** (`impl-py/mty/lexer.py`, `impl-py/mty/parser.py`).
`Lexical` computes the token at a position and how tokens tile the source, and `Lexer` is
the cursor that scans for them. `LexicalForms` says apart from both which texts each kind of
token may have; `LexicalScans`, `LexicalNumbers` and `LexicalProof` show that every token is
the one longest form that stands there. `Pratt` is the grammar with a printer, `PrattProof`
and `PrattMinimal` show that they are inverse and that the printed form is the shortest;
`PrattTiers` lists the operators by how tightly they bind and shows that any chain of them
is grouped so, and `Parser` is the cursor that runs it.

**Aggregate layout** (`crates/mty-codegen-cranelift`). `Layouts` computes field offsets and
the sizes reserved for tuples, structs and enums, in two separate passes as the program does.

Where the code and its comments differ, the code is modelled: `sendable.rs` lists Copy types
as sendable but rejects shared references, raw pointers and functions before it asks whether
a type is Copy; `state.rs` says that the last case of a join is "both owned" but it also
keeps the left state of an owned and a borrowed side; `flow.rs` calls the loop analysis a
fixed point but it stops as soon as the number of records repeats; `lexer.py` says that CRLF is
normalised before tokenisation, but one pass leaves a CRLF where a CR stood before one, and
`B` is a size suffix but `0B` is read as a base without digits; `nll.rs` numbers the reads of a loop once, but `flow.rs`
counts them again in every pass; and `polonius.rs` walks the body of a loop once.

## Model

| member | source | states |
|---|---|---|
| CheckBody.CheckFnBody | crates/mty-borrow/src/flow.rs:131-154 | numbering the reads and walking the body: on a body covered for the claim, if the reported diagnostics hold no conflict and no refused borrow, no choice of branches ever takes a borrow that meets another live one when either is mutable; if they hold no outliving borrow either, no choice ever leaves a scope while a name outside it holds a borrow of one of its locals and is read later; if they hold no bad move instead, no choice ever moves a local while a borrow of it lives; if nothing is reported, all of this holds and no choice reads, moves or borrows a moved or uninitialised local |
| FlowTheorems.AliasingXorMutability | crates/mty-borrow/src/flow.rs:784-867 | aliasing xor mutability on every path of a covered body, for every branch choice: no borrow is taken that meets a live one when either is mutable, where a borrow lives while the value it went into is computed and while any name is read later that it may have been bound, passed, stored or captured into; covered are loop-free, guard-free bodies with distinct names where, whenever a borrow is taken that conflicts with one handed on earlier and still held, the name that was read to hand it on is read again later, and where lambdas neither move nor borrow a local around them |
| FlowTheorems.NoDangling | crates/mty-borrow/src/flow.rs:220-267 | on a covered body with no conflict, refused or outliving borrow reported, no path leaves a scope while a name outside it holds a borrow of one of its locals and is read later; covered asks that wherever such a scope ends the name the borrow is recorded under stays as well, or the borrow is not read later |
| FlowTheorems.NoMoveWhileBorrowed | crates/mty-borrow/src/flow.rs:1308-1357 | on a covered body with no conflict, refused borrow or bad move reported, no path moves a local while a borrow of it lives; covered asks that where a borrow still lives when its local is moved, the local is not assigned in between, and that the move stands in the branch, arm or lambda in which the borrow was taken, or in one inside it |
| FlowTheorems.NoUseAfterMove | crates/mty-borrow/src/flow.rs:1289-1357 | an unreported covered body never reads, moves or borrows a moved or uninitialised local on any path, calls of its lambdas included, nor takes a borrow that meets a live one when either is mutable; where the plan also lists scopes and moves, it neither leaves a borrowed scope nor moves a borrowed local; index operands of borrowed places and lambdas may read any local that is bound with a value and never moved out |
| FlowSample.SampleIsSafe | crates/mty-borrow/src/flow.rs:131-154 | a body that passes a mutable reference to a call and then borrows an indexed element of the same local is covered, is accepted without a report, and so is safe in all four ways on every path |
| FlowSample.ReleasingIsSafe | crates/mty-borrow/src/flow.rs:1308-1357 | the same for a body that borrows a local, reads the reference for the last time and then moves the local |
| FlowTheorems.AcceptedIsSafe | crates/mty-borrow/src/flow.rs:307-317 | at the end of an accepted covered body the walker's tables cover the state of every path: locals at least as bad, same point, and a record for every live borrow wherever something that conflicts with it is still to be taken |
| FlowTheorems.ClashIsAliasing | crates/mty-borrow/src/flow.rs:1129-1216 | taking a borrow that will be used is the clash event exactly when it ends pairwise compatibility of the live borrows |
| FlowTheorems.OnlyTakingConflicts | crates/mty-borrow/src/flow.rs:1083-1093 | nothing else ends that compatibility: not the passing of a point, not handing a reference on as its holder is read, not the end of a scope |
| FlowHoles.CopyLosesBorrow | crates/mty-borrow/src/flow.rs:1083-1093 | reading the only holder of a borrow leaves the borrow alive without a record if and only if it was the last read of that holder, and the value being computed lasts beyond it or one of the names that the value goes to is read later; with the two rows below this is the step at which each of the bodies after it goes wrong |
| FlowHoles.OperandsMingle | crates/mty-borrow/src/flow.rs:738-774 | in a call, what any operand holds may go to every operand whose type can hold a borrow, the receiver included |
| FlowHoles.StoreReachesOwner | crates/mty-borrow/src/flow.rs:640-680 | a store through a reference may go to every local that the reference is tied to |
| FlowAliases.CopyBody | crates/mty-borrow/src/flow.rs:1083-1093 | a whole body: a mutable reference copied by `let s = r` with `r` not read again lets a second mutable borrow pass, and nothing is reported while both are live |
| FlowOperands.OperandBody | crates/mty-borrow/src/flow.rs:738-766 | a whole body: `f(r, &mut x)` with `r` a mutable reference to `x` is accepted, although the call holds both |
| FlowOperands.TupleBody | crates/mty-borrow/src/flow.rs:1083-1093 | a whole body: the same for the tuple `(r, &mut x)` |
| FlowOperands.PushBody | crates/mty-borrow/src/flow.rs:767-774 | a whole body: after `v.push(r)` a second mutable borrow passes, although `v` still holds the first |
| FlowOperands.StoreBody | crates/mty-borrow/src/flow.rs:640-680 | a whole body: after `*p = r` with `p` a reference to `y` a second mutable borrow passes, although `y` still holds the first |
| FlowLambdas.LambdaBorrowBody | crates/mty-borrow/src/flow.rs:1049-1069 | a whole body: a lambda that borrows `x`, a second borrow of `x` and a call of the lambda are accepted, and two live borrows meet with one of them mutable if and only if either borrow is mutable |
| FlowLambdas.LambdaMoveBody | crates/mty-borrow/src/flow.rs:1049-1069 | a whole body: a lambda that moves `x`, a call of it and a use of `x` are accepted, and go wrong if and only if the type of `x` is not Copy |
| FlowAliases.DerefBody | crates/mty-borrow/src/flow.rs:498-544 | a whole body: mutable borrows of `p.f` and `(*p).f` for a reference `p`, in either order, are both accepted and live at once |
| FlowAliases.RefusedBorrowHidesConflict | crates/mty-borrow/src/flow.rs:1145-1161 | a whole body: two mutable borrows of a moved local are refused and reported as such, so neither is recorded and no conflict is reported although both are live |
| FlowHoles.PlaceMisuse | crates/mty-borrow/src/flow.rs:1239-1258 | reading a borrowed place goes wrong if and only if an index operand in it is moved or uninitialised |
| FlowHoles.IndexOperandIsUnchecked | crates/mty-borrow/src/flow.rs:691-722 | for every borrowed place and state: the report does not depend on the index operands, and the path goes wrong if and only if one of them or the root is moved or uninitialised |
| FlowBodies.IndexBody | crates/mty-borrow/src/flow.rs:1239-1258 | a whole body: `move i` and then `&a[i]` is accepted, and goes wrong if and only if the type of `i` is not Copy |
| FlowHoles.UnsetLetForgetsType | crates/mty-borrow/src/flow.rs:364-389 | a local declared without a value is recorded as Copy: assigned, moved and used it raises no report, and the use is wrong if and only if its type is not Copy |
| FlowBodies.UnsetBody | crates/mty-borrow/src/flow.rs:364-389 | the same as a whole body, for every type |
| FlowHoles.StructsBindUnit | crates/mty-borrow/src/flow.rs:448-476 | every name bound below a struct or enum pattern, however deep, is recorded as Copy and as no reference, whatever its type |
| FlowHoles.TakenForCopy | crates/mty-borrow/src/flow.rs:1308-1357 | a local recorded as Copy can be moved and then used without a report, and the use is wrong if and only if its type is not Copy |
| FlowBodies.StructBody | crates/mty-borrow/src/flow.rs:448-476 | a whole body: a field bound by a struct pattern is moved and used, accepted, and wrong if and only if its type is not Copy |
| FlowHoles.ShadowForgetsMove | crates/mty-borrow/src/flow.rs:255-266 | leaving a scope that shadows an outer local removes the outer one from the table: its later use is never reported, and is wrong if and only if the outer local was moved or uninitialised |
| FlowBodies.ShadowBody | crates/mty-borrow/src/flow.rs:255-266 | the same as a whole body |
| FlowEscapes.PopReports | crates/mty-borrow/src/flow.rs:220-242 | leaving a scope adds only reports of outliving borrows, and adds the one for `x` if and only if `x` leaves and some record rooted at it is held by a name that stays |
| FlowEscapes.CloseRaises | crates/mty-borrow/src/flow.rs:220-242 | on a path, leaving a scope goes wrong if and only if a live borrow rooted in it has a holder outside it that is read later |
| FlowEscapes.EscapeBody | crates/mty-borrow/src/flow.rs:229-242 | a whole body: an outer reference set to a local of an inner block and read after the block goes wrong on every path; it is reported when the borrow is stored directly, and accepted when it goes through another reference of the block |
| FlowMoves.MoveReports | crates/mty-borrow/src/flow.rs:1308-1357 | what a move reports and does in every state: the local is moved if and only if it is owned and not Copy, and a borrowed one is refused as such |
| FlowMoves.JoinTable | crates/mty-borrow/src/state.rs:142-170 | which state the join gives, case by case; an owned and a borrowed side give the left one |
| FlowMoves.ResetBody | crates/mty-borrow/src/flow.rs:1389-1398 | a whole body: `let r = &mut x; x = ..; move x; r` moves a borrowed local on every path, and is reported if and only if the assignment is left out |
| FlowMoves.BranchBody | crates/mty-borrow/src/state.rs:142-170 | a whole body: a local borrowed in one of two branches, then moved, then the borrow read, goes wrong if and only if the path takes that branch, and is reported if and only if it is the last branch |
| FlowMoves.ImmutableBody | crates/mty-borrow/src/flow.rs:1389-1398 | a whole body: declaring and assigning a local is reported if and only if it was not declared mutable |
| FlowMoves.ArmNamesAreImmutable | crates/mty-borrow/src/flow.rs:420-490 | a name bound by a match arm cannot be assigned without a report, whatever its type |
| FlowReports.UseReports | crates/mty-borrow/src/flow.rs:1289-1306 | a read reports exactly a moved or an uninitialised local |
| FlowReports.AssignReports | crates/mty-borrow/src/flow.rs:1389-1398 | an assignment reports exactly a local that is not mutable and leaves it owned; one to a part of a local only reports |
| FlowReports.BorrowReports | crates/mty-borrow/src/flow.rs:1129-1161 | a borrow is recorded if and only if its local is neither moved nor uninitialised, with the pending name as borrower, and a mutable one of an immutable local is reported |
| FlowReports.ConflictReports | crates/mty-borrow/src/flow.rs:1163-1208 | which conflict a recorded borrow reports, if and only if some record of that kind has a place with a common extension |
| FlowReports.DerefReports | crates/mty-borrow/src/flow.rs:1262-1275 | reading or moving through a reference is reported if and only if the type read is not Copy |
| FlowReports.DecayStates | crates/mty-borrow/src/flow.rs:1098-1122 | after the records of a name end, every usable local that it had borrowed is in the state that the remaining records give |
| FlowReports.PopStates | crates/mty-borrow/src/flow.rs:243-254 | the same after a scope whose names had borrowed it |
| FlowShapes.CopyIff | crates/mty-borrow/src/copy.rs:23-60 | a type is Copy if and only if no part of it is a mutable reference or another type that is not Copy itself |
| FlowShapes.PatternTypes | crates/mty-borrow/src/flow.rs:420-490 | part `i` of a tuple pattern is bound at the type of part `i`, and what is below a reference pattern at the type referred to |
| FlowShapes.PlaceSpelled | crates/mty-borrow/src/flow.rs:498-544 | the place of a field, an index and a dereference is that of the operand with one projection more |
| FlowSafety.ExprSim | crates/mty-borrow/src/flow.rs:549-1073 | one expression: if the walker's state covers a path before it, either a rejecting diagnostic is reported or the state after it covers the path after it; calls pass borrows among their operands, lambdas are run once for their own locals, captured and called |
| FlowSafety.BlockSim | crates/mty-borrow/src/flow.rs:307-317 | the same for a block, its scope opened and closed |
| FlowSafety.BorrowSim | crates/mty-borrow/src/flow.rs:1129-1232 | a borrow that is clean on the ledger is clean on the path, and the ledger still covers the live borrows, with places truncated and every name the value goes to as a holder |
| FlowSafety.ClashReported | crates/mty-borrow/src/flow.rs:1163-1208 | a borrow that clashes with a live one on the path is classified as a conflict by the walker, truncated or not, when its local is dereferenced first in all its borrowed parts or in none |
| FlowSafety.MoveSim | crates/mty-borrow/src/flow.rs:1308-1357 | a move the walker lets through moves a usable local on the path, of which no borrow lives where moves of borrowed locals are claimed, and both sides record it |
| FlowSafety.DecaySim | crates/mty-borrow/src/flow.rs:1083-1093 | ending the records of a name at its last read loses no borrow that a later one could conflict with while any of its holders is read |
| FlowSafety.FollowSim | crates/mty-borrow/src/flow.rs:1083-1093 | handing the borrows, lambdas and ties of a name on to every name its value may go to keeps the path covered, when whatever conflicts with them meanwhile is taken before the last read of that name |
| FlowSafety.SpreadUnder | crates/mty-borrow/src/flow.rs:640-680 | every name that a path ties to the target of a store or an operand of a call, over any number of steps, is in the groups that the plan gives, and what leads outside the body lasts to its end |
| FlowSafety.EncloseSim | crates/mty-borrow/src/flow.rs:1049-1069 | a lambda that neither moves nor borrows a local around it hands on what it captures and keeps the path covered |
| FlowSafety.InvokeSim | crates/mty-borrow/src/flow.rs:1049-1069 | calling any number of such lambdas, wherever they are held, misuses no local |
| FlowSafety.CloseSim | crates/mty-borrow/src/flow.rs:220-267 | leaving a scope keeps the tables in step with the path, or an outliving borrow is reported, when none of its names is read later while something conflicts with what it holds |
| FlowSafety.JoinSim | crates/mty-borrow/src/state.rs:142-170 | the joined states are at least as bad as either side for every local, a guarded local stays marked as borrowed, and the joined ledger holds the live borrows of either path |
| FlowSafety.BranchesSim | crates/mty-borrow/src/flow.rs:784-802 | both branches are walked from one snapshot; the join covers the path through either |
| FlowSafety.ArmsTake | crates/mty-borrow/src/flow.rs:833-867 | the join over all arms of a match covers the path through any one of them |
| FlowInvariant.WalkScoped | crates/mty-borrow/src/flow.rs:549-1073 | on every body, loops, lambdas and shadowing included, every record stays rooted at a bound local and every bound local stays in some frame |
| FlowInvariant.FixScoped | crates/mty-borrow/src/flow.rs:329-351 | the same through every pass of a loop and the joins with the state before it |
| FlowInvariant.BlockScoped | crates/mty-borrow/src/flow.rs:307-317 | the same for blocks |
| FlowInvariant.PopClears | crates/mty-borrow/src/flow.rs:243-266 | after a scope exit no record is rooted at or held by a departing name, and no departing name is bound |
| FlowLockstep.KeptWhileReadLater | crates/mty-borrow/src/flow.rs:1083-1093 | a record whose borrower is read again later in the body survives every loop-free expression before that read that does not rebind its ends |
| FlowLockstep.WalkKeeps | crates/mty-borrow/src/flow.rs:549-1073 | the same in terms of the recorded last-use point, by induction on the expression |
| FlowTrace.ExprStamped | crates/mty-borrow/src/flow.rs:549-1073 | the reads of an expression, in the order in which the walk makes them, are those of the pre-pass at consecutive points, through every branch, arm and lambda |
| FlowTrace.BodyInStep | crates/mty-borrow/src/flow.rs:131-154 | at read `i` of a whole body the walker's point is `i` and the name read is the one the pre-pass numbered `i` |
| FlowTrace.EndedByLastRead | crates/mty-borrow/src/flow.rs:1083-1093 | read `i` of a whole body ends the records of the name it reads exactly when the body does not read that name again, and otherwise changes nothing |
| FlowLoops.LoopStops | crates/mty-borrow/src/flow.rs:329-351 | the loop analysis makes `n` passes, where `n` is the first number at which the count of records repeats, and otherwise one more than the limit |
| FlowLoops.PassJoins | crates/mty-borrow/src/flow.rs:868-945 | a pass holds the records of the state before the loop and of the body walked once, and no others, and joins the states |
| FlowLoops.LoopInStep | crates/mty-borrow/src/nll.rs:191-205 | after a loop the walker stands at the point of the pre-pass if and only if it made one pass or the body reads nothing |
| FlowLoops.PassStamped | crates/mty-borrow/src/flow.rs:329-351 | the reads of pass `k` are those of the body, at points shifted by `k` times their number |
| FlowLoops.DriftBody | crates/mty-borrow/src/flow.rs:329-351 | a whole body: a `while` that touches a local moves the points on, so the record of a mutable borrow ends before its last read, and a second mutable borrow is accepted while both live |
| Flow.Walk | crates/mty-borrow/src/flow.rs:549-1073 | every expression leaves the scope stack, the pending borrower and the last-use map as they were and only adds diagnostics; without loops and hidden reads its point advances by exactly the number of reads the pre-pass numbers |
| Flow.PointsOnly | crates/mty-borrow/src/flow.rs:1239-1258 | the points-only walk stays in step with the pre-pass if and only if no read is hidden below a compound index expression, and reports nothing |
| Flow.PopRestores | crates/mty-borrow/src/flow.rs:213-267 | a push, any number of bindings and a pop restore the scope stack |
| Flow.PlaceIsTruncated | crates/mty-borrow/src/flow.rs:498-544 | truncating after every projection gives the truncation of the full path, for the same expressions, rooted at a bound local |
| Flow.JoinLedgers | crates/mty-borrow/src/flow.rs:1425-1437 | the join holds exactly the records of either side |
| Flow.Without | crates/mty-borrow/src/state.rs:95-129 | exactly the records not held by the given names remain |
| Flow.RecomputeAll | crates/mty-borrow/src/flow.rs:1098-1122 | recomputing borrow states keeps declarations and the moved and uninitialised locals |
| BorrowCheckers.BorrowCx.constructor | crates/mty-borrow/src/flow.rs:192-211 | the empty tables |
| BorrowCheckers.BorrowCx.PushFrame | crates/mty-borrow/src/flow.rs:213-218 | new state of the object as a function of the old one |
| BorrowCheckers.BorrowCx.PopFrame | crates/mty-borrow/src/flow.rs:220-267 | reports the borrows that outlive their owner, which are those of the row `FlowEscapes.PopReports`, retains, recomputes, sweeps and unbinds, in that order, as the function that the scope theorems are about |
| BorrowCheckers.BorrowCx.RecomputeRoot | crates/mty-borrow/src/flow.rs:1098-1122 | the counting loop gives the root its state from the ledger |
| BorrowCheckers.BorrowCx.BindLocal | crates/mty-borrow/src/flow.rs:282-305 | binds a name in the table and in the innermost frame |
| BorrowCheckers.BorrowCx.BindPattern | crates/mty-borrow/src/flow.rs:420-490 | descends the pattern with the type that reaches each part and binds its names in order, in the given state, as the flattened bindings say |
| BorrowCheckers.BorrowCx.BindUnset | crates/mty-borrow/src/flow.rs:364-395 | a pattern without a value is bound at type Unit: every name uninitialised, Copy and no reference |
| BorrowCheckers.UnitNames | crates/mty-borrow/src/flow.rs:420-490 | descending with type Unit binds the same names in the same order, all of them Copy and none a reference |
| BorrowCheckers.BorrowCx.DoUse | crates/mty-borrow/src/flow.rs:1289-1306 | a read: what is reported, nothing else changes |
| BorrowCheckers.BorrowCx.DoMove | crates/mty-borrow/src/flow.rs:1308-1357 | a move: the classification by whole and partial borrows, and the new state of the local |
| BorrowCheckers.BorrowCx.DoAssign | crates/mty-borrow/src/flow.rs:1389-1398 | assignment re-initialises the local |
| BorrowCheckers.BorrowCx.TryPlaceBorrow | crates/mty-borrow/src/flow.rs:1129-1232 | a borrow of any place, its root bound or not: refusal, classification by the scan, the new record and the new state |
| BorrowCheckers.BorrowCx.DecayAfterUse | crates/mty-borrow/src/flow.rs:1083-1093 | decay at the last use |
| BorrowCheckers.BorrowCx.CheckDerefMove | crates/mty-borrow/src/flow.rs:1262-1275 | reading through a reference to a non-Copy type is reported |
| BorrowCheckers.BorrowCx.PointsOnly | crates/mty-borrow/src/flow.rs:1239-1258 | points and decay only |
| BorrowCheckers.BorrowCx.WalkExpr | crates/mty-borrow/src/flow.rs:549-1073 | the walk over one expression, on the object, computes the function that the safety theorems are about |
| BorrowCheckers.BorrowCx.WalkArms | crates/mty-borrow/src/flow.rs:833-867 | the loop over match arms with its optional join |
| BorrowCheckers.BorrowCx.LoopFixedPoint | crates/mty-borrow/src/flow.rs:329-351 | at most 16 passes until the record count repeats, then one more, as the rows on `FlowLoops` count them |
| BorrowCheckers.BorrowCx.WalkBlock | crates/mty-borrow/src/flow.rs:307-317 | statements in order inside a frame |
| BorrowCheckers.BorrowCx.WalkStmt | crates/mty-borrow/src/flow.rs:353-395 | a `let` names the pending borrower while its value is walked, then binds |
| BorrowCheckers.ScanConflicts | crates/mty-borrow/src/flow.rs:1163-1178 | the scan finds a mutable or shared conflict exactly when one overlaps |
| BorrowCheckers.Retain | crates/mty-borrow/src/state.rs:95-129 | splits the records into those kept and those removed, both in order |
| BorrowCheckers.JoinLedgers | crates/mty-borrow/src/flow.rs:1425-1437 | the duplicate-free loop computes the join |
| BorrowCheckers.JoinStates | crates/mty-borrow/src/state.rs:142-170 | entry by entry, the loop computes the pointwise join |
| Nll.LastOccurrence | crates/mty-borrow/src/nll.rs:51-67 | the map holds exactly the names read, each with the position of its last read |
| Nll.Pre.VisitExpr | crates/mty-borrow/src/nll.rs:117-263 | the pre-pass records the reads of an expression in evaluation order and advances by their number |
| Nll.Pre.VisitBlock | crates/mty-borrow/src/nll.rs:96-104 | the same for blocks |
| Places.PrefixTest | crates/mty-borrow/src/place.rs:64-76 | the zipped comparison decides the prefix relation |
| Places.OverlapIffCommonExtension | crates/mty-borrow/src/place.rs:79-82 | two places overlap if and only if some place extends both |
| Places.TruncateIsConservative | crates/mty-borrow/src/place.rs:86-92 | places that overlap still overlap after truncation |
| Places.OverlapsMeet | crates/mty-borrow/src/place.rs:79-82 | places that overlap meet in memory |
| Places.MeetsTruncated | crates/mty-borrow/src/flow.rs:498-544 | of two places that meet, the checker's truncated forms do not overlap if and only if exactly one starts with a dereference and the other with another projection |
| Places.TruncateStepwise | crates/mty-borrow/src/flow.rs:498-528 | truncating early changes no later truncation |
| PoloniusSolver.Solver.Solve | crates/mty-borrow/src/polonius.rs:153-161 | from any facts over 32-bit loans, the loop capped at 32 rounds ends at exactly the least set closed under the rules |
| PoloniusSolver.Solver.ApplyRules | crates/mty-borrow/src/polonius.rs:164-243 | one call adds exactly what the three rules derive from the facts before it |
| PoloniusSolver.ThirtyTwoSuffice | crates/mty-borrow/src/polonius.rs:64-65 | after 32 rounds nothing new can be derived, whatever the initial facts |
| PoloniusSolver.WalkShortcut | crates/mty-borrow/src/polonius.rs:169-181 | after k rounds every walk of at most 2^k subset steps is a single fact |
| PoloniusSolver.BackedRounds | crates/mty-borrow/src/polonius.rs:169-181 | every derived subset fact comes from a walk over initial ones |
| PoloniusSolver.Shortened | crates/mty-borrow/src/polonius.rs:169-181 | over 2^32 loans a walk can be shortened below 2^32 steps |
| PoloniusMeaning.SolvedMeans | crates/mty-borrow/src/polonius.rs:164-260 | in the least model a fact is derived if and only if its meaning holds of the initial facts: a subset is a chain of initial ones, a loan clashes with another of its place, an error is an invalidated live loan |
| PoloniusFacts.WalkExact | crates/mty-borrow/src/polonius.rs:339-445 | on every body the collected facts keep one loan a point and each invalidation after its loan; while the 32-bit counter does not wrap, one point a loan |
| PoloniusFacts.ErrorsAreInvalidations | crates/mty-borrow/src/polonius.rs:183-238 | on such facts rule 4 never fires, and the derivable errors are the recorded invalidations |
| PoloniusFacts.ReportIsExact | crates/mty-borrow/src/polonius.rs:473-499 | after solving, an error is reported for a loan and point if and only if the walk invalidated that loan there |
| PoloniusFacts.RootedIsQuiet | crates/mty-borrow/src/polonius.rs:447-465 | walking an operand that has a root introduces and invalidates nothing |
| PoloniusFacts.RootSpelled | crates/mty-borrow/src/polonius.rs:447-465 | the place string of every form of operand, segment by segment |
| PoloniusPaths.EmptyReportIsSafe | crates/mty-borrow/src/polonius.rs:339-445 | on covered bodies an empty report means that no path, with any number of rounds of every loop, moves a place string with a live loan; covered are bodies without empty matches, with no borrow or move in field and index operands, loop heads, guards and lambdas, where the pass does not look or looks once, and with no place both borrowed and moved in one loop |
| PoloniusPaths.PathCovered | crates/mty-borrow/src/polonius.rs:339-445 | on such bodies the pass knows every live place of every path, and records every bad move, by induction on the body and on the rounds; a path runs the body of a lambda where it is written |
| PoloniusPaths.MoveUnderFieldIsMissed | crates/mty-borrow/src/polonius.rs:349-445 | a whole body: `&x; (move y).f` records nothing, is not covered, and is a bad path if and only if `y` is the place that was borrowed |
| PoloniusPaths.MoveInLambdaIsMissed | crates/mty-borrow/src/polonius.rs:349-445 | a whole body: the same for `&x;` and a lambda that moves `y` |
| PoloniusPaths.SecondRoundIsMissed | crates/mty-borrow/src/polonius.rs:429-431 | a whole body: `loop { move y; &x; }` records nothing, is not covered if and only if `y` is the place that is borrowed, and is a bad path if and only if moreover it goes round twice |
| PoloniusPass.Check | crates/mty-borrow/src/polonius.rs:473-499 | the pass as run, on every body: its errors are exactly the invalidations of the walk; program points are unbounded here and 32-bit in the source, so one loan a point is shown only while that counter does not wrap |
| PoloniusPass.Collector.WalkExpr | crates/mty-borrow/src/polonius.rs:339-445 | the collecting walk on the object computes the fact function |
| PoloniusPass.Collector.FreshLoan | crates/mty-borrow/src/polonius.rs:122-127 | a fresh loan number, counted in 32 bits, and its entry |
| PoloniusPass.MergeLive | crates/mty-borrow/src/polonius.rs:396-427 | the join loop appends the live loans of both branches |
| Sendable.IsSendable | crates/mty-borrow/src/sendable.rs:17-19 | false exactly when a reference, raw pointer or function is reachable through tuple, array and non-Copy struct or enum fields, however cyclic the data types are |
| Sendable.Searcher.Inner | crates/mty-borrow/src/sendable.rs:21-71 | the search terminates, restores its visiting list and computes the recursive definition with path-local cycle cut |
| Sendable.FailureIsReal | crates/mty-borrow/src/sendable.rs:21-71 | a failed search has found a chain of parts to a carrier |
| Sendable.ChainIsFound | crates/mty-borrow/src/sendable.rs:21-71 | a chain that avoids the visiting list is found, although arrays are not on the list |
| Unification.Unify | impl-py/mty/typeck.py:390-446 | terminates from any acyclic substitution; success or failure, it keeps acyclicity and old bindings and brings in no new names |
| Unification.ApplyExtends | impl-py/mty/typeck.py:327-354 | resolving is idempotent and stays stable under every later extension |
| Unification.ApplyResolves | impl-py/mty/typeck.py:327-354 | a resolved type mentions no bound variable and no name from outside |
| Unification.BindAcyclic | impl-py/mty/typeck.py:357-376 | the occurs check is what keeps the substitution acyclic |
| UnificationProof.UnifySound | impl-py/mty/typeck.py:390-446 | after success the two types agree up to `TyAny`, mutability and nominal names, under the result and under every extension of it |
| UnificationAny.AgreeingUnifies | impl-py/mty/typeck.py:390-446 | the converse on all types: types that agree once resolved unify, and nothing is bound |
| UnificationAny.AnyAbsorbs | impl-py/mty/typeck.py:395-397 | `TyAny` on either side succeeds and leaves the substitution alone |
| UnificationAny.NothingBoundIff | impl-py/mty/typeck.py:390-446 | unification succeeds without binding anything if and only if the resolved types agree up to `TyAny`, mutability and nominal names |
| UnificationAny.CommonInstanceSuffices | impl-py/mty/typeck.py:390-446 | types with `TyAny` in them unify whenever some filling of their variables and of every `TyAny` makes them one type, and the result still allows that filling |
| UnificationProof.MostGeneral | impl-py/mty/typeck.py:390-446 | if any substitution within `s` equates two plain types, unification succeeds and that substitution respects every binding of the result |
| UnificationProof.Factors | impl-py/mty/typeck.py:327-354 | a substitution that respects the bindings factors through resolving |
| UnificationProof.UnifierExists | impl-py/mty/typeck.py:390-446 | conversely whatever respects the result equates the two types |
| UnificationProof.UnifiableIff | impl-py/mty/typeck.py:390-446 | success if and only if a unifier exists |
| UnificationProof.UnifyPlain | impl-py/mty/typeck.py:390-446 | plain inputs leave a plain substitution, failing or not |
| UnificationProof.OpenRecordRejected | impl-py/mty/typeck.py:357-376 | a variable in a record's fields makes the occurs check refuse a pair that nominal equality would accept, so the closed-record condition is needed |
| TypeCheckers.TypeChecker.UnifyTypes | impl-py/mty/typeck.py:390-446 | the mutating algorithm leaves exactly the outcome and substitution of the function, also when it fails half way |
| TypeCheckers.TypeChecker.UnifyPairs | impl-py/mty/typeck.py:413-424 | the loop over parameters or elements stops at the first failure and keeps earlier bindings |
| TypeCheckers.TypeChecker.UnifyOrReport | impl-py/mty/typeck.py:576-588 | a failure counts one error, a success leaves types that agree; it succeeds and binds nothing if and only if the resolved types agree already, `TyAny` with anything included |
| TypeCheckers.TypeChecker.Fresh | impl-py/mty/typeck.py:571-574 | fresh variables are consecutive |
| TypeCheckers.TypeChecker.Instantiate | impl-py/mty/typeck.py:1093-1141 | one fresh variable a scheme entry in order; the result is the resolved signature under that renaming |
| TypeCheckers.InstanceAvoidsScheme | impl-py/mty/typeck.py:1093-1141 | an instance mentions no unbound scheme variable |
| TypeCheckers.InstancesShareNothingGeneric | impl-py/mty/typeck.py:1093-1141 | two instances share only variables outside the scheme |
| TypeCheckers.InstanceIsRenaming | impl-py/mty/typeck.py:1093-1141 | an instance can be renamed back to the resolved signature |
| Leb128.EncodeUnsigned | impl-py/mty/codegen_wasm.py:91-104 | the byte loop computes the unsigned encoding |
| Leb128.EncodeSigned | impl-py/mty/codegen_wasm.py:107-121 | the byte loop with arithmetic shift computes the signed encoding |
| Leb128.ReadUnsigned | impl-py/mty/codegen_wasm.py:897-911 | the reading loop returns the value and the number of bytes |
| Leb128.UnsignedRoundTrip | impl-py/mty/codegen_wasm.py:897-911 | at any offset before any suffix the number and its length are read back |
| Leb128.UnsignedMeetsSpec | impl-py/mty/codegen_wasm.py:91-104 | the encoding is accepted by the grammar of section 5.2.2 of WebAssembly Core 1.0 with that value |
| Leb128.SignedMeetsSpec | impl-py/mty/codegen_wasm.py:107-121 | the same for signed integers |
| Leb128.UnsignedIsMinimal | impl-py/mty/codegen_wasm.py:91-104 | no accepted unsigned encoding of a number is shorter |
| Leb128.SignedIsMinimal | impl-py/mty/codegen_wasm.py:107-121 | no accepted signed encoding of a number is shorter |
| Leb128.FiveBytesAtMost | impl-py/mty/codegen_wasm.py:91-121 | 32-bit values take at most five bytes |
| WasmBinary.DecodeBytes | impl-py/mty/codegen_wasm.py:380-695 | the bytes of any emitted code decode to that code, its terminator and what follows |
| WasmBinary.ParseSections | impl-py/mty/codegen_wasm.py:874-893 | the loop returns the section list, stopping at a section that overruns |
| WasmBinary.FramedRoundTrip | impl-py/mty/codegen_wasm.py:234-236 | any list of framed sections is read back, whatever precedes it |
| WasmBinary.SectionsRoundTrip | impl-py/mty/codegen_wasm.py:874-893 | the header and any framed sections parse to those sections |
| WasmOpcodes.NumericCodes | impl-py/mty/codegen_wasm.py:166-227 | every arithmetic and comparison operator is written as the one byte to which section 5.4 of WebAssembly Core 1.0 gives its name |
| WasmOpcodes.ControlCodes | impl-py/mty/codegen_wasm.py:166-227 | the bytes of every control and variable instruction and of constants, literally |
| WasmSections.TypeBack | impl-py/mty/codegen_wasm.py:246-258 | a function type reads back as its number of i32 parameters and of results |
| WasmSections.ExportBack | impl-py/mty/codegen_wasm.py:809-818 | an export reads back as its name, kind and index |
| WasmSections.VecBack | impl-py/mty/codegen_wasm.py:124-126 | a vector of items that each read back reads back as their sequence |
| WasmGenProof.BinAgrees | impl-py/mty/codegen_wasm.py:572-603 | every binary operator, signed and wrapping, agrees with its machine instruction on representations, traps included |
| WasmGenProof.ExprCorrect | impl-py/mty/codegen_wasm.py:449-515 | running the code of an expression above any stack renders direct evaluation for every fuel: same value, same variables in their slots, same trap, same exit, one result exactly where one is expected |
| WasmGenProof.WhileCorrect | impl-py/mty/codegen_wasm.py:676-695 | the same for loops, by induction on the fuel, with break and continue |
| WasmGenProof.IfElseCorrect | impl-py/mty/codegen_wasm.py:657-674 | the same for conditionals with a value |
| WasmGenProof.BlockCorrect | impl-py/mty/codegen_wasm.py:380-390 | the same for blocks: names leave scope, slots stay |
| WasmGenProof.StmtCorrect | impl-py/mty/codegen_wasm.py:392-447 | the same for statements, shadowing and assignment included |
| WasmGenProof.FindAgrees | impl-py/mty/codegen_wasm.py:316-321 | looking a name up finds the same scope at compile time and at run time |
| WasmGenProof.HoldsDeclare | impl-py/mty/codegen_wasm.py:307-314 | a declared name gets a slot of its own, so no other variable changes |
| WasmFunction.FunctionCorrect | impl-py/mty/codegen_wasm.py:288-305 | for every function, arguments and fuel the call returns, traps or runs out exactly as the body does |
| WasmFunction.DivergeTogether | impl-py/mty/codegen_wasm.py:676-695 | either neither the call nor direct evaluation ever ends, or both have one result each, from the same fuel on and out of fuel below it, and the results agree |
| Fuel.ExecMore | impl-py/mty/codegen_wasm.py:676-695 | machine code that ends within a budget ends the same way within every larger one |
| Fuel.EvalMore | impl-py/mty/codegen_wasm.py:676-695 | the same for direct evaluation, eager and short-circuit |
| WasmFunction.LazyAgrees | impl-py/mty/codegen_wasm.py:572-603 | with pure right operands the eager code also gives the short-circuit meaning |
| WasmFunction.EagerIsLazyIff | impl-py/mty/codegen_wasm.py:572-603 | at a decided short-circuit operator, eager evaluation changes nothing if and only if the right operand completes with a boolean and leaves the variables alone |
| WasmFunction.EagerRightOperandShows | impl-py/mty/codegen_wasm.py:572-603 | a concrete right operand whose assignment happens although it should be skipped |
| WasmFunction.ValuelessStatementUnderflows | impl-py/mty/codegen_wasm.py:698-712 | a statement that leaves no value but is dropped underflows whenever it completes |
| WasmFunction.BreakUnderIfLoops | impl-py/mty/codegen_wasm.py:492-515 | a break under an `if` names the wrong label: the body stops, the emitted code never does |
| FnEmitters.FnEmitter.constructor | impl-py/mty/codegen_wasm.py:288-305 | parameters take the first slots in one scope |
| FnEmitters.FnEmitter.DeclareName | impl-py/mty/codegen_wasm.py:307-314 | the next slot goes to the name in the innermost scope |
| FnEmitters.FnEmitter.Lookup | impl-py/mty/codegen_wasm.py:316-321 | the scan from the inside out finds the innermost slot |
| FnEmitters.FnEmitter.EmitExpr | impl-py/mty/codegen_wasm.py:449-515 | appends exactly the bytes of the compiled expression and leaves the compiled scopes |
| FnEmitters.FnEmitter.EmitBinary | impl-py/mty/codegen_wasm.py:572-603 | the same for binary operators |
| FnEmitters.FnEmitter.EmitUnary | impl-py/mty/codegen_wasm.py:605-627 | the same for unary operators |
| FnEmitters.FnEmitter.EmitIf | impl-py/mty/codegen_wasm.py:657-674 | the same for conditionals |
| FnEmitters.FnEmitter.EmitWhile | impl-py/mty/codegen_wasm.py:676-695 | the same for loops, block and loop labels included |
| FnEmitters.FnEmitter.EmitBlock | impl-py/mty/codegen_wasm.py:380-390 | the same for blocks, scope pushed and popped |
| FnEmitters.FnEmitter.EmitStmt | impl-py/mty/codegen_wasm.py:392-447 | the same for statements |
| FnEmitters.FnEmitter.Encode | impl-py/mty/codegen_wasm.py:339-373 | the code entry: size, extra locals, code, end |
| FnEmitters.EntryRoundTrip | impl-py/mty/codegen_wasm.py:339-373 | reading an entry gives back its extra locals and its code |
| FnEmitters.EmittedBytesCorrect | impl-py/mty/codegen_wasm.py:339-373 | from bytes to meaning: reading an emitted entry and running it computes what the function means |
| FnEmitters.CollectTypes | impl-py/mty/codegen_wasm.py:779-790 | the signature table holds each signature once and each function's index points at its own |
| FnEmitters.EmitModule | impl-py/mty/codegen_wasm.py:770-844 | within the 32-bit limits, a reader of the module with literal bytes finds the header and sections 1, 3, 5, 7 and 10 in order; the type at the index of function `i` has its parameters and result; the memory has one page at least; export `i` is function `i` under its name, and the last one is the memory; and running entry `i` of the code computes what function `i` means; outside the limits the sections are framed just so |
| FnEmitters.SectionsBack | impl-py/mty/codegen_wasm.py:777-828 | the five payloads read back to what the functions ask for, from any table that gives every function its own signature |
| FnEmitters.SignaturesBack | impl-py/mty/codegen_wasm.py:777-794 | the type at the index of function `i` is read back with its own number of parameters and its result |
| FnEmitters.ExportsBack | impl-py/mty/codegen_wasm.py:809-818 | export `i` is read back as the name of function `i`, the kind of a function and number `i`, and the last as the memory |
| FnEmitters.SectionReads | impl-py/mty/codegen_wasm.py:820-828 | the vector of code entries, each cut at its stated size, reads back to the code and extra locals of every function in order |
| FnEmitters.EmitCodes | impl-py/mty/codegen_wasm.py:820-828 | one entry a function, in order |
| Lexers.LexText | impl-py/mty/lexer.py:861-867 | for every text the lexer ends; from the start of the normalised source every token has the form of its kind, nothing longer and nothing of another kind stands there, skipped characters are those with which no token begins, and the reports are those that the forms ask for; tokens and reports tile the source in order, each token holds its slice, and the texts make up the source if and only if no character was unknown |
| LexicalForms.LexedOnce | impl-py/mty/lexer.py:330-406 | a source has one such sequence of tokens and reports, so they fix the lexer completely |
| LexicalProof.NextIsBest | impl-py/mty/lexer.py:336-406 | the token at any position is the longest form that stands there, of the only kind that fits it, with the reports of that form |
| LexicalProof.LexIsLexed | impl-py/mty/lexer.py:330-334 | so are all tokens from any position to the end |
| LexicalScans.BlockDecides | impl-py/mty/lexer.py:432-455 | the scan of a block comment finds the end of a balanced comment, or there is none |
| LexicalScans.StringDecides | impl-py/mty/lexer.py:459-503 | the scan of a string finds the quote that no escape covers, or there is none |
| LexicalScans.HtmlDecides | impl-py/mty/lexer.py:566-604 | the same for html blocks, with braces and strings nested in them |
| LexicalScans.RawDecides | impl-py/mty/lexer.py:505-535 | the same for raw strings, with as many hashes at the end as at the start |
| LexicalScans.CharDecides | impl-py/mty/lexer.py:606-645 | the same for character literals |
| LexicalNumbers.NumberFits | impl-py/mty/lexer.py:647-764 | a scanned number has the form of its kind |
| LexicalNumbers.NumberMost | impl-py/mty/lexer.py:647-764 | no form of a number that stands there is longer, and none of another kind as long |
| LexicalNumbers.CountsOfBytes | impl-py/mty/lexer.py:665-704 | digits and a `B` that no name character follows are one token, a size if and only if the digits are not a single zero: `0B` is an integer without digits |
| LexicalNumbers.NumberNotes | impl-py/mty/lexer.py:647-764 | misplaced underscores are reported if and only if two stand together or one ends a run of digits |
| Lexical.LexTiles | impl-py/mty/lexer.py:330-406 | from any position, tokens and unknown characters follow one another without gap or overlap to the end |
| Lexical.TextsRebuild | impl-py/mty/lexer.py:152-163 | concatenating the tokens gives the source back exactly when no character was unknown |
| Lexical.LongestPunct | impl-py/mty/lexer.py:782-853 | the punctuation found is the longest that stands there, over all three tables |
| Lexical.NameIsLongest | impl-py/mty/lexer.py:766-779 | a name ends only where no name character follows, and consists of such characters |
| Lexical.UnixLeavesPairs | impl-py/mty/lexer.py:285-306 | after normalisation a CRLF is left if and only if the text had a CR before a CRLF |
| Lexical.UnixFirst | impl-py/mty/lexer.py:285-306 | the first CRLF becomes one line feed, and what is before it stays |
| Lexers.Lexer.Run | impl-py/mty/lexer.py:330-334 | the loop appends exactly the tokens and reports of the source from the cursor on |
| Lexers.Lexer.Step | impl-py/mty/lexer.py:336-406 | one step makes the token at the cursor, or reports an unknown character |
| Lexers.Lexer.LexBlockComment | impl-py/mty/lexer.py:432-455 | the scan ends where nesting returns to zero, or at the end with a report |
| Lexers.Lexer.TryLexRawString | impl-py/mty/lexer.py:505-535 | a raw string runs to a quote with as many hashes; without an opening quote the cursor goes back |
| Lexers.Lexer.LexNumber | impl-py/mty/lexer.py:647-723 | base, fraction, exponent and suffix decide the kind and the end of a number |
| PrattProof.RoundTrip | impl-py/mty/parser.py:1032-1055 | printing any tree of operators, prefixes, tuples and postfix forms and parsing it gives the tree back with no token left |
| PrattProof.RoundTripInContext | impl-py/mty/parser.py:1032-1055 | the same before any token that ends an expression |
| PrattProof.ExprBack | impl-py/mty/parser.py:1035-1055 | parsing a tree printed for power `m` resumes the operator loop with that tree in hand, at any lower minimum |
| PrattProof.ParensBack | impl-py/mty/parser.py:1261-1277 | a parenthesised tree is the tree |
| PrattProof.TupleBack | impl-py/mty/parser.py:1261-1277 | tuples of any length come back, the one-element tuple by its comma |
| PrattProof.FormBack | impl-py/mty/parser.py:1127-1220 | every modelled postfix form comes back |
| PrattTiers.TiersAreThePowers | impl-py/mty/parser.py:67-83 | the eleven tiers of operators, listed apart from the table, hold exactly the symbols with a power, each at its own |
| PrattTiers.ThreeNames | impl-py/mty/parser.py:1035-1055 | for all operators `s` and `t`, `a s b t c` is `a s (b t c)` if `t` is of a tighter tier, and `(a s b) t c` otherwise |
| PrattTiers.ChainParses | impl-py/mty/parser.py:1035-1055 | any chain of operands and operators parses to the tree that grouping by tiers gives, from the left within a tier |
| PrattTiers.GroupedParses | impl-py/mty/parser.py:1035-1055 | every tree grouped by the tiers is what its operands and operators without parentheses parse to |
| PrattTiers.Prefixes | impl-py/mty/parser.py:1057-1069 | which prefix operator each symbol is |
| PrattTiers.CallForms | impl-py/mty/parser.py:1127-1220 | calls, macros, methods, asks and sends, token by token |
| PrattTiers.NewLineEndsAsk | impl-py/mty/parser.py:1177-1220 | a word on the next line is no message: the question mark stands alone |
| PrattTiers.Errors | impl-py/mty/parser.py:1239-1277 | where the parser gives the error node and where it raises |
| PrattMinimal.PrintIsShortest | impl-py/mty/parser.py:1032-1069 | no token sequence that parses to a tree is shorter than its printed form, so no parenthesis could be left out |
| PrattMinimal.ParseFits | impl-py/mty/parser.py:1035-1055 | a parse never uses fewer tokens than printing its result at that power takes |
| PrattMinimal.ParseHalts | impl-py/mty/parser.py:1035-1055 | the loop stops only where no operator of the minimum power and no postfix form follows |
| Parsers.Parser.ParseExprBp | impl-py/mty/parser.py:1035-1055 | the cursor method and its loop compute the grammar's result and position, or raise where it raises |
| Parsers.Parser.ClimbFrom | impl-py/mty/parser.py:1038-1055 | the operator loop itself |
| Parsers.Parser.ParseUnary | impl-py/mty/parser.py:1057-1069 | prefix operators, with the `mut` of a reference |
| Parsers.Parser.ParseAtom | impl-py/mty/parser.py:1239-1277 | atoms, the unit, parentheses, and the error node that eats one token |
| Parsers.Parser.ParseTupleRest | impl-py/mty/parser.py:1266-1277 | the comma loop up to the closing parenthesis |
| Parsers.Parser.ParsePostfix | impl-py/mty/parser.py:1127-1220 | the postfix loop |
| Parsers.Parser.ParseCallArgs | impl-py/mty/parser.py:1229-1237 | the argument loop, with a trailing comma |
| Parsers.ParsePrinted | impl-py/mty/parser.py:1032-1033 | running the parser on a printed tree returns it with the cursor at the end |
| Parsers.PrefixBeforePostfix | impl-py/mty/parser.py:1057-1069 | a prefix operator binds tighter than any postfix form: `-x.f` is `(-x).f` |
| Layouts.AlignUpIsLeast | crates/mty-codegen-cranelift/src/layout.rs:126-129 | rounding up gives the least multiple of the alignment that is not below the value |
| Layouts.TupleOffset | crates/mty-codegen-cranelift/src/aggregate.rs:131-145 | the loop computes the offset function, or nothing for an index out of range |
| Layouts.MaxPayloadAlign | crates/mty-codegen-cranelift/src/aggregate.rs:147-156 | the two loops compute the largest alignment of any field |
| Layouts.VariantFieldOffset | crates/mty-codegen-cranelift/src/aggregate.rs:92-123 | the offset of a field from the start of the aggregate, behind the tag of an enum, or nothing out of range |
| Layouts.LayoutStruct | crates/mty-codegen-cranelift/src/layout.rs:112-124 | the loop computes the reserved size and alignment |
| Layouts.FieldsArePacked | crates/mty-codegen-cranelift/src/layout.rs:112-129 | every field lies at the least multiple of its alignment behind the one before it |
| Layouts.SizeIsLeast | crates/mty-codegen-cranelift/src/layout.rs:112-129 | the size is the least multiple of the alignment that holds the last field, and the alignment is the largest of a field |
| Layouts.PayloadStartIsLeast | crates/mty-codegen-cranelift/src/aggregate.rs:92-123 | the payload of an enum starts at the least aligned offset behind the 4-byte tag |
| Layouts.FieldsAreDisjoint | crates/mty-codegen-cranelift/src/aggregate.rs:92-145 | fields lie in order and no two overlap |
| Layouts.FieldIsAligned | crates/mty-codegen-cranelift/src/aggregate.rs:92-156 | every field of every variant is aligned from the start of the aggregate, and behind the 4-byte tag of an enum |
| Layouts.FieldIsReserved | crates/mty-codegen-cranelift/src/layout.rs:66-108 | every field at its offset ends inside the size that the layout pass reserves, for every variant, although the two compute the start of a payload separately |
| Layouts.FieldsLieWithin | crates/mty-codegen-cranelift/src/layout.rs:112-124 | the same for a tuple or struct, whose size is a multiple of its alignment |
| Layouts.NothingWraps | crates/mty-codegen-cranelift/src/aggregate.rs:92-145 | while the reserved size with one rounding fits 32 bits, no step of the computation leaves them |

## Left out

- FlowTheorems.NoUseAfterMove: asks that the type tables call no non-Copy type Copy, that a `let` without a value has a Copy type, and that lambdas move no local around them; the whole bodies show that it fails otherwise, and the lemmas say exactly when. A plain use of a local moves nothing, as in the checker; only `move` and `return` do.
- FlowTheorems.AliasingXorMutability: is about borrows being taken, which is what the checker looks at. Using or assigning a borrowed local takes none, and neither does copying a reference, so two names may hold one mutable borrow; places are told apart by their local, so what is borrowed through one copy of a reference is not compared with what is borrowed through another. It asks that no borrow was refused, and excludes exactly the ways of losing a record that the whole bodies show.
- FlowTheorems.NoDangling: a scope's end goes wrong when a name outside it that is read later holds the borrow; the value of the block itself and what a call or a store outside the body may keep are not followed out of the scope.
- FlowTheorems.NoMoveWhileBorrowed: leaves out bodies that move a local while a borrow of it lives that was taken by passing it by reference or as a receiver, or across a branch, an arm, a lambda or an assignment; the whole bodies show how branches and assignments lose the mark, and exactly when.
- FlowTheorems.AcceptedIsSafe: events happen in the checker's order, which resets an assigned local before its right side is walked; compound assignment has the same order.
- CheckBody.CheckFnBody: claims nothing for bodies with loops, guards or rebound names; parameters come as names with their recorded types.
- FlowPaths.Run: says what may happen. Code after a `return` still runs, so a real path is a prefix of the modelled one; an operand may reach every other operand; operands stay borrowed to the end of the statement, not only of the call; a name that is no local may stand for anything outside the body; a lambda is called by every call that it may reach. A method's receiver is taken to be shared, as the checker takes it, and which types can hold a borrow or a lambda is given with the names.
- PoloniusPaths.PathCovered: runs the body of a lambda where it is written and not where it is called; covered bodies have lambdas in which nothing is borrowed or moved. A loop that borrows and moves one place is left out, as the whole body of the second round shows.
- PoloniusPass.Check: program points are unbounded, where the source counts them in 32 bits.
- Layouts.VariantFieldOffset: takes the layouts of the fields as given and computes in unbounded integers; clearing the low bits with a mask is modelled as rounding down to a multiple.
- Flow.Walk: does not model `if let`, `while let`, sends, agents, arenas, budgets, sandboxes, `?`, deadlines and `break` with a value, nor the drop plan and the diagnostics for arena escape and sendability.
- BorrowCheckers.BorrowCx.WalkExpr: walks the same expressions as `Flow.Walk`; diagnostics carry a kind and a name, not their text or span.
- TypeCheckers.TypeChecker.UnifyOrReport: counts diagnostics and does not model their text.
- UnificationProof.MostGeneral: is about types without `TyAny`, with records whose fields hold no variables and nominal types compared by name, because outside these unification is deliberately loose; what it does with `TyAny` is in the rows on `UnificationAny`.
- WasmGenProof.ExprCorrect: is about bodies that use a value exactly where one is expected and exits not under an `if`; the shapes outside are shown to go wrong by the lemmas on valueless statements and breaks.
- FnEmitters.FnEmitter.EmitExpr: does not emit calls, strings, floats, data types or unknown callees; integer overflow in Mighty source is taken to wrap, as the machine does.
- Parsers.Parser.ParseUnary: takes keyword-led expressions as opaque atoms.
- Parsers.Parser.ParseAtom: takes arrays, blocks and struct literals as opaque atoms.
- Parsers.Parser.ParsePostfix: turbofish and `::` segments are not among the modelled tokens.
- FnEmitters.EmitModule: what the bytes of a module mean is stated for modules with names, parameter lists, bodies and a number of functions within the 32-bit limits of the format.
- Lexers.LexText: which characters outside ASCII are letters is a parameter; messages are not modelled, and the spans are those of the normalised source.
- Path safety of loops in the borrow checker: the loop analysis need not walk the body again after a move, and every further pass moves the points on; what a loop does to them is proved exactly, with a body that is accepted because of it, and only the invariant of the walk is proved of loops beyond that.
- Match guards in the path theorems: a guard that fails goes on to later arms with its effects, which the walker does not follow.
- Items, types, patterns, statements and error recovery of the parser, and the Go and Python duplicates of these passes.
