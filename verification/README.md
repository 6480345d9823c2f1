# Verbose: what the verifier and the optimizer promise

A Dafny model of the Verbose compiler's expression language and of the analyses
and transformations that make claims about it. One abstract syntax (`Ast`) and
one reference evaluator (`Interp`) are shared by everything else:

- the strict overflow checker (`IntervalArith`, `Ranges`, `NumericBounds`,
  `NumericSound`, `NumericCheck`, `NumericObject`, `Participation`), what it
  tells callers (`NumericModular`), which rules it accepts (`RangesTight`,
  `NumericExact`, `NumericGuarded`) and the optimizer's own analysis of the same
  ranges (`RangesAgree`);
- the bounded-result obligation checker (`BoundedPaths`, `BoundedRuns`,
  `BoundedSound`, `BoundedCheck`, `BoundedObject`, `CallCycles`) and what it
  accepts (`BoundedTyped`);
- the HTTP framing automaton and its line-based reference (`HttpDfa`,
  `HttpDriver`, `HttpReference`, `HttpSound`, `HttpLines`, `HttpRefines`), and
  the grammar of requests both complete on (`HttpGrammar`);
- the optimizer and the lowering to native scalars (`Refinement`,
  `Substitution`, `Inlining`, `Optimizer`, `OptimizerSound`,
  `OptimizerPreserves`, `OptimizerNormal`, `Lowering`, `Guarantees`);
- the constructor type facts (`Facts`, `Constructors`, `ConstructorSound`,
  `ConstructorObject`, `ConstructorTyped`);
- the laws of the evaluator's forms (`EvalLaws`, `ScalarLaws`);
- the front end (`Tokens`, `Escaping`, `Lexer`, `LexerSpelling`,
  `LexerLayout`, `Parsing`, `ParsingLayout`, `ParsingForms`, `ParsingShapes`,
  `ParsingProductions`, `ParsingTrip`, `ParsingAggregates`, `ParsingImage`,
  `ParserObject`, `FoldSugar`, `Weakening`).

`dafny verify dfyconfig.toml` checks all of it.

## How the evaluator is read

`Eval` takes the nesting of rule calls it may still make (`k`); a run that needs
more ends in Timeout, so a statement for all `k` is a statement about every
run. `Sem` selects the reading: whether arithmetic wraps, whether booleans are
the numbers 0 and 1, and which monitor watches the run. A monitor turns what a
statement excludes into a visible outcome: `Types` makes a value that crosses a
rule boundary outside its declared type Stuck and an ill-formed construction
IllFormed; `Lowering` makes a number outside its declared field range at rule
entry, or a boolean printed by concat, Stuck. `Guarantees.MonitorErased` shows
that a monitor changes nothing else.

Where the code works by updating state, the model has a class whose methods are
proved against specification functions (`NumericObject.Check`,
`BoundedObject.Check`, `ConstructorObject.Checker`, `Lexer.Lexer`,
`ParserObject.Parser`) or a method with the loop (`HttpDfa.BuildTable`,
`HttpDriver.Receive`, `Inlining.InlineTextLets`, `Participation.Close`,
`Ranges.CollectInPlace`, `Escaping.EscapeJson`).

## Hypotheses stated in the theorems

- `OptimizerPreservation` and `SourceToNative` need `RuleUndisturbed`: wherever a
  let, lambda or match binder reuses the input's name, the declared ranges of
  the input decide no rewrite. Rules that never reuse the name meet it
  (`NeverRebound`). `RebindingBreaks` gives a rule outside it that the optimizer
  changes, and `RebindingExact` says of a whole family of rules exactly when
  their result changes. A decision made for the wrong record can still be
  right, so the condition is sufficient and not necessary.
- The same two theorems promise nothing of a run that goes wrong, that is, ends
  in Stuck or IllFormed: an unbound name, a missing field or a type mismatch,
  which the verifier excludes and an optimizer may discard. `DiscardTyped` and
  `StaticEvalTyped` show that discarding loses nothing of a well-typed
  expression.
- Inlining is exact, failures included (`SubstEqual`, `InlinedEqual`), where no
  `try_byte_at` has a name as its table. The interpreter takes only a literal
  there, so replacing the name changes the outcome (`NamedTableDiffers`); the
  optimizer inlines no rule that uses `try_byte_at` (`InlinedOutsideContract`).
- `PrintedBoolDiffers` shows why a printed boolean is excluded: comparisons
  fold to digits.
- `ObligationSoundness` needs that a rule under the contract that uses the bare
  names `true` or `false` has an input called otherwise (`NamedInputEscapes`);
  `Progress` that no such rule uses them, since the analysis types them and the
  evaluator has no binding for them (`BareNameGoesWrong`). Rules outside the
  contract are not restricted.
- `ConstructorSoundness` needs that no concept is named like a scalar type, a
  name `parse_type` never yields as a concept (src/parser.rs:463-488), and that
  payload fields of a variant differ in name (src/parser.rs:388).
- The escape round trips hold exactly for ASCII text; a byte above 127 is cast
  to a code point and becomes two bytes (src/optimizer.rs:1052-1066).
- The overflow theorems need that text capacities are declared on text outputs
  only (src/parser.rs:583-587).
- `PrintParse` is about printable expressions: no literal is negative, only a
  path has fields, a name is not a keyword, a call is not to a builtin, a concat
  has operands and no binder is the underscore. `ParseShows` proves that the
  parser returns nothing else, except the least number that seeds a max fold.
- Acceptance by the overflow checker is characterised (`AcceptedExactly`) for
  rules without lets or calls over distinct field names, whose conditionals
  order an input field against a literal and can take both arms, and whose
  arithmetic (`+`, `-`, `*`, unary minus, min, max, division by a literal) reads
  no field twice. Elsewhere an interval analysis refuses rules that never fail:
  it forgets how two readings of a field hang together, and it analyses an arm
  no input reaches. With calls, `CallersUnaffected` replaces the callee.
- Acceptance of bounded results is characterised (`AcceptedTyped`) where no let
  keeps a result. A let may keep one that a later match discharges; such rules
  are covered by the soundness theorems only.
- `TypedEstablished` is one-sided: the constructor checker also passes rules
  that build nothing and have no type.
- The automaton may refuse an incomplete head earlier than the line parser,
  which waits for the blank line; completion is the same for both.

## Model

| member | source | states |
|---|---|---|
| `IntervalArith.ArithmeticSound` | src/numeric_bounds.rs:294-329 | an accepted interval operation, for all five operators, is defined on every pair of members (no overflow, zero divisor or MIN / -1) and every result lies in the computed interval |
| `IntervalArith.EndpointsAttained` | src/numeric_bounds.rs:294-329 | each endpoint except a remainder's is the exact result at some corner of the two intervals |
| `IntervalArith.RefusalIsReal` | src/numeric_bounds.rs:294-329 | for all five operators, a refused interval operation has a pair of members on which the operation really faults |
| `IntervalArith.ArithmeticExact` | src/numeric_bounds.rs:290-329 | an interval operation is accepted if and only if the operation is defined on every pair of members |
| `IntervalArith.DefinedEvaluates` | src/interpreter.rs:369-423 | the evaluator returns the exact result of every defined operation, checked or wrapping |
| `Ranges.MergeExact` | src/numeric_bounds/ranges.rs:34-66 | merging sorted intervals keeps exactly their members, separated and nonempty |
| `Ranges.CollectCovers` | src/numeric_bounds/ranges.rs:34-66 | collecting pieces into at most two intervals loses no member |
| `Ranges.CollectTight` | src/numeric_bounds/ranges.rs:34-66 | up to two nonempty pieces are collected without gaining a member |
| `Ranges.CollectInHull` | src/numeric_bounds/ranges.rs:34-66 | collecting never leaves the hull of the pieces |
| `Ranges.CollectInPlace` | src/numeric_bounds/ranges.rs:34-66 | filling, sorting and merging one array of four slots computes the collected domain |
| `Ranges.MergeInPlace` | src/numeric_bounds/ranges.rs:34-66 | the in-place merge loop leaves the merged intervals in the front of the array |
| `Ranges.JoinCovers` | src/numeric_bounds/ranges.rs:68-71 | a join holds the members of both sides |
| `Ranges.DomainArithSound` | src/numeric_bounds/ranges.rs:97-105 | arithmetic on two-interval domains is defined on all member pairs and covers their results |
| `Ranges.DomainRefusalIsReal` | src/numeric_bounds/ranges.rs:79-105 | a refused domain operation really faults on some pair of members |
| `Ranges.RepeatedSound` | src/numeric_bounds/ranges.rs:106-137 | x op x is defined and covered, member by member, when one scalar is both operands |
| `Ranges.NegSound` | src/numeric_bounds.rs:246-253 | negation of a domain is defined on every member and covers the results |
| `Ranges.AbsSound` | src/numeric_bounds.rs:246-253 | absolute value of a domain is defined on every member and covers the results |
| `Ranges.MinMaxSound` | src/numeric_bounds.rs:254-260 | min and max of two domains cover the results of every pair |
| `Ranges.RestrictExact` | src/numeric_bounds/ranges.rs:169-200 | restricting a domain by a comparison with a literal keeps exactly the members that satisfy it, up to the two-interval capacity |
| `Ranges.ConstrainSound` | src/numeric_bounds/ranges.rs:138-168 | the projection of a comparison between two domains keeps every member that takes part in a true comparison |
| `NumericBounds.AssumeOk` | src/numeric_bounds/guards.rs:92-139 | branch facts keep the scope well formed and change only recorded domains |
| `NumericSound.AssumeSound` | src/numeric_bounds/guards.rs:103-139 | a condition that evaluates to a truth value never empties the facts assumed for it, and every environment in which it does still satisfies them |
| `NumericSound.CompareSound` | src/numeric_bounds/guards.rs:103-139 | both operand projections of a comparison that holds are recorded soundly |
| `NumericSound.BranchSound` | src/numeric_bounds/guards.rs:92-102 | the facts of a branch hold in every environment that takes it |
| `NumericSound.ExprSound` | src/numeric_bounds.rs:205-285 | an accepted expression evaluates without any fault to a value of its computed domain, through lets, branches and nested calls |
| `NumericSound.IfSound` | src/numeric_bounds.rs:231-244 | a conditional evaluates inside the join of its arms, each analysed under its branch facts |
| `NumericSound.CallEntry` | src/numeric_bounds.rs:276-282 | a caller's own input passes the entry guard of every callee on the same concept |
| `NumericSound.RuleSound` | src/numeric_bounds.rs:140-204 | an accepted rule entered through its guard returns a value of its summary, inside its declared overflow range |
| `NumericCheck.OverflowSoundness` | src/numeric_bounds.rs:123-285 | whole programs: an accepted rule, entered with any value, refuses it at its own guard or returns a scalar in its declared range; nothing overflows, divides by zero, computes MIN / -1, fails a nested guard or exhausts the call depth |
| `NumericCheck.RuleMono` | src/numeric_bounds.rs:123-204 | the plain recursion does not depend on its call budget once it succeeds |
| `NumericCheck.CircularRejected` | src/numeric_bounds.rs:123-139 | a rule whose acceptance rests on itself is never accepted |
| `NumericCheck.RuleRank` | src/numeric_bounds.rs:276-282 | every rule an accepted rule calls is accepted with a smaller budget, so the budget ranks the call graph |
| `NumericObject.Check.constructor` | src/numeric_bounds.rs:105-122 | a new checker has an empty memo table and nothing being visited |
| `NumericObject.Check.VisitRule` | src/numeric_bounds.rs:123-139 | any outcome but a work limit is that of the plain recursion, and a limit is reported only past 100000 steps or in a program with 128 rules or an expression deeper than 256 levels; `visiting` is restored on success and failure, the memo table only grows and stays callee-closed |
| `NumericObject.Check.VisitInner` | src/numeric_bounds.rs:140-204 | the rule body: same outcome as the plain recursion, and every callee of an accepted rule is cached |
| `NumericObject.Check.VisitLets` | src/numeric_bounds.rs:173-179 | the let loop computes the locals of the plain recursion, or the rule is rejected |
| `NumericObject.Check.VisitExpr` | src/numeric_bounds.rs:205-285 | the memoising walk agrees with the plain recursion on every expression, in any visiting order; a limit is reported only when one is exceeded |
| `NumericObject.Check.VisitUnary` | src/numeric_bounds.rs:245-253 | an unsupported one-argument builtin is refused before its operand is visited: no step is counted and nothing is cached |
| `NumericObject.Check.VisitPrim` | src/numeric_bounds.rs:254-260 | the same for two-argument builtins other than min and max |
| `NumericObject.Check.VisitCall` | src/numeric_bounds.rs:276-282 | a call is answered from the callee's summary; a callee being visited is a cycle and refuses |
| `NumericObject.VerifyRules` | src/numeric_bounds.rs:331-345 | one checker over all participating rules: each verdict is that of the plain recursion, or a limit that the program or the step count really exceeds |
| `Participation.Close` | src/numeric_bounds.rs:25-57 | the closure loop terminates and returns exactly the names joined to a seed by calls followed in either direction |
| `Participation.Pass` | src/numeric_bounds.rs:36-55 | one sweep adds only joined names, and a sweep that changes nothing proves closure |
| `Participation.Participating` | src/numeric_bounds.rs:25-64 | the rules under the overflow contract are exactly those joined to a contract rule |
| `BoundedCheck.ActiveRules` | src/bounds.rs:30-69 | the rules under the bounded-result contract are exactly those joined by calls to a rule that uses try_byte_at or mentions BoundsError |
| `CallCycles.CycleFound` | src/bounds.rs:410-419 | the depth-first search answers true exactly when a call cycle can be reached from the rule |
| `CallCycles.CallDescends` | src/bounds.rs:410-419 | each call of a rule without reachable cycles leaves strictly fewer rules to enter |
| `BoundedPaths.Explore` | src/bounds.rs:114-322 | every path leaves the environment as it found it, also after match binders that hide a name, and the token counter never decreases |
| `BoundedPaths.ExploreMatches` | src/bounds.rs:195-226 | both arms of a match are explored from each scrutinee path with the old bindings put back |
| `BoundedObject.Check.Value` | src/bounds.rs:89-98 | a bounded result gets the next token and becomes pending; any other value changes nothing |
| `BoundedObject.Check.Typed` | src/bounds.rs:99-113 | the states after an operand, exactly when it has the wanted type on every path |
| `BoundedObject.Check.Explored` | src/bounds.rs:114-322 | the checker's loops and counters compute exactly the paths of the specification, or run out of steps; the limit is reported exactly when the step counter passes 100000 |
| `BoundedObject.Check.Pairs` | src/bounds.rs:245-268 | the right operand from each state, with the skipping path of a short-circuit operator |
| `BoundedObject.Check.Matches` | src/bounds.rs:195-226 | the match loop: discharges the scrutinee's token and explores both arms |
| `BoundedObject.Check.Run` | src/bounds.rs:425-457 | the path loop of a rule answers exactly whether every path of lets and output has the declared type and leaves nothing pending but the returned value |
| `BoundedObject.Verify` | src/bounds.rs:325-467 | the concepts reported are exactly those that are called BoundsError or store one; a rule is reported exactly when it misuses BoundsError or fails the checks of the contract, unless it ran out of steps; with no report the whole program is accepted and BoundsError is reserved |
| `BoundedCheck.BoundsErrorReserved` | src/bounds.rs:345-383 | where nothing is reported about declarations, no well-typed input contains a bounds error at any depth, and a well-typed output is free of them or is the error of a bounded result |
| `BoundedRuns.RuleForgets` | src/interpreter.rs:296-337 | the evaluator instrumented with a ledger of created and matched results, threaded through nested calls, is the evaluator once the ledger is forgotten |
| `BoundedRuns.TraceForgets` | src/interpreter.rs:339-849 | the same for every expression, environment and ledger |
| `BoundedSound.IssueSim` | src/bounds.rs:89-98 | creating a result in the run is creating a fresh token on the path, under an injective renaming |
| `BoundedSound.MatchSim` | src/bounds.rs:195-202 | matching a result discharges exactly its token |
| `BoundedSound.ExprSim` | src/bounds.rs:114-322 | every run of an explored expression is simulated by one of its paths up to an injective renaming of tokens, or ends in an allowed fault |
| `BoundedSound.MatchResultSim` | src/bounds.rs:195-226 | the simulation through a match, its binders and the shadowing they undo |
| `BoundedSound.BinarySim` | src/bounds.rs:245-268 | the simulation through operators, short-circuit paths included |
| `BoundedCheck.ObligationSoundness` | src/bounds.rs:89-322 | in an accepted program every successful run of a contract rule has matched or returned each result created anywhere in its call tree, has its declared type, and never exhausts one call level per rule |
| `BoundedSound.ReturnSim` | src/bounds.rs:227-244 | a callee's result, with the number the callee gave it, is a fresh token of the caller's path; all other results of the callee are matched |
| `BoundedCheck.Progress` | src/bounds.rs:99-322 | without the bare names true and false, a contract rule on an admitted numeric input delivers its declared type or stops with an arithmetic fault or an out-of-range byte_at |
| `BoundedCheck.BareNameGoesWrong` | src/bounds.rs:123-135 | a rule that uses the bare name true is accepted, and every run of it goes wrong |
| `BoundedCheck.NamedInputEscapes` | src/bounds.rs:123-135 | a bool rule whose input is called true and that uses the bare name is accepted, and returns its input record |
| `HttpDfa.BuildTable` | src/http_framing.rs:17-123 | the table built in place, phase by phase, is the transition function, entry by entry |
| `HttpDfa.AddName` | src/http_framing.rs:61-82 | adding one known header name overwrites exactly its chain of rows, for both letter cases |
| `HttpDfa.HeaderRows` | src/http_framing.rs:26-45 | rows for header names, values and line ends |
| `HttpDfa.LengthRows` | src/http_framing.rs:46-60 | rows for the Content-Length value |
| `HttpDfa.TargetRows` | src/http_framing.rs:83-105 | rows for the target and the version |
| `HttpDfa.MethodRows` | src/http_framing.rs:106-121 | rows for a method of one to eight token bytes |
| `HttpDriver.Receive` | src/native/http_io.rs:150-290 | the receive loop over the built table: each receive takes what fits the buffer, the scan goes on where it stopped, the header is scanned once, and an end of the connection refuses; its verdict is that of the session specification |
| `HttpDriver.AnySplit` | src/native/http_io.rs:150-290 | however a request is cut into receives, the verdict is that of its bytes taken at once |
| `HttpDriver.EndedEarly` | src/native/http_io.rs:203-209 | a connection that ends is refused unless the bytes before decided the request, and then their verdict stands |
| `HttpDriver.VerdictStays` | src/native/http_io.rs:150-290 | a verdict other than More is the verdict of every longer input |
| `HttpDriver.ScanIsRun` | src/native/http_io.rs:150-290 | a scan is the run over the bytes it consumed; it stops early only when finished |
| `HttpReference.DecimalLoop` | src/http_framing.rs:196-211 | the digit loop accumulates with a capacity check at each step |
| `HttpReference.HeaderLoop` | src/http_framing.rs:170-214 | the header loop folds the lines, refusing a second Content-Length |
| `HttpReference.Parse` | src/http_framing.rs:135-223 | the line-based parser with its loops gives the reference verdict |
| `HttpSound.DigitRun` | src/http_framing.rs:46-60 | on a Content-Length value the automaton accumulates the decimal value the line parser reads, or both refuse |
| `HttpLines.HeaderRun` | src/http_framing.rs:61-82 | on one header line the automaton and the line parser agree on acceptance and on the declared length |
| `HttpLines.RequestRun` | src/http_framing.rs:83-169 | on the request line the automaton accepts exactly what the line parser accepts |
| `HttpRefines.HeadersRun` | src/http_framing.rs:170-214 | on all header lines together they agree |
| `HttpRefines.DriveIsReference` | src/http_framing.rs:135-223 | on inputs within capacity the receiver gives the parser's verdict, except that it may refuse earlier while the head is incomplete |
| `HttpRefines.CompletesAlike` | src/http_framing.rs:17-223 | for every input and capacity the receiver completes with total n if and only if the line parser does |
| `HttpRefines.RefusesAtLeast` | src/http_framing.rs:17-223 | what the parser refuses the receiver refuses, and it never waits where the parser would not |
| `HttpRefines.RejectionIsFinal` | src/http_framing.rs:15-17 | once the automaton is in state 0 no continuation of the input completes, for either |
| `HttpRefines.TruncatedReference` | src/http_framing.rs:135-223 | bytes beyond the capacity decide nothing |
| `HttpRefines.PiecesCompleteAlike` | src/http_framing.rs:17-223 | a request received in any pieces completes with total n if and only if the line parser completes with n on all of it |
| `Substitution.SubstEval` | src/optimizer.rs:312-566 | substituting a text literal for a name means evaluating with the name bound to that text, under every binder form: strictly when no table is a name, and up to runs that go wrong otherwise |
| `Substitution.SubstEqual` | src/optimizer.rs:312-566 | evaluating the substituted expression equals evaluating the original with the name bound, value or failure, whenever no try_byte_at has a name as its table |
| `Inlining.InlineTextLets` | src/optimizer.rs:275-306 | the loop over the lets computes the kept bindings and the rewritten logic of the specification |
| `Inlining.InlinedRefines` | src/optimizer.rs:223-306 | inlining keeps the meaning of a rule on every input, through rebinding, self-reference and failing lets; a rule with a named table may go wrong where its inlined form does not |
| `Inlining.InlinedEqual` | src/optimizer.rs:223-306 | where no try_byte_at has a name as its table, a rule and its inlined form have the same outcome on every input: the same value, and the same failure of an overwritten or unused let |
| `Inlining.NamedTableDiffers` | src/optimizer.rs:223-306 | let t be a literal and read try_byte_at(t, 0): the original is stuck and the inlined rule reads the byte |
| `Guarantees.InlinedOutsideContract` | src/optimizer.rs:117-151 | the rules the optimizer inlines, those outside the bounded contract, keep every outcome, failures included |
| `Inlining.OverlayRebind` | src/optimizer.rs:275-306 | a later binding hides every earlier substitution of its name |
| `OptimizerSound.RangeSound` | src/verifier.rs:6356-6428 | a computed range holds every value the expression can have on in-range inputs |
| `OptimizerSound.DiscardTyped` | src/optimizer.rs:1071-1093 | a well-typed expression that may be discarded evaluates, on every in-range input, to a value of its type: it cannot fail |
| `OptimizerSound.StaticEvalTyped` | src/optimizer.rs:1097-1135 | a well-typed condition decided by ranges evaluates to that decision |
| `OptimizerSound.FoldNumbersSound` | src/optimizer.rs:608-627 | folding two literals gives what evaluating them gives, and divisions fold only where defined |
| `OptimizerSound.IdentitySound` | src/optimizer.rs:629-668 | the algebraic identities preserve meaning, faults included |
| `OptimizerSound.SimplifyUnarySound` | src/optimizer.rs:582-602 | double negations, literal negation and the other one-argument builtins fold to the value evaluation gives |
| `OptimizerSound.SimplifySound` | src/optimizer.rs:570-1036 | every rewrite at the root of a node preserves meaning |
| `OptimizerPreserves.OptimizeRefines` | src/optimizer.rs:570-1036 | the bottom-up pass preserves the value or the fault of every expression under every binder |
| `OptimizerPreserves.OptimizeOff` | src/optimizer.rs:114-155 | with rewriting off the traversal is the identity |
| `OptimizerPreserves.OptimizerPreservation` | src/optimizer.rs:114-260 | whole programs: for every rule, input and call budget the optimized program returns the same value or raises the same fault, unless the original run goes wrong; wherever the input is rebound its declared ranges must decide no rewrite |
| `OptimizerPreserves.NeverRebound` | src/optimizer.rs:223-260 | a rule that never rebinds its input's name meets that condition |
| `Lowering.LoweringPreserves` | src/main.rs:356-374 | booleans as 0 and 1 and wrapping arithmetic give every run of the interpreter that neither overflows nor goes wrong the same result, lowered |
| `Guarantees.SourceToNative` | src/main.rs:356-374 | from the interpreter to the optimized native program: equal value or equal fault for every run that prints no boolean, stays in the declared ranges and does not overflow |
| `Guarantees.MonitorErased` | src/interpreter.rs:296-337 | watching a run changes nothing unless the watched run goes wrong |
| `Guarantees.RebindingBreaks` | src/optimizer.rs:1097-1135 | a rule that rebinds its input to a record with amount 100 over a declared range 0 to 10 returns 2 where the original returns 1 |
| `Guarantees.RebindingExact` | src/optimizer.rs:1097-1135 | for every such rule, range, value and threshold: the optimized rule means what the original means if and only if the range decides nothing, decides as the rebound value does, or the branches agree |
| `Guarantees.RebindUndisturbed` | src/optimizer.rs:1097-1135 | these rules meet the condition of the preservation theorem exactly when the range decides nothing |
| `Guarantees.PrintedBoolDiffers` | src/optimizer.rs:616-621 | a folded comparison prints 1 in concat where the interpreter prints true |
| `Facts.FromTypeExact` | src/constructor_types.rs:18-36 | a declared type becomes a normal fact that is complete, gives the type back and fits it |
| `Facts.CompleteFits` | src/constructor_types.rs:27-46 | a complete fact fits a type if and only if it is that type |
| `Facts.JoinIdempotent` | src/constructor_types.rs:47-56 | a fact joined with itself is itself |
| `Facts.JoinCommutes` | src/constructor_types.rs:47-56 | join is commutative |
| `Facts.JoinAssociates` | src/constructor_types.rs:47-56 | join is associative |
| `Facts.JoinFits` | src/constructor_types.rs:37-56 | a join is compatible with a type if and only if both sides are, Absent being compatible with all |
| `Facts.FitsHolds` | src/constructor_types.rs:37-46 | a value a fact holds of inhabits every type the fact fits |
| `Facts.JoinHolds` | src/constructor_types.rs:47-56 | values of either side are values of the join |
| `Facts.CollectionHolds` | src/constructor_types.rs:76-83 | a list whose items satisfy a fact satisfies the collection of that fact |
| `ConstructorSound.BuildDelivers` | src/constructor_types.rs:209-266 | a constructor without duplicate, unknown, missing or ill-typed fields builds a value of its concept: exactly the declared fields, each of its declared type |
| `ConstructorSound.ExprFormed` | src/constructor_types.rs:189-505 | an expression about which nothing is reported builds only well-formed values, and its value satisfies its fact |
| `ConstructorSound.MatchVariantFormed` | src/constructor_types.rs:309-349 | the same through variant matches, whose binders get the payload types |
| `ConstructorSound.FoldFormed` | src/constructor_types.rs:374-390 | the same through folds, where a changing accumulator fact is allowed only without constructions in the body |
| `ConstructorSound.ConstructorSoundness` | src/constructor_types.rs:87-119 | when nothing is reported about any rule, no run of any rule with well-typed inputs and callees builds an ill-formed value |
| `Guarantees.ConstructionsWellFormed` | src/constructor_types.rs:87-119 | such a run is also the interpreter's own run |
| `ConstructorObject.Checker.Visit` | src/constructor_types.rs:189-505 | the walking object returns the specified fact, adds an error exactly when an obligation fails and counts exactly the constructions walked |
| `ConstructorObject.Checker.VisitFields` | src/constructor_types.rs:232-256 | the field loop: seen names, validity and reports, field by field |
| `ConstructorObject.Checker.Missing` | src/constructor_types.rs:257-264 | an error is added exactly when a declared field is missing |
| `ConstructorObject.Checker.JoinArms` | src/constructor_types.rs:317-342 | the arm loop: joined fact, seen variants and validity |
| `ConstructorObject.Checker.CheckRule` | src/constructor_types.rs:87-119 | no error after a rule if and only if the rule is established |
| `Escaping.EscapeJson` | src/optimizer.rs:1052-1066 | the escape loop computes the escaped text |
| `Escaping.UnescapeJson` | src/interpreter.rs:175-203 | the decoding loop, with its shortcut, computes the decoded text |
| `Escaping.ReadLiteral` | src/lexer.rs:269-337 | the literal loop decodes up to the closing quote or refuses, for text and for byte strings |
| `Escaping.JsonRoundTrip` | src/interpreter.rs:175-203 | decoding an escaped text gives it back if and only if it is ASCII |
| `Escaping.LiteralRoundTrip` | src/lexer.rs:269-337 | an escaped text between quotes is read back if and only if it is ASCII, and the lexer stops exactly after the closing quote |
| `Tokens.DisciplinedMeaning` | src/lexer.rs:125-242 | the kept invariant says: INDENTs minus DEDENTs is the depth, and no prefix is negative |
| `Lexer.Lexer.constructor` | src/lexer.rs:112-123 | a new lexer starts with the stack [0] and no tokens |
| `Lexer.Lexer.HandleLineStart` | src/lexer.rs:187-242 | line starts open one block, close down to an enclosing width or are refused, exactly as specified |
| `Lexer.Lexer.CloseTo` | src/lexer.rs:224-239 | the pop loop emits one DEDENT per width above, and succeeds exactly when the width is on the stack |
| `Lexer.Lexer.Take` | src/lexer.rs:244-606 | the token at the cursor and the position after it |
| `Lexer.Lexer.ReadToken` | src/lexer.rs:244-606 | one token is emitted, brackets are counted, an unmatched closing bracket is refused |
| `Lexer.Lexer.Tokenize` | src/lexer.rs:125-185 | the loop terminates and computes the specified stream; the stack stays strictly increasing from 0, and a successful stream closes every block it opens, ends in its only EOF and has no negative literal |
| `Lexer.DedentsClose` | src/lexer.rs:172-177 | DEDENTs up to the depth keep the discipline |
| `FoldSugar.SumIsSum` | src/parser.rs:990-1073 | sum is the mathematical sum when no partial sum leaves i64, and an overflow fault otherwise |
| `FoldSugar.CountIsCount` | src/parser.rs:990-1073 | count is the number of items the predicate accepts |
| `FoldSugar.MinIsMinimum` | src/parser.rs:990-1073 | min is the least value of the body, or i64::MAX on no items |
| `FoldSugar.MaxIsMaximum` | src/parser.rs:990-1073 | max is the greatest value of the body, or i64::MIN on no items |
| `FoldSugar.AggregatesNest` | src/parser.rs:1018-1073 | the rewritten form does not use the accumulator's name itself, so aggregates nest |
| `Weakening.Rebinding` | src/interpreter.rs:339-849 | binding a name that does not occur free changes no run, not even one that fails |
| `ParsingLayout.SkipKeeps` | src/parser.rs:2789-2810 | separators never close more blocks than the conditional has opened |
| `ParsingLayout.ConditionalKeeps` | src/parser.rs:806-861 | a multi-line conditional never goes below the depth at which it started |
| `ParsingLayout.ParseKeeps` | src/parser.rs:713-1577 | no expression form does |
| `ParsingLayout.LayoutDiscipline` | src/parser.rs:703-861 | for every stream and position, at no point has the expression read there consumed more DEDENTs than INDENTs |
| `ParsingTrip.Trip` | src/parser.rs:703-1577 | at every level, every printable expression of every form, printed anywhere in a stream before a token that cannot continue it, is read back as itself and the parser stops right after it |
| `ParsingTrip.Spine` | src/parser.rs:713-790 | left-associative chains rebuild the printed tree |
| `ParsingShapes.MatchReads` | src/parser.rs:883-926 | a match block is read from how its scrutinee and its arms, with their binders, are read |
| `ParsingShapes.BuiltinReads` | src/parser.rs:927-1577 | a builtin call is read from how the parts of its production are read |
| `ParsingForms.ReadBack` | src/parser.rs:927-1577 | the name, operands and binders of every builtin form build that form again |
| `ParsingTrip.PrintParse` | src/parser.rs:703-1577 | printing any printable expression with the parentheses its precedence needs, then parsing, gives the same tree |
| `ParsingImage.ParseShows` | src/parser.rs:703-1577 | every expression the parser returns is printable, unless the seed of a max fold, the least number, occurs in it |
| `ParsingImage.ParsePrintParse` | src/parser.rs:703-1577 | what the parser returned, printed and parsed again, is the same expression |
| `ParserObject.Parser.constructor` | src/parser.rs:86-88 | a new parser stands at the first token |
| `ParserObject.Parser.ParseLevel` | src/parser.rs:713-790 | each level, with its loop over operands, parses as the grammar says and leaves the cursor after the expression |
| `ParserObject.Parser.ParseChain` | src/parser.rs:717-790 | the loop that rebuilds the left operand |
| `ParserObject.Parser.SkipSeparators` | src/parser.rs:2801-2810 | the separator loop with its depth counter |
| `ParserObject.Parser.ParseConditional` | src/parser.rs:806-861 | a conditional over several lines, with the blocks it opened closed again |
| `ParserObject.Parser.ParseAggregation` | src/parser.rs:990-1073 | sum, count, min and max with the rewind of the cursor between the two forms |
| `ParserObject.Parser.ParseArms` | src/parser.rs:889-926 | match arms up to the DEDENT of their block |
| `ParserObject.Parser.ParseFields` | src/parser.rs:1161-1187 | field initializers with an optional trailing comma |
| `NumericModular.DeclaredSummary` | src/numeric_bounds.rs:193-204 | an accepted rule that declares its range tells its callers that range and nothing else |
| `NumericModular.CallersUnaffected` | src/numeric_bounds.rs:193-204 | replace the lets and the output of a rule that declares its range, so that it is accepted before and after: every rule of the program is accepted with the same summary, or refused, in both programs |
| `NumericExact.ExprExact` | src/numeric_bounds.rs:205-260 | arithmetic that reads each field at most once: the ends of the computed interval are the values at two admitted inputs, and a refusal is a failure at one |
| `NumericGuarded.OrderingNarrows` | src/numeric_bounds/ranges.rs:138-200 | an interval restricted by an ordering holds exactly the members that satisfy it, as one interval, or nothing if none does |
| `NumericGuarded.ArmTracks` | src/numeric_bounds/guards.rs:92-139 | entering an arm that some input reaches, the scope describes exactly the admitted inputs that took every branch on the way |
| `NumericGuarded.HullJoin` | src/numeric_bounds/ranges.rs:68-71 | the hull of a join is the hull of the two hulls |
| `NumericGuarded.GuardedExact` | src/numeric_bounds.rs:205-260 | conditionals on orderings of input fields, each arm of which some input reaches: the ends of the computed domain are values at two inputs, and a refusal is a failure at one |
| `NumericGuarded.AcceptedExactly` | src/numeric_bounds.rs:140-260 | a rule of such conditionals and arithmetic is accepted if and only if every input its guard admits runs without fault to a number of the declared range |
| `NumericGuarded.UndeclaredSummary` | src/numeric_bounds.rs:193-204 | without a declared range callers learn the least and the greatest output of the rule |
| `BoundedTyped.ExploreDecides` | src/bounds.rs:114-322 | where no name holds a bounded result, an expression is explored if and only if it has a type in the plain typing, and then each path leaves the state as it was but for the one result it may yield |
| `BoundedTyped.PathsDecide` | src/bounds.rs:425-457 | where no let keeps a bounded result, the paths of a rule end well if and only if the rule has its declared type |
| `BoundedTyped.AcceptedTyped` | src/bounds.rs:384-457 | such a rule is accepted if and only if it takes a flat numeric concept without context, gives a bounded result, a number or a bool, calls in no cycle and has its declared type |
| `HttpGrammar.TokenIsTokenChar` | src/http_framing.rs:11-13 | a byte is a token byte if and only if it is a letter, a digit or one of the marks of section 5.6.2 of RFC 9110 |
| `HttpGrammar.KnownNames` | src/http_framing.rs:184-188 | the three known header names, in any mixture of letter cases, are what their spelled-out forms say |
| `HttpGrammar.LengthMeans` | src/http_framing.rs:188-211 | a Content-Length value is read as n if and only if it is the decimal of n with blanks around it, and n is within the capacity |
| `HttpGrammar.RequestVerdict` | src/http_framing.rs:135-223 | data that begins with the head of a well-formed request whose body has n bytes completes with the length of the head plus n, waits while bytes are missing, and is refused where that exceeds the capacity |
| `HttpGrammar.CompletesExactly` | src/http_framing.rs:135-223 | the line parser completes with t if and only if the data begins with a request of the grammar whose head and body take t bytes, all received and within the capacity |
| `HttpGrammar.AwaitsExactly` | src/http_framing.rs:135-223 | it waits if and only if room is left and no blank line has come, or such a request has, fits and is not all there |
| `HttpGrammar.ReceivesExactly` | src/native/http_io.rs:150-290 | however a request is cut into receives, the receiver completes with t if and only if the bytes begin with a request of the grammar of t bytes |
| `HttpGrammar.AnnouncedRefused` | src/http_framing.rs:61-82 | data whose head has a line named transfer-encoding or expect, in any letter case, completes for neither side |
| `Inlining.NoTextLeft` | src/optimizer.rs:275-306 | no let that is left after inlining binds a text literal |
| `OptimizerNormal.SimplifyOutcome` | src/optimizer.rs:570-1036 | a rewrite at the root gives the node itself, a literal or something below it, and leaves the node alone only if nothing can be folded, dropped or decided |
| `OptimizerNormal.OptimizedNormal` | src/optimizer.rs:570-1036 | an optimized expression holds, at any depth, no foldable operation on literals that evaluates to a value, no identity that gives back an operand, and no branch on an ordering that the ranges of its operands settle |
| `ConstructorTyped.SynthWalks` | src/constructor_types.rs:189-505 | an expression with a type of its own is walked without a report, and its fact is exactly that type |
| `ConstructorTyped.ChecksWalk` | src/constructor_types.rs:189-505 | an expression that may stand for a type is walked without a report, and its fact fits the type |
| `ConstructorTyped.TypedEstablished` | src/constructor_types.rs:87-119 | a rule whose lets have types and whose output may stand for the declared type is established: nothing is reported |
| `EvalLaws.QuantifierDecides` | src/interpreter.rs:500-553 | all gives every and any gives some of the answers of the body; an item that fails before one decides is the outcome |
| `EvalLaws.AllIsEvery` | src/interpreter.rs:500-553 | over items on which the body is a boolean, all is true if and only if every answer is |
| `EvalLaws.AnyIsSome` | src/interpreter.rs:500-553 | over such items any is true if and only if some answer is |
| `EvalLaws.MapIsPointwise` | src/interpreter.rs:600-612 | map gives the body at each item, in order |
| `EvalLaws.FilterKeeps` | src/interpreter.rs:614-632 | filter keeps exactly the accepted items, in order |
| `EvalLaws.CollectFails` | src/interpreter.rs:600-632 | the first item on which the body fails decides the outcome of map and filter |
| `EvalLaws.FoldThreads` | src/interpreter.rs:556-569 | fold threads its accumulator through the items in order |
| `EvalLaws.FoldBytesThreads` | src/interpreter.rs:571-598 | fold_bytes threads a number through the bytes of a text, each bound with its index |
| `EvalLaws.Connectives` | src/interpreter.rs:369-423 | and and or are the connectives and skip an operand that cannot matter |
| `EvalLaws.DivisionLaw` | src/interpreter.rs:369-423 | x is y times the quotient plus the remainder, the remainder smaller than y and with the sign of x; both fault exactly on zero and on MIN / -1 |
| `EvalLaws.BitLaws` | src/interpreter.rs:1178-1200 | the bitwise pairs are the connectives bit by bit of the two's complement |
| `EvalLaws.BitNotLaw` | src/interpreter.rs:1202-1220 | bnot flips every bit |
| `EvalLaws.LeLaws` | src/interpreter.rs:459-477 | the bytes of le32 and le64, weighted by powers of 256, are the number modulo 2^32 and 2^64 |
| `EvalLaws.TextTests` | src/interpreter.rs:964-1026 | starts_with, ends_with and contains hold exactly when the text splits around the needle so |
| `EvalLaws.SubstringCuts` | src/interpreter.rs:1078-1120 | substring cuts the middle out of a text of three parts |
| `EvalLaws.SubstringOutside` | src/interpreter.rs:1078-1120 | bounds out of order or past the end are a range failure |
| `EvalLaws.ByteThere` | src/interpreter.rs:1122-1176 | byte_at and try_byte_at give the byte that follows a prefix as long as the index |
| `EvalLaws.ByteOutside` | src/interpreter.rs:1122-1176 | outside the table byte_at fails and try_byte_at gives the bounds error |
| `EvalLaws.ParseOfConcat` | src/interpreter.rs:929-951 | parse_int of a printed number gives the number back |
| `EvalLaws.RecordReads` | src/interpreter.rs:643-657 | a record field is what its last initializer evaluates to |
| `EvalLaws.MatchBinds` | src/interpreter.rs:759-827 | a variant match runs the arm of the variant with its binders on the fields in declared order |
| `ScalarLaws.DecimalParses` | src/interpreter.rs:929-951 | reading the decimal of any i64 gives it back |
| `ScalarLaws.LittleEndianModulo` | src/interpreter.rs:459-477 | the little-endian bytes of a number weigh it modulo 2^32 and 2^64 |
| `LexerSpelling.SpelledScans` | src/lexer.rs:244-606 | a token written out in characters, before a character that cannot continue it, is scanned as that token |
| `LexerSpelling.SpellTrip` | src/lexer.rs:125-606 | every list of plain tokens with well-nested brackets, written in characters with spaces between, is tokenized as itself, then NEWLINE and EOF |
| `ParsingProductions.BuiltinRead` | src/parser.rs:927-1577 | every builtin call, written token by token, is read as that builtin over whatever its operands are read as |
| `ParsingAggregates.AggregateTrip` | src/parser.rs:990-1073 | the word, a printed collection, a binder and a printed body parse to the fold that the word stands for |
| `ParsingAggregates.SumWritten` | src/parser.rs:1029-1041 | a stream that holds sum ( c , x => b ) parses to an expression that evaluates to the mathematical sum, or to an overflow |
| `ParsingAggregates.CountWritten` | src/parser.rs:1029-1041 | one that holds count parses to the number of accepted items |
| `ParsingAggregates.MinWritten` | src/parser.rs:990-1073 | one that holds min parses to the least value of the body, or i64::MAX |
| `ParsingAggregates.MaxWritten` | src/parser.rs:990-1073 | one that holds max parses to the greatest value of the body, or i64::MIN |
| `RangesTight.ConstrainExact` | src/numeric_bounds/ranges.rs:138-200 | a guard keeps exactly the members that some member of the other side makes it true of; where that takes a third interval it keeps them all |
| `RangesTight.ArithEndsTaken` | src/numeric_bounds/ranges.rs:97-105 | both ends of a sum, difference, product or quotient of two-interval domains are results of members |
| `RangesTight.NegEndsTaken` | src/numeric_bounds.rs:246-253 | negation of a domain is refused exactly where it holds the least number, and both ends are results |
| `RangesTight.AbsEndsTaken` | src/numeric_bounds.rs:246-253 | absolute value likewise |
| `RangesTight.MinEndsTaken` | src/numeric_bounds.rs:254-260 | both ends of a minimum of domains are results of members |
| `RangesTight.MaxEndsTaken` | src/numeric_bounds.rs:254-260 | both ends of a maximum of domains are results of members |
| `RangesTight.RepeatedEndsTaken` | src/numeric_bounds/ranges.rs:106-137 | both ends of x op x are results for members x |
| `RangesTight.RepeatedRefusalIsReal` | src/numeric_bounds/ranges.rs:106-137 | x op x is refused only where it fails for some member x |
| `RangesAgree.SameRange` | src/verifier.rs:6356-6428 | on arithmetic over input fields of distinct names, no field standing on both sides of one operator, the overflow checker and the optimizer, which compute ranges separately, give the same interval or both give none |
| `NumericGuarded.GuardRecorded` | src/numeric_bounds/guards.rs:92-139 | in a branch on a comparison a compared let or field is known to be exactly where the comparison can hold, and an arm without facts can never be taken |
| `BoundedTyped.OutsideReadsNone` | src/bounds.rs:30-69 | a rule outside the contract, and every rule it calls, contains no try_byte_at at any depth of its lets or its output |
| `EvalLaws.ShiftLaws` | src/interpreter.rs:1222-1238 | shl and shr move the bits by the count modulo 64 and fill with zeros, whatever the sign |
| `EvalLaws.ResultLaws` | src/interpreter.rs:720-757 | match_result of an ok or an err runs its own arm with the value bound |
| `EvalLaws.OrderLaws` | src/interpreter.rs:369-423 | less is the order of the numbers, and the three other orderings follow from it |
| `EvalLaws.EqualityLaws` | src/interpreter.rs:369-423 | equality of numbers, and its negation |
| `EvalLaws.ConditionalLaw` | src/interpreter.rs:424-431 | a conditional takes its first arm on true and its second on false |
| `EvalLaws.BoundLaws` | src/interpreter.rs:1043-1076 | min and max are the bounds of their operands; abs is the distance to zero, except for the least number, which stays |
| `EvalLaws.ConcatLaw` | src/interpreter.rs:671-718 | concat prints its operands one after the other, a bool as its name, and its length is the sum of theirs |
| `LexerLayout.LayoutTrip` | src/lexer.rs:125-606 | blocks of any depth, each line written in characters with a margin and perhaps a comment, are tokenized as their lines, a NEWLINE after each, and one INDENT and one DEDENT around each block |

## Left out

- Native x86-64 and WASM emission, stack and memory reports, the worker pool: not modelled.
- `read`, `fetch`, `random`, `now_unix`: external effects; the parser model refuses their calls and the evaluator has no such nodes.
- `src/text_bounds.rs`: which rules it guards at entry is the parameter `guarded` of a context.
- `src/numeric_bounds/native_opt.rs`: a second folding pass over the same intervals, not modelled.
- Services, reactions, executions and their checks (src/bounds.rs:330-339, 356-376): declarations around rules, not modelled.
- The type of a rule's context input: only whether there is one is modelled, so the report for a context of type BoundsError (src/bounds.rs:379) is not.
- Concept groups: concepts are one map; the lookups that see only top-level concepts are not distinguished.
- The synthetic `state` concept and context inputs of src/constructor_types.rs:95-105, and its mode that reports nothing: the model covers plain rules with reporting on.
- `explain_invalid_field` and all diagnostics text: an error is counted, not described.
- How many steps the overflow checker takes: that few enough rules never reach its step limit is not claimed.
- Line and column numbers of tokens, and UTF-8 validity of text: text is bytes.
- Declarations other than expressions (rules, concepts, services) in the parser: only the expression grammar is modelled.
- JSON values other than strings in the input reader: not modelled.
- `Parsing.Build`: builtin calls go through a table of productions, one for each shape, where the source writes the same steps out for every name.
- OptimizerPreserves.OptimizerPreservation: its condition on rebound inputs is sufficient only, because a rewrite made for the wrong record can still be right.
- BoundedObject.Verify: promises nothing about a rule that runs out of steps except that it is refused.
