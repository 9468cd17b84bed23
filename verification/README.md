# Proofs about rsc.io/cmd

A Dafny model of the parts of the repository whose correctness is hardest to see: the field
arithmetic, key exchange, handshake and encrypted stream of `mote`, its sessions and its
Tailscale daemon; the statement and expression rewriting of `c2gofmt`; the scheduler of
`benchlab`; and the edit buffer of `gofixerr`. `dafny verify dfyconfig.toml` checks all of it.

## How the model is built

- **Field arithmetic** (`Bits`, `Limbs`, `Field`, `FieldBytes`, `FieldLaws`, `Elligator`). Four
  64-bit limbs in arrays that may be the same array, explicit carries and borrows, the three
  folds, square-and-multiply, and the map onto the curve. Every method is tied to integers
  modulo p = 2^255-19. Fermat's little theorem for p, and that 2 is no square modulo p, are
  hypotheses named `Fermat` and `TwoIsNoSquare`.
- **C to Go** (`CTree`, `SideEffects`, `Statements`, `Loops`, `Traversal`, `Nested`, `Booleans`,
  `Scopes`, `Typing`, `Switch`, `Printer`, `Patterns`). A small semantics of C and Go expressions
  and statements, in which any operator may mean anything and either operand may run first. The
  rewriters keep the meaning of every program that meets the stated conditions, one statement at a
  time (`Loops`) and over the whole traversal of a statement tree (`Traversal`, `Nested`). Every
  temporary they make up is declared once, before it is mentioned, and read (`Scopes`); `Typing`
  says when Go accepts what is made of an expression, an expression statement and a declaration.
  Where a rewriter fails, the exact condition is proved, and a concrete program shows the
  difference.
- **Secure channel** (`Encodings`, `Suite`, `Cpace`, `Noise`, `Secure`, `Stream`, `Vectors`).
  Hashes, MACs, scalar multiplication and authenticated encryption are functions known by their
  laws (`Suite.Laws`, and `Suite.Free` for the absence of collisions); a toy suite shows that the
  laws are consistent (`Suite.LawsHoldOfToy`). `Vectors` holds the published test vectors of the
  encodings, and the layouts that the protocols fix.
- **Sessions** (`Packets`, `Session`, `Trees`, `Serve`, `Output`), **daemon** (`Daemon`) and
  **scheduler** (`Bench`). The two programs of a session are run against each other until
  neither can go on (`Serve`). Concurrent parts are state machines over their atomic steps, with
  invariants for all interleavings, and a bound on the number of steps where something has to
  end.
- **Codecs and buffers** (`Hex`, `Edits`).

`Common` holds what several parts share. Methods on classes and arrays model the code that works
in place; each is equated with a specification function, and the lemmas are about those
functions. Induction is written out: every lemma turns Dafny's automatic induction off.

## Where the code does not do what it is for

- A C `switch` clause made of empty statements only gets its `fallthrough` just when the
  statement found by looking back into earlier clauses falls through; a `case` label after
  `default` on one statement leaves the `default` clause empty (`Switch.SwitchMeans`,
  `Switch.EmptyCaseLost`).
- `do` loops put their test behind the body, where a `continue` skips it. The rewriting is right
  exactly when, wherever the body continues, the test is true and running it changes nothing
  that matters (`Loops.DoMeans`, `Loops.DoMeansPure`); `do { continue } while (0)` becomes a
  loop that never ends (`Loops.DoContinueLost`).
- Clauses of a condition that are moved into a loop body that is not a block are lost. That is
  harmless exactly when the lost clauses are true and change nothing wherever the others are
  true (`Loops.UnbracedMeans`, `Loops.UnbracedLost`).
- A right operand of `&&` or `||` whose side effects move into a function literal keeps its type:
  `a && (y = 0)` leaves a literal that says it returns a bool and returns a number. All operands
  of logical operators are Go booleans exactly when every right operand from which something has
  to move is a boolean itself (`Typing.OperandsBoolean`, `Typing.LiteralReturnsNumber`). More
  generally, `Typing.HoistTyped` says exactly which C expressions are given the types Go wants;
  arms of `c ? y : z` from which something has to move, which get a literal of type "unknown",
  and comparisons used as numbers are not among them.
- What is made of `int v = e` is Go, with every name meaning what it meant, exactly when e is
  typed in that sense and a number, is no assignment, `++` or `--`, and does not mention v
  (`Typing.DeclIsGo`). Then v gets the value it has in C (`Typing.AcceptedMeans`). The statements
  in front of `int x = (x = 3) + 1` assign to an x declared outside, if there is one
  (`Typing.OuterChanged`).
- The guard against negating floating-point comparisons looks at the type of the comparison
  instead of its operands, so that such comparisons are inverted like others
  (`Booleans.SimplifyMeans`).
- An expire call already under way when the last client leaves stops the daemon although the
  timer has been armed again. A run has a point where that can happen exactly when some client
  is the last to leave an open daemon while an expire call is under way (`Daemon.StaleExpire`,
  `Daemon.StaleExpireRun`).
- A client's path that starts with a slash and a colon is taken for one on a volume, and loses
  both characters: a path without a volume keeps its names exactly when the first of them does
  not start with a colon (`Trees.RemotePathKeeps`).
- A session fails when one path lies below another, which a client on Windows can bring about
  with two volumes (`Trees.TwoVolumes`), when a path is the root, when the working directory is
  one of the files or lies below one, when what is missing from the cache does not fit one packet
  of 2^32 bytes, or when a message does not fit the limit for JSON. With valid paths and at least
  one argument it succeeds in all other cases (`Serve.HonestSession`, `Trees.PlacedIff`).

## Model

| member | source | states |
|---|---|---|
| Field.ExponentsMean | mote/internal/cpace/field.go:19-29 | the constant exponents are p-2 and (p-1)/2 |
| Field.FeReduce | mote/internal/cpace/field.go:31-45 | for every x below 2p, one trial subtraction gives x mod p, also in place |
| Field.FeAdd | mote/internal/cpace/field.go:47-57 | the sum mod p of any two reduced elements, with no carry lost, for all aliasings |
| Field.FeSub | mote/internal/cpace/field.go:59-75 | the difference mod p, by adding p back exactly after a borrow |
| Field.MulWords | mote/internal/cpace/field.go:79-101 | the eight-limb product is exact: no carry of the schoolbook loops is lost |
| Field.FoldUpperHalf | mote/internal/cpace/field.go:102-124 | folding the upper half twice keeps the residue; the second fold overflows at most once |
| Field.FoldOverflow | mote/internal/cpace/field.go:111-124 | for every small top limb the fold keeps the residue |
| Field.FoldTopBit | mote/internal/cpace/field.go:125-135 | after folding bit 255 the value is below 2^255+19 and congruent to what it was |
| Field.FeMul | mote/internal/cpace/field.go:77-137 | for any four-limb inputs the result is the product mod p, below p |
| Field.FePow | mote/internal/cpace/field.go:144-156 | x^e mod p for every 256-bit e |
| Field.FeInvert | mote/internal/cpace/field.go:158-161 | x^(p-2) mod p |
| Field.FeChi | mote/internal/cpace/field.go:163-167 | x^((p-1)/2) mod p |
| FieldBytes.FeSetBytes | mote/internal/cpace/field.go:169-181 | the little-endian value without bit 255, mod p |
| FieldBytes.FeBytes | mote/internal/cpace/field.go:183-198 | the 32 bytes whose little-endian value is the element |
| FieldBytes.RoundTrip | mote/internal/cpace/field.go:169-198 | reading back the bytes of a reduced element gives it, whatever bit 255 is |
| FieldLaws.Inverse | mote/internal/cpace/field.go:158-161 | given Fermat, x * x^(p-2) = 1 for x not 0, and 0 for 0 |
| FieldLaws.ChiOfProduct | mote/internal/cpace/field.go:163-167 | the quadratic symbol is multiplicative |
| FieldLaws.ChiValues | mote/internal/cpace/field.go:163-167 | given Fermat, the symbol takes only the values 0, 1 and p-1 |
| FieldLaws.EulersCriterion | mote/internal/cpace/field.go:163-167 | the symbol is 1 exactly for the nonzero squares |
| Elligator.DenominatorNotZero | mote/internal/cpace/elligator.go:33-41 | 1+2r^2 is never 0 mod p, so that the division is one |
| Elligator.RationalMap | mote/internal/cpace/elligator.go:20-31 | v(1+2r^2) = -A, and -v-A = 2r^2 v |
| Elligator.MapChooses | mote/internal/cpace/elligator.go:52-60 | u = eps*v - (1-eps)*A/2 is v when the symbol is 1 and -v-A when it is -1 |
| Elligator.ResultHasSymbol | mote/internal/cpace/elligator.go:20-31 | u^3+A*u^2+u always has symbol 0 or 1 |
| Elligator.OnCurve | mote/internal/cpace/elligator.go:20-31 | for every r the result is the abscissa of a point of the curve |
| Elligator.Elligator2 | mote/internal/cpace/elligator.go:32-61 | the bytes of the rational map's value for every r |
| Elligator.ProgramResultOnCurve | mote/internal/cpace/elligator.go:32-61 | the value the program computes is the abscissa of a point of the curve |
| SideEffects.HoistMeans | c2gofmt/syntax.go:530-679 | before, the rest of the expression, and after give the original's value and store, for every expression that obeys section 6.5 paragraph 2 of C99, sequence points inside it included |
| SideEffects.HoistFootprint | c2gofmt/syntax.go:530-679 | the pieces mention only what the expression does and fresh temporaries, and nothing goes behind when that is forbidden |
| SideEffects.AfterIsLast | c2gofmt/syntax.go:611-639 | only what is modified after the last sequence point goes behind |
| SideEffects.AfterExactly | c2gofmt/syntax.go:611-639 | what goes behind is exactly every x++ and x-- with no sequence point after it, in order; a temporary is taken for each conditional and each other x++ and x--, and no others |
| SideEffects.PiecesApart | c2gofmt/syntax.go:551-557 | the pieces of two unsequenced operands are independent |
| SideEffects.Interleave | c2gofmt/syntax.go:551-557 | independent pieces may be gathered: all before, then both expressions, then all after |
| SideEffects.HoistLeavesResidual | c2gofmt/syntax.go:578-678 | no assignment, increment or conditional is left outside function literals |
| SideEffects.ResidualStays | c2gofmt/syntax.go:530-679 | hoisting what hoisting left does nothing |
| SideEffects.WrappedMeans | c2gofmt/syntax.go:708-719 | the function literal around a conditionally evaluated operand runs its pieces in order |
| SideEffects.CondMeans | c2gofmt/syntax.go:641-678 | the temporary set by an if statement is the value of c ? y : z |
| SideEffects.Rewriter.DoSideEffects | c2gofmt/syntax.go:530-679 | appends exactly the specified statements to the caller's lists and numbers temporaries in order |
| SideEffects.Rewriter.CheckNoSideEffects | c2gofmt/syntax.go:708-719 | wraps an operand with side effects, and only such |
| SideEffects.Rewriter.ExtractSideEffects | c2gofmt/syntax.go:515-518 | the two lists, the rest, and the next temporary |
| Scopes.HoistProper | c2gofmt/syntax.go:520-679 | in what is made of any C expression, inside function literals too, each temporary taken is declared exactly once and read, every mention is in the scope of a declaration before it, and no variable of the program is declared |
| Scopes.HoistFits | c2gofmt/syntax.go:520-679 | every mention of a temporary is in the scope of a declaration before it |
| Scopes.HoistOnce | c2gofmt/syntax.go:520-679 | exactly the temporaries taken are declared, each once by := or var, and all are read |
| Scopes.FixedProper | c2gofmt/syntax.go:137-158 | making conditions boolean changes none of that |
| Loops.JoinOfSplit | c2gofmt/syntax.go:409-434 | joining the clauses of a left-nested chain gives it back |
| Loops.JoinMeans | c2gofmt/syntax.go:425-434 | how a chain of && nests does not matter to its value and effects |
| Loops.FixMeans | c2gofmt/syntax.go:358-407 | moving clauses with side effects into the body keeps the run of test and body, with break for loops |
| Loops.FixLeavesResidual | c2gofmt/syntax.go:358-407 | only the first remaining clause can still have side effects |
| Loops.FixKeeps | c2gofmt/syntax.go:358-407 | exactly the clauses from the first behind the front that has side effects to move go into the body |
| Loops.HoistOfJoin | c2gofmt/syntax.go:223-225 | hoisting the remaining condition touches only its first clause |
| Loops.ForMeans | c2gofmt/syntax.go:219-251 | for any number of rounds a rewritten for or while ends the same way in the same store, with continue and break, or has not ended either, whenever no clause that matters is lost |
| Loops.DoMeans | c2gofmt/syntax.go:203-217 | the rewritten do loop runs the same, from every store and for any number of rounds, exactly when wherever the body continues the test could be skipped |
| Loops.DoMeansPure | c2gofmt/syntax.go:203-217 | with a test free of side effects, exactly when the body continues only where the test is true |
| Loops.DoContinueLost | c2gofmt/syntax.go:203-217 | a do loop whose body continues ends in C and never in Go |
| Loops.UnbracedMeans | c2gofmt/syntax.go:358-382 | a loop over a statement that is no block runs the same, whatever that statement does, exactly when the clauses that are lost are idle wherever the others are true |
| Loops.UnbracedLost | c2gofmt/syntax.go:358-382 | a loop whose lost clause matters |
| Loops.IfMeans | c2gofmt/syntax.go:253-267 | a rewritten if without else runs the same |
| Loops.IfElseMeans | c2gofmt/syntax.go:253-267 | a rewritten if with else runs the same |
| Loops.ReturnMeans | c2gofmt/syntax.go:258-267 | a rewritten return returns the same value in the same store |
| Loops.ExprStmtMeans | c2gofmt/syntax.go:269-276 | a rewritten expression statement leaves the same store |
| Loops.DeclMeans | c2gofmt/syntax.go:278-287 | as far as the grammar goes, a rewritten initialiser is an expression of Go exactly when it was no assignment or increment; then, if it does not mention the variable, the declaration runs the same |
| Statements.Ignored | c2gofmt/syntax.go:520-528 | a statement that mentions no new temporary is not affected by them |
| Traversal.VisitMeans | c2gofmt/syntax.go:199-321 | the traversal of a whole statement tree, which visits what each rewriting made, keeps its end and its store |
| Traversal.VisitSettles | c2gofmt/syntax.go:199-321 | afterwards nothing is left to rewrite in any statement of the tree outside function literals and post blocks |
| Nested.VisitCalm | c2gofmt/syntax.go:199-321 | nor in the statements inside function literals and post blocks |
| Nested.VisitLeaves | c2gofmt/internal/cc/expr.go:131-195 | visiting those statements, as the walk does, changes nothing |
| Nested.HoistCalm | c2gofmt/syntax.go:530-679 | the statements that hoisting makes have nothing left to rewrite |
| Traversal.LevelDrops | c2gofmt/internal/cc/expr.go:118-199 | each visit leaves less deep statements to visit, so that the traversal ends |
| Traversal.Visit1Means | c2gofmt/syntax.go:199-321 | one visit, to a statement of any kind, keeps its end and its store |
| Loops.SplitExpr | c2gofmt/syntax.go:409-423 | the clauses from left to right |
| Loops.JoinExpr | c2gofmt/syntax.go:425-434 | the left-nested chain |
| Loops.ForNode.FixForAndAnd | c2gofmt/syntax.go:358-382 | the loop from the last clause to the second computes the specified clauses and body |
| Loops.ForNode.Rewrite | c2gofmt/syntax.go:219-251 | the statement and what runs before it are as specified |
| Loops.IfNode.FixIfAndAnd | c2gofmt/syntax.go:385-407 | the loop computes the specified clauses and body |
| Loops.IfNode.Rewrite | c2gofmt/syntax.go:253-267 | the statement is as specified |
| Booleans.FixAllMeans | c2gofmt/syntax.go:137-158 | making operands of logical operators boolean, by comparing with 0 or, for pointer variables, with nil, keeps all values, effects and their order |
| Booleans.FixAllIsBoolean | c2gofmt/syntax.go:314-345 | afterwards every operand of a logical operator, and every condition, is a Go boolean exactly when no function literal among them returns a number |
| Booleans.FixBoolCompares | c2gofmt/syntax.go:314-345 | exactly what is no comparison, negation, conjunction or disjunction is compared, without one pair of parentheses, and with nil exactly when it is a pointer variable |
| Typing.OperandsBoolean | c2gofmt/syntax.go:539-546 | of any C expression, after moving side effects and fixing conditions, all operands are Go booleans exactly when every right operand of a logical operator from which something has to move is a boolean itself |
| Typing.LiteralReturnsNumber | c2gofmt/syntax.go:708-719 | an operand for which that fails |
| Typing.HoistTyped | c2gofmt/syntax.go:530-679 | what is made of a C expression has the types Go wants exactly when numbers stand where numbers are needed, only booleans where something moves out of a right operand, and nothing has to move out of an arm of a conditional |
| Typing.StatementIsGo | c2gofmt/syntax.go:269-276 | what is made of an expression statement is Go, with every temporary declared once, before it is mentioned, and read, exactly when the statement is typed and an assignment or increment |
| Typing.DeclIsGo | c2gofmt/syntax.go:278-287 | what is made of a declaration is Go, with every temporary declared once, before it is mentioned, and read, and every name meaning what it meant, exactly when the initialiser is typed, a number, no assignment or increment, and does not mention the variable |
| Typing.AcceptedMeans | c2gofmt/syntax.go:278-287 | in Go's scopes, such a declaration gives the variable the value it has in C, and leaves one of the same name outside alone |
| Typing.OuterChanged | c2gofmt/syntax.go:278-287 | an initialiser that assigns the variable changes one outside |
| Booleans.FixThenVisit | c2gofmt/syntax.go:330-345 | fixing an operand before visiting it is fixing the visited one |
| Booleans.SimplifyMeans | c2gofmt/syntax.go:723-795 | simplifying negations keeps every expression's value, effects and order exactly when the comparisons are complementary |
| Booleans.SimplifyKeeps | c2gofmt/syntax.go:723-795 | for complementary comparisons nothing changes, whatever expressions are marked as floating point |
| Booleans.SimplifyStaysBoolean | c2gofmt/syntax.go:723-791 | simplified conditions stay Go booleans, and only they are |
| Booleans.SimplifyDrives | c2gofmt/syntax.go:721-791 | no negation is left of a conjunction, disjunction or comparison, but of operands it has been pushed to in this pass, and of comparisons marked as floating point |
| Booleans.SimplifyNot | c2gofmt/syntax.go:728-789 | the loop over parentheses and the cases give the specified expression |
| Switch.SwitchMeans | c2gofmt/syntax.go:436-501 | from every label and in every world the Go switch ends like the C switch, exactly when the stated condition holds at each case |
| Switch.SwitchAgrees | c2gofmt/syntax.go:436-501 | under the condition both switches end alike, and the result is a Go program |
| Switch.NoEmptyCase | c2gofmt/syntax.go:436-486 | no case on an empty statement and default last among its labels are enough |
| Switch.EmptyCaseLost | c2gofmt/syntax.go:458-472 | a program whose second clause loses its fall-through |
| Switch.WhenLabelsGood | c2gofmt/syntax.go:442-458 | all labels lead to the statement when there is a name among them or default comes last |
| Switch.SameLabels | c2gofmt/syntax.go:442-458 | relabelling loses no label and makes none up |
| Switch.NamesBehind | c2gofmt/syntax.go:441-458 | at a case, no name is left in front of a case or default label |
| Switch.InlinedRuns | c2gofmt/decls.go:17-31 | inlining blocks without braces keeps the run from every label |
| Switch.SwitchNode.Rewrite | c2gofmt/syntax.go:436-486 | the statement list is rewritten in place as specified |
| Switch.SwitchNode.InlineBlockNoBrace | c2gofmt/decls.go:17-31 | the inlined list |
| Switch.CloseClause | c2gofmt/syntax.go:460-471 | the break removed or the fallthrough added at the end of a clause |
| Switch.ClosedIs | c2gofmt/syntax.go:460-483 | of the last statement of a clause that is not empty: a break without labels becomes empty, and one that runs on gets a fallthrough behind it |
| Switch.Relabel | c2gofmt/syntax.go:442-458 | cases, default, names in order, if there are both kinds |
| Printer.RoundTrip | c2gofmt/printer.go:352-545 | Go's grammar reads the printed tokens as the C tree without parentheses, for every tree and context |
| Printer.PrintedMeans | c2gofmt/printer.go:295-545 | Go computes from the printed text what C computes from the expression, whatever names and operations stand for, with -> of pointers and . of structures both written as a period |
| Printer.TextDecidesMeaning | c2gofmt/printer.go:352-545 | equal texts have equal meanings |
| Printer.ParsesBinary | c2gofmt/printer.go:372-388 | parsing at any level no tighter than the context reads the operand and goes on from there |
| Printer.ParsesPrimary | c2gofmt/printer.go:438-443 | an operand printed for an index or a selector is a primary expression |
| Printer.PrecsAgree | c2gofmt/printer.go:220-293 | the table's precedences are Go's five levels in reverse |
| Printer.PrintedScans | c2gofmt/printer.go:380-387 | the text scans into the operators that were printed exactly when no & is applied to ~ and no member is taken of a number |
| Printer.UnariesMerge | c2gofmt/printer.go:380-386 | the forced parentheses are what keeps repeated unary operators apart |
| Printer.Printer.PrintExpr | c2gofmt/printer.go:352-388 | appends the specified pieces to the buffer |
| Patterns.MatchIffSubst | c2gofmt/rewrite.go:187-347 | a tree matches exactly when some substitution of expressions makes the pattern the same, and the recorded one does |
| Patterns.MatchThenSubst | c2gofmt/rewrite.go:187-347 | putting the bindings back rebuilds what was matched, with any valid position |
| Patterns.SubstThenMatch | c2gofmt/rewrite.go:187-276 | matching finds bindings that agree with any given substitution |
| Patterns.MatchExtends | c2gofmt/rewrite.go:190-205 | bindings are only added, so that repeated wildcards agree |
| Patterns.SameIffBare | c2gofmt/rewrite.go:211-276 | two trees are the same exactly when nothing but positions and objects tells them apart, and calls agree on dots |
| Patterns.NameMatches | c2gofmt/rewrite.go:182-205 | a name in a pattern matches every expression exactly when it is a single lower-case letter, and otherwise only itself |
| Patterns.SelectorNames | c2gofmt/rewrite.go:258-267 | the name selected is no wildcard, in matching and in substituting |
| Patterns.SubstCopies | c2gofmt/rewrite.go:278-347 | without bindings and a position the copy is exact |
| Patterns.SubstRespectsSame | c2gofmt/rewrite.go:282-347 | bindings that are the same up to positions give the same tree up to positions |
| Patterns.DotsStay | c2gofmt/rewrite.go:228-237 | substituting keeps the dots of all calls exactly when the position is valid or there are none |
| Patterns.Matcher.DoMatch | c2gofmt/rewrite.go:190-276 | the result and the recorded bindings are as specified |
| Encodings.PrependLen | mote/internal/cpace/cpace.go:371-387 | the length in LEB128 and the value are appended |
| Encodings.PrependedLenUnique | mote/internal/cpace/cpace.go:371-387 | a value and its end can be read off any text that starts with its encoding |
| Encodings.LvCatInjective | mote/internal/cpace/cpace.go:389-396 | lv_cat is uniquely decodable, the number of values included |
| Encodings.LvCatTo | mote/internal/cpace/cpace.go:389-396 | all values are appended with their lengths |
| Encodings.MaxLenPrefix | mote/internal/cpace/cpace.go:367-369 | a length that fits an int needs at most ten bytes |
| Encodings.GeneratorStringInjective | mote/internal/cpace/cpace.go:323-336 | the generator string determines password, channel and session |
| Encodings.FillsOneBlock | mote/internal/cpace/cpace.go:323-336 | the first three fields fill exactly one block exactly when the password has at most 117 bytes |
| Encodings.GeneratorBufferSuffices | mote/internal/cpace/cpace.go:328-335 | the preallocated buffer is never outgrown |
| Encodings.SessionKeyBufferSuffices | mote/internal/cpace/cpace.go:244-254 | the preallocated buffer is never outgrown, in every role |
| Encodings.ComputeGeneratorString | mote/internal/cpace/cpace.go:327-336 | the program builds the specified string |
| Encodings.OCatSymmetric | mote/internal/cpace/cpace.go:398-407 | the two parties need not agree on who is first |
| Encodings.OCatLargestFirst | mote/internal/cpace/cpace.go:398-407 | the value that is later in lexicographic order comes first |
| Encodings.SymmetricTranscriptUnique | mote/internal/cpace/cpace.go:358-365 | a symmetric transcript determines the two messages up to their order |
| Encodings.OrderedTranscriptUnique | mote/internal/cpace/cpace.go:358-365 | an ordered transcript determines the messages |
| Encodings.InitiatorFirst | mote/internal/cpace/cpace.go:358-365 | an ordered transcript starts with what the initiator sent |
| Encodings.SessionKeyInputUnique | mote/internal/cpace/cpace.go:244-255 | what is hashed into the session key determines session, shared point and messages, up to their order when symmetric; and the kind of roles, unless a first message has 111 bytes |
| Encodings.TranscriptTo | mote/internal/cpace/cpace.go:358-365 | the program appends the transcript |
| Cpace.Exchange.Finish | mote/internal/cpace/cpace.go:204-277 | the state and key after the peer's message are as specified, on every path |
| Cpace.Exchange.Verify | mote/internal/cpace/cpace.go:301-313 | accepts exactly the expected tag, and nothing before the exchange is finished |
| Cpace.FinishOnce | mote/internal/cpace/cpace.go:208-217 | a second use of the scalar is refused and changes nothing |
| Cpace.SharedPoint | mote/internal/cpace/cpace.go:231-236 | the shared points are equal exactly when password, channel and session are |
| Cpace.MatchedParties | mote/internal/cpace/cpace.go:204-277 | equal passwords give equal keys and session identifiers, and each accepts the other's tag |
| Cpace.AcceptedTagBinds | mote/internal/cpace/cpace.go:286-313 | a tag made by the other role is accepted only with equal passwords, channels and sessions and both messages unchanged, whoever carried them |
| Cpace.NoSelfConfirmation | mote/internal/cpace/cpace.go:219-225 | no initiator accepts an initiator's tag, and no responder a responder's, its own included |
| Cpace.SessionIdBinds | mote/internal/cpace/cpace.go:258-261 | equal session identifiers are those of the same messages |
| Noise.HandshakeAgrees | mote/internal/noise/noise.go:219-305 | with one pre-shared key both sides end with the same two fresh ciphers, which have different keys |
| Noise.KeysApart | mote/internal/noise/noise.go:98-165 | the two directions have different keys, and handshakes that differ in the pre-shared key, an ephemeral key or the shared point have no key in common |
| Noise.SecondBinds | mote/internal/noise/noise.go:98-165 | the key of the second payload determines the pre-shared key, both ephemeral keys and the shared point, and with its associated data the first payload too |
| Noise.HashBinds | mote/internal/noise/noise.go:112-130 | the associated data of the second payload by itself determines the pre-shared key and all that has been sent |
| Noise.ResponderTerms | mote/internal/noise/noise.go:219-305 | of which terms the keys of a responder that has finished are made, whatever it was sent |
| Noise.InitiatorTerms | mote/internal/noise/noise.go:219-305 | and those of an initiator |
| Noise.SplitSeparates | mote/internal/noise/noise.go:158-165 | the two transport keys differ, and those of different chaining keys all do |
| Noise.MessageArrives | mote/internal/noise/noise.go:219-305 | a written message is read back with its payload, and leaves both sides in step |
| Noise.StepsKeepProper | mote/internal/noise/noise.go:171-172 | a failed handshake refuses every later step |
| Noise.HandshakeState.WriteMessage | mote/internal/noise/noise.go:215-260 | the state, message and ciphers are as specified, and any failure is recorded |
| Noise.HandshakeState.ReadMessage | mote/internal/noise/noise.go:262-305 | the state, payload and ciphers are as specified, and any failure is recorded |
| Noise.SymmetricState.DoMixKeyAndHash | mote/internal/noise/noise.go:125-130 | the three derived keys go where section 5.2 of the Noise framework puts them |
| Noise.DeriveKeys | mote/internal/noise/noise.go:78-96 | the loop computes the chain of outputs |
| Secure.SamePassword | mote/secure.go:35-163 | over a faithful connection equal passwords give, after five rounds and ever after, two channels with the same ciphers crosswise, at nonce 0 and with different keys for the two directions |
| Secure.DifferentPasswords | mote/secure.go:35-163 | with different passwords neither side ever gets a channel, and the server sends nothing but its share |
| Secure.ServerAccepts | mote/secure.go:60-74 | a server goes past its share on a client's tag only with that client's password and both shares unchanged |
| Secure.ServerKnowsClient | mote/secure.go:60-74 | if tags cannot be forged, which is the hypothesis named Unforgeable, a server that goes past its share has a client with the same password as partner, and both have each other's share, whoever else is on the network |
| Secure.ClientKnowsServer | mote/secure.go:125-138 | under the same hypothesis, a client that goes on to Noise has such a server as partner |
| Secure.ServerKeys | mote/secure.go:76-98 | whatever a server was sent, its channel writes under the responder's key and reads under the initiator's, made of the terms it has seen |
| Secure.ClientKeys | mote/secure.go:140-163 | and a client's the other way round |
| Secure.ServersApart | mote/secure.go:76-98 | two servers with different pre-shared keys or shared points have no key in common |
| Secure.SecureServer | mote/secure.go:35-98 | what is sent and the result are as specified for every sequence of packets received |
| Secure.SecureClient | mote/secure.go:100-163 | what is sent and the result are as specified for every sequence of packets received |
| Stream.StreamIsFaithful | mote/secure.go:165-237 | after any writes and reads, with reads between the frames of a write, what was read is a prefix of what was written, all of it when nothing is under way, and no two messages share a nonce |
| Stream.StreamIsAuthentic | mote/secure.go:190-237 | from a wire that holds any bytes, of which nothing opens that the writer did not send under that length and number, what is read is a prefix of what was written, and what was taken are the writer's frames |
| Stream.WriteIsItsFrames | mote/secure.go:213-237 | sending the frames of a write one by one is what one call does, also when the nonces run out |
| Stream.FilledBehind | mote/secure.go:190-211 | frames that arrive during a read do not change what it gets |
| Stream.ReadsProgress | mote/secure.go:190-211 | a read with room gets at least a byte whenever something is left |
| Stream.FrameRead | mote/secure.go:193-207 | the reader takes exactly the first frame and gets what was in it |
| Stream.NonceInjective | mote/internal/noise/noise.go:45-51 | different counters give different nonces |
| Stream.SecureStream.Write | mote/secure.go:213-237 | frames, nonces and count are as specified, also when the nonces run out |
| Stream.SecureStream.Read | mote/secure.go:190-211 | bytes stored, state and count are as specified |
| Stream.CipherState.Encrypt | mote/internal/noise/noise.go:53-62 | seals under the counter and advances it, or refuses at its limit |
| Stream.CipherState.Decrypt | mote/internal/noise/noise.go:64-76 | the counter advances only when the message is authentic |
| Vectors.PrependLenAnswers | mote/internal/cpace/cpace_test.go:86-109 | the vectors for prepend_len of Appendix A.1.2 of the CPace draft |
| Vectors.LvCatAnswer | mote/internal/cpace/cpace_test.go:111-118 | the vector for lv_cat of Appendix A.1.4 |
| Vectors.OCatAnswers | mote/internal/cpace/cpace_test.go:120-135 | the vectors for o_cat of Appendix A.3.3 |
| Vectors.TranscriptAnswers | mote/internal/cpace/cpace_test.go:137-159 | a vector for each kind of transcript of Appendices A.3.5 and A.3.7 |
| Vectors.GeneratorAnswer | mote/internal/cpace/cpace_test.go:161-170 | the layout of the generator string of Appendix B.1.1, for all strings of its lengths |
| Vectors.SessionKeyAnswer | mote/internal/cpace/cpace_test.go:57-62 | the layout of what the session key is computed from in Appendix B.1.4, for all strings of its lengths |
| Vectors.NoiseKeys | mote/internal/noise/noise.go:78-165 | which derived key becomes the chaining key, the hash input and the cipher key, as in sections 4.3 and 5.2 of the Noise framework |
| Vectors.Layouts | mote/protocol.md:9-14 | the order of bytes in packet lengths, frame lengths and nonces |
| Vectors.NamesSpelled | mote/internal/cpace/cpace.go:62-67 | the domain separators, the name of the Noise protocol and the channel are spelled as they are |
| Packets.PacketRoundTrip | mote/packet.go:85-229 | a packet is read back, with what follows left alone, exactly when its sizes fit |
| Packets.ParseSeveral | mote/packet.go:161-229 | a sequence of packets is read back whatever follows |
| Packets.CutShort | mote/packet.go:203-229 | a packet cut short is no packet |
| Packets.ByteConn.WritePacket | mote/packet.go:85-117 | header, JSON and data are written in order |
| Packets.ByteConn.WritePacketStream | mote/packet.go:119-159 | succeeds exactly when the size fits and is that of the source |
| Packets.ByteConn.ReadPacket | mote/packet.go:161-173 | takes exactly the first packet |
| Packets.ByteConn.ReadHandshakePacket | mote/packet.go:175-201 | takes exactly a small packet without JSON |
| Serve.HonestSession | mote/server.go:113-259 | whenever the two programs have come to rest, the command was started exactly when the request is acceptable; then each missing hash was asked for once, one upload answered, and every path holds its own file |
| Serve.Settles | mote/client.go:137-190 | every conversation of the two programs comes to rest |
| Serve.ServerKeepsSound | mote/server.go:113-259 | whatever packets a client sends, the cache maps a hash only to content with that hash |
| Serve.ServerConverses | mote/server.go:154-259 | whatever a client sends, the server answers each packet once; it has started a command only after a Setup first, at most one Upload, and a Start last, behind Ready, and then in the tree announced; a failure it tells, unless it could not read the packet |
| Serve.ClientConverses | mote/client.go:137-190 | whatever a server sends, the client announces its files, answers each Need with the upload asked for, and sends Start only behind Ready and last |
| Serve.RunServer | mote/server.go:154-259 | what is sent, the cache and the result are as specified for every sequence of packets received |
| Serve.FetchFiles | mote/server.go:181-204 | asks for the missing files and saves the upload, on every path |
| Serve.InstallTree | mote/server.go:212-259 | builds the tree and the directory, and waits for the request to start |
| Serve.RunClient | mote/client.go:137-190 | what is sent and the result are as specified for every sequence of packets received |
| Trees.PlacedIff | mote/server.go:221-233 | the tree is built exactly when all files are there and their paths fit: valid, below the root, none below another; then each path holds the file announced for it last |
| Trees.TwoVolumes | mote/cache.go:144-153 | of files v:p and w:p/q on two volumes the second lies below the first, so that their tree cannot be built |
| Trees.LaidIff | mote/cache.go:121-142 | creating files works exactly when every path is below the root and none below another |
| Trees.RemotePathInside | mote/cache.go:144-158 | whatever path the client sends, the result is not outside the temporary directory |
| Trees.RemotePathOnVolume | mote/cache.go:144-158 | a path on a volume keeps all its names, in order |
| Trees.RemotePathKeeps | mote/cache.go:144-158 | a path without a volume does exactly when its first name does not start with a colon |
| Trees.JoinedSplit | mote/cache.go:153-157 | the components of a path are what its slashes separate |
| Trees.SplitJoined | mote/cache.go:153-157 | and slashes separate all of them |
| Trees.CacheFilesApart | mote/cache.go:71-74 | the cache files of valid hashes are inside the cache, one for each hash, none below another, and none a temporary file |
| Trees.CreateFile | mote/cache.go:121-142 | creates or truncates the file, or fails on a file or directory in its way |
| Trees.PlaceFiles | mote/server.go:221-233 | the tree, or a failure for an invalid path, a path in the way or a missing file |
| Session.HonestUpload | mote/client.go:150-177 | the upload is refused exactly when it does not fit a packet, and otherwise accepted whole |
| Session.CacheStaysSound | mote/cache.go:89-119 | whatever the client uploads, the cache maps a hash only to content with that hash |
| Session.UploadSplits | mote/client.go:164-177 | the one upload is the files asked for, made exactly when they fit a packet, and saving takes each from the front |
| Session.NeededOnce | mote/server.go:172-180 | no hash is asked for twice, and exactly those announced with a size that no content in the cache with that hash has |
| Session.ValidHashIff | mote/cache.go:56-69 | the valid hashes are the lower-case hexadecimal texts of 32 bytes |
| Session.LastCounts | mote/server.go:164-170 | of several files announced with one hash the last one counts, for the server and the client |
| Session.SavedSizes | mote/cache.go:89-119 | an upload is accepted only if every file asked for has come with its size and hash |
| Session.UploadsAnnounced | mote/client.go:150-175 | whatever a server asks for, it gets announced files, as far as they were announced, and nothing else |
| Session.Cache.Save | mote/cache.go:89-119 | stores the content only if it is complete and has the hash |
| Session.CheckFiles | mote/server.go:164-170 | accepts exactly valid hashes and sizes, and records the last size of each |
| Session.FindNeeded | mote/server.go:172-180 | the list of missing hashes |
| Session.SaveUpload | mote/server.go:193-204 | refuses a wrong total size, saves in order, and keeps the cache sound on every path |
| Session.AnswerNeed | mote/client.go:150-175 | the size and stream of the upload, or a failure for an unknown hash, an unreadable file or 2^32 bytes and more |
| Output.OutputInOrder | mote/server.go:278-326 | in every interleaving with hang-ups, Kill requests and failing writes, for every part that has arrived, each output is in order, and Exit is last, carries the status the command ended with, and comes after all that the command wrote, which is everything unless it was killed |
| Output.Concludes | mote/server.go:278-326 | every run is finite; one that cannot go on is over; and then, unless the client has hung up, the bytes written end with Exit and the status the command ended with |
| Output.KilledIff | mote/server.go:278-326 | in any run the command is killed exactly when a copier failed to write, or a Kill request or the end of the requests was seen while it ran |
| Output.NeverStuck | mote/server.go:295-326 | until the server is done, one of its goroutines can go on |
| Output.StepKeepsInv | mote/server.go:295-326 | every step keeps: while the connection lives, what was read of an output is what was sent and what its copier holds, and the bytes written are whole packets |
| Output.Receive | mote/client.go:200-219 | the client's loop collects each stream, stops at Exit, and returns its exit status |
| Daemon.Safety | mote/taildaemon.go:357-446 | whether the accept loop ends for a closed socket or another error: active counts the clients between add(1) and add(-1); an open idle daemon has its timer armed or an expire under way; at most one client serves; run returns only after all clients finished, with the socket closed and the timer off |
| Daemon.StepKeepsInv | mote/taildaemon.go:357-564 | every step of every goroutine keeps the invariant |
| Daemon.ExpireSparesClients | mote/taildaemon.go:412-420 | expire closes the socket only when no client is counted |
| Daemon.StopStops | mote/taildaemon.go:377-378 | in every run, once a client has asked the daemon to stop, its socket is closed for good and no connection is accepted |
| Daemon.ClosedBy | mote/taildaemon.go:357-446 | the socket is closed only by a request to stop, by an expire call while no client is counted, or by the end of the run |
| Daemon.ServerKeepsLog | mote/taildaemon.go:505-518 | a registered server keeps the log whatever others do, a finishing server included |
| Daemon.OneServer | mote/taildaemon.go:486-511 | two registered servers are the same client |
| Daemon.NeverStuck | mote/taildaemon.go:357-446 | until run returns something other than a new connection or an error of the socket can happen |
| Daemon.Terminates | mote/taildaemon.go:357-446 | without new connections every run is short, and one that cannot go on has returned |
| Daemon.StaleExpire | mote/taildaemon.go:399-420 | in any run, an expire call can at some point close the socket of a daemon whose timer is armed exactly when the timer was armed while an expire call was under way |
| Daemon.StaleExpireRun | mote/taildaemon.go:399-420 | a run in which that happens |
| Daemon.Node.Add | mote/taildaemon.go:399-410 | adjusts the count, and arms or disarms the timer |
| Daemon.Node.Expire | mote/taildaemon.go:412-420 | closes the socket unless a client is counted |
| Daemon.Node.Register | mote/taildaemon.go:488-503 | registers a server exactly when there is none |
| Daemon.Node.Attach | mote/taildaemon.go:552-556 | the log becomes that of the given server |
| Daemon.Node.Detach | mote/taildaemon.go:558-564 | gives the log up only if it is one's own |
| Daemon.Node.Stop | mote/taildaemon.go:377-378 | closes the socket and changes nothing else |
| Hex.HexIsTransparent | mote/hex.go:73-161 | for any writes, line breaks added or removed anywhere, chunking, errors that come with or without data, and buffer sizes, what is read is a prefix of what was written, all of it once the bytes have come |
| Hex.BreaksIgnored | mote/hex.go:126-131 | line breaks make no difference, also between the digits of a byte |
| Hex.UnhexIff | mote/hex.go:150-161 | a character has the value of its place among the lower-case or the upper-case digits, and no other has one |
| Hex.FeedRefuses | mote/hex.go:126-133 | decoding fails exactly at what is neither digit nor line break, and has then decoded what comes before |
| Hex.FeedDigits | mote/hex.go:134-141 | digits of either case make bytes two by two, the first the high half |
| Hex.ReadRefuses | mote/hex.go:111-148 | of any bytes whatever, a read takes some and decodes those; it fails exactly when something among them is not hex, and otherwise brings a byte or an error |
| Hex.LinesShort | mote/hex.go:38-41 | no line is longer than 128 digits, and only the last is shorter |
| Hex.NewlineEvery128 | mote/hex.go:81-96 | newlines come after every 128 digits and at the end, and nowhere else |
| Hex.FeedLength | mote/hex.go:118-122 | decoding twice as many digits as the buffer has room never overruns it, a digit left over included |
| Hex.WrittenDigits | mote/hex.go:81-96 | only line breaks come between the digits written |
| Hex.HexWriter.Write | mote/hex.go:81-96 | one write of all lines |
| Hex.HexReader.Read | mote/hex.go:111-148 | bytes stored, state and errors are as specified, also for data that comes with an error |
| Hex.HexReader.Decode | mote/hex.go:125-142 | stores exactly the decoded bytes within the buffer and remembers half a pair |
| Bench.Scheduled | benchlab/bench.go:175-251 | in every interleaving at most maxJobs jobs are in flight, a command runs only after its parent passed, and every job is reported exactly once |
| Bench.NeverStuck | benchlab/bench.go:208-226 | until the machine is done something can happen |
| Bench.CanProceed | benchlab/bench.go:229-235 | a job that waits can go on, or an earlier one it waits for can |
| Bench.Completes | benchlab/bench.go:208-226 | every run is finite, and one that cannot go on has completed |
| Bench.ReportsOnce | benchlab/bench.go:211-225 | a job has been reported once or not at all |
| Bench.ResultsAreCommands | benchlab/bench.go:229-251 | in every run a job passes exactly when its command ended well; one whose parent failed does not |
| Bench.ParentBefore | benchlab/bench.go:124-162 | an uncached test precedes its benchmarks in the machine's queue |
| Bench.PlanIsSane | benchlab/bench.go:124-162 | every queue that is built can be run, and each benchmark waits for its own host-and-commit test, if that is not cached, and nothing else waits |
| Bench.QueuedOnce | benchlab/bench.go:124-162 | no job is queued twice |
| Bench.CreateJobs | benchlab/bench.go:124-162 | the queue of each machine holds the test and all repetitions of the benchmarks of every commit on every host of that machine, but for what is cached, each once, in order of phase and id |
| Bench.QueueHolds | benchlab/bench.go:124-162 | the specified queues are those |
| Edits.AppliesIffDisjoint | gofixerr/edit.go:65-86 | the edits can be applied exactly when no two overlap |
| Edits.BytesOneByOne | gofixerr/edit.go:65-86 | the result is that of applying the sorted edits one at a time from last to first |
| Edits.BytesLength | gofixerr/edit.go:65-86 | the length changes by the sum of the edits' changes |
| Edits.SortedStable | gofixerr/edit.go:68-71 | edits of the same stretch, such as insertions at one point, keep their queue order |
| Edits.SortedInOrder | gofixerr/edit.go:30-35 | the sorted queue is an ordered permutation |
| Edits.InsertionsFirst | gofixerr/edit.go:68-71 | an insertion precedes a replacement that starts at its point |
| Edits.SortedStays | gofixerr/edit.go:65-86 | applying again gives the same text |
| Edits.Buffer.Apply | gofixerr/edit.go:65-86 | sorts the queue in place and gives the text, or fails on an overlap |
| Edits.Buffer.Replace | gofixerr/edit.go:58-63 | queues a valid stretch and refuses others |
| Edits.Buffer.Insert | gofixerr/edit.go:44-49 | queues an empty stretch with its text at a valid position |
| Edits.Buffer.Delete | gofixerr/edit.go:51-53 | queues a valid stretch with no text |

## Left out

- Fermat's little theorem for p and that 2 is not a square mod p: hypotheses of the lemmas that need them.
- Elligator.Elligator2: the constants A and -A are built by a method instead of at start-up.
- Bit operations on words are recursive functions on naturals; shifts and masks by powers of two are written as division and remainder.
- SideEffects.HoistMeans: calls, comma lists and pointers are not part of the expressions, targets are variables, and post-increments take effect where they stand.
- SideEffects.Rewriter.DoSideEffects: the same kinds of expression are left out.
- Syntax trees are values: the rewriters return new trees where the program overwrites nodes; the lists, the counter of temporaries and the statements being rewritten are objects. Temporaries are names apart from the program's own, taken as unused.
- Operators are total functions of their operands; division by zero and other faults are not modelled.
- Loops.ForMeans: for loops that lose no clause that matters, which Loops.UnbracedMeans shows to be necessary.
- Traversal.VisitMeans: switch statements are rewritten in Switch and are not part of these trees; do loops that continue, and declarations whose initialiser is an assignment or increment or mentions the variable, are covered only where Loops.DoMeans and Typing.DeclIsGo say that they are kept.
- Scopes.HoistProper: the program's own variables are taken as declared around the expression; scopes of whole loops and blocks are not part of it.
- Typing.HoistTyped: numbers, among them pointers, and booleans are the only types; constants and sizes of numbers are not looked at.
- Booleans.FixAllMeans: the only types are whether a variable is a pointer; whether Go accepts what a pointer that is no variable is compared with is not part of the model.
- Switch.SwitchMeans: labels are distinct, the word fallthrough stands right before a case, and a goto into the middle of a clause is not an entry; the value dispatch itself, which both languages do alike, is not modelled.
- Printer.RoundTrip: calls, casts, assignments, literals other than names and numbers, and comments are not part of the trees.
- Printer.TextDecidesMeaning: the same kinds of expression are left out.
- Expressions and statements are defined once for the statement rewriting and again, as far as each looks at them, for the printer and for switch.
- Patterns.MatchIffSubst: fields of interface type stand for what is in them.
- Hashes, MACs, key derivation, scalar multiplication and authenticated encryption are functions with laws; constant-time behaviour and the clearing of secrets are not modelled.
- Noise.SymmetricState: its cipher is a value in a field instead of an object of its own.
- Secure.SamePassword: for shares that differ; equal ones are refused by both sides.
- Stream.StreamIsAuthentic: that nothing on the wire opens that was not sent is a hypothesis, named Unforged; it is about the bytes that arrive, as no law of a function can exclude lucky guesses.
- Stream.StreamIsFaithful: errors of the connection, after which neither side goes on, are not modelled.
- Serve.HonestSession: for digests without collisions, and files that do not change meanwhile; the handshake and the Info packet before it, a Kill request instead of Start, renaming of the command for Windows, limits of the file system on names, the age of cached files, and other sessions on the same cache are not modelled.
- Session.SaveUpload: the sum of the sizes asked for does not wrap around; sizes that would make it wrap fail one step later, when the upload turns out too short.
- JSON, processes, pipes, files and sockets are byte sequences, maps or nondeterministic steps; deadlines and the number of sessions are not modelled.
- Output.OutputInOrder: that the command has not exited and killing it are one step, and which processes a kill reaches is not modelled.
- Daemon.Safety: dialling out, the content of the protocol, the log's text and the tailnet listener are not modelled.
- Hex.HexIsTransparent: the handshake line and the text of error messages are not modelled.
- Bench.Scheduled: the output files, statistics, uploads and the counting of processors are not modelled.
- Edits.SortedStable: the library's stable sort is an insertion sort.
- Declaration motion, comments, renaming, type printing, the C grammar and the unused type checker of c2gofmt; commands, flags, aliases and configuration files of the other programs.
