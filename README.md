# Formal languages toolkit: a Dafny model

This project models the core of a Kotlin course toolkit for formal languages. The model covers five parts:

- **Chomsky normal form** (`hw06.formal`): a mutable context-free grammar whose productions sit in an insertion-ordered map from left-hand side to an insertion-ordered set. `toChomskyNormalForm` runs four passes, and each pass fills a fresh grammar:
  1. split long right-hand sides;
  2. remove ε-productions;
  3. remove chain (unit) productions with a Warshall closure on a boolean matrix;
  4. replace terminals in long right-hand sides.
- **Grammar ∩ automaton** (`IntersectionCFGrammar`): the grammar of triples `[s,X,t]` for a grammar in normal form and a finite automaton read from a graphviz graph. It is built by a worklist over reached triples.
- **Grammar reader and symbols** (`grammar`): the second grammar model, in which symbols carry their kind, and `readGrammar`, which parses the text format `S: a B  B: b`.
- **LR(0)** (`lr0`): the augmented grammar, the closure and `goto` of item sets, the depth-first construction of the canonical automaton, and the parse table that `toString` prints or the `LR0ConflictFound` it throws.
- **Syntax tree** (`parser.ast`): the nodes of the language `L` with their `toString`, and `PlantUMLConverter`, which draws a tree as a PlantUML state diagram.

Code that works by changing state is modelled as classes and methods:

- `CFGrammar`;
- the four passes;
- Warshall's loop on an `array2`;
- `IntersectionCFGrammar`;
- `LR0Automaton`;
- `PlantUMLConverter`;
- the reader's loops.

Each of these is proved against a pure specification: a function its new state equals (the depth-first `Explore` for `LR0Automaton`, the run functions for `IntersectionCFGrammar`) or a predicate characterising the finished result (`Built`, `Finished`). The properties are lemmas about those. The as-written behaviour of the four defects listed under "## Findings" is modelled beside the corrected one.

Modules:

- `Util`: shared helpers.
- `CfGrammar`: symbols, grammar values and the mutable grammar.
- `CnfLong`, `CnfEps`, `CnfEpsAsWritten`, `CnfChain`, `CnfTerminals`: the passes of Chomsky normal form.
- `Cnf`: the pipeline.
- `IntersectionSpec`, `IntersectionRun`, `Intersection`: the intersection construction.
- `GrammarNodes`, `GrammarReader`: the second grammar model and its reader.
- `Lr0Items`, `Lr0Automaton`, `Lr0Table`: LR(0).
- `AstNodes`, `AstPlantUml`, `AstPlantUmlFacts`: the syntax tree and its diagram.

## Model

| member | source | states |
|---|---|---|
| CfGrammar.MakeSymbol | src/main/java/hw06/formal/cfGrammar.kt:27-35 | the label is kept; `eps` gives the shared `EPS`; a symbol is a terminal exactly when its label starts with a lower-case letter |
| CfGrammar.ClassificationExamples | src/main/java/hw06/formal/cfGrammar.kt:6-35 | brackets and `S` are non-terminals; `a` and `eps` are terminals, and `eps` is `EPS` |
| CfGrammar.Empty | src/main/java/hw06/formal/cfGrammar.kt:60-62 | a new grammar is well formed and has no production |
| CfGrammar.Insert | src/main/java/hw06/formal/cfGrammar.kt:64-66 | after insertion the production is present and the start symbol is unchanged; inserting a present production changes nothing |
| CfGrammar.InsertFacts | src/main/java/hw06/formal/cfGrammar.kt:64-66 | insertion adds exactly that production, leaves other left-hand sides alone, adds its key only if it was missing, and keeps well-formedness |
| CfGrammar.InsertIdempotent | src/main/java/hw06/formal/cfGrammar.kt:64-66 | inserting twice is inserting once (set semantics) |
| CfGrammar.InsertAllHas | src/main/java/hw06/formal/cfGrammar.kt:64-66 | a sequence of insertions holds exactly the old productions and the inserted ones, with the same start, and keeps well-formedness |
| CfGrammar.InsertAllAppend | src/main/java/hw06/formal/cfGrammar.kt:64-66 | inserting `a + b` is inserting `a`, then `b` |
| CfGrammar.CFGrammar.constructor | src/main/java/hw06/formal/cfGrammar.kt:60-62 | a new mutable grammar is valid and empty, with the given start symbol |
| CfGrammar.CFGrammar.AddProduction | src/main/java/hw06/formal/cfGrammar.kt:64-66 | the mutable grammar becomes `Insert(old, p)` and stays valid (the intended create-if-missing behaviour) |
| CfGrammar.AddProductionAsWritten | src/main/java/hw06/formal/cfGrammar.kt:64-66 | the as-written `addProduction` succeeds exactly when the left-hand side is already a key, and then agrees with `Insert` |
| CfGrammar.AddProductionAsWrittenFailsOnFreshGrammar | src/main/java/hw06/formal/cfGrammar.kt:64-66 | on a freshly constructed grammar the as-written insertion always fails |
| CfGrammar.PrintLinesComplete | src/main/java/hw06/formal/cfGrammar.kt:280-300 | `printTo` writes a line for every production |
| CfGrammar.PrintLinesStartFirst | src/main/java/hw06/formal/cfGrammar.kt:280-292 | the start symbol's productions are written first, in their order |
| CfGrammar.PrintLinesSound | src/main/java/hw06/formal/cfGrammar.kt:280-300 | every line written is a production's line or the placeholder `S: S` |
| CnfLong.FreshSymbolsDistinct | src/main/java/hw06/formal/cfGrammar.kt:86-89 | fresh symbols of one left-hand side differ from it and from each other |
| CnfLong.ChainShape | src/main/java/hw06/formal/cfGrammar.kt:86-102 | a long production becomes k-1 binary links: the first keeps the left-hand side, link i defines fresh symbol c+i-1, and each link's second symbol is the next link's head |
| CnfLong.ChainRoundTrip | src/main/java/hw06/formal/cfGrammar.kt:86-102 | unchaining the links gives back the original right-hand side |
| CnfLong.CounterRangesDisjoint | src/main/java/hw06/formal/cfGrammar.kt:77-89 | two long productions of one left-hand side use disjoint counter ranges |
| CnfLong.ShortenedShape | src/main/java/hw06/formal/cfGrammar.kt:75-106 | every production of the result has at most two right-hand symbols, and at least one if every input production had one |
| CnfLong.ShortenedKeepsShort | src/main/java/hw06/formal/cfGrammar.kt:82-85 | a production with at most two symbols is copied unchanged |
| CnfLong.ShortenedSplitsLong | src/main/java/hw06/formal/cfGrammar.kt:86-102 | a long production is replaced by its chain, numbered from the counter its left-hand side reached |
| CnfLong.ShortenedOrigin | src/main/java/hw06/formal/cfGrammar.kt:75-106 | every production of the result is a short input production or a link of some chain |
| CnfLong.FreshSymbols | src/main/java/hw06/formal/cfGrammar.kt:86-89 | the `addedSymbols` list holds the fresh symbols counter, counter+1, … |
| CnfLong.RemoveLongProductions | src/main/java/hw06/formal/cfGrammar.kt:75-106 | the new grammar is fresh, valid and equal to `Shortened` of the input |
| CnfEps.NullableLeastClosed | src/main/java/hw06/formal/cfGrammar.kt:139-155 | the nullable symbols form the least set closed under the nullability rules |
| CnfEps.NullableRules | src/main/java/hw06/formal/cfGrammar.kt:139-155 | `eps` is nullable; a symbol without productions is not; a left-hand side is nullable exactly when one of its productions has only nullable symbols |
| CnfEps.Sweep | src/main/java/hw06/formal/cfGrammar.kt:139-155 | one sweep only adds nullable symbols; if it adds none, every production is settled |
| CnfEps.ComputeNullable | src/main/java/hw06/formal/cfGrammar.kt:109-113 | the computed set is exactly the least fixpoint `Nullable` |
| CnfEps.ExpandComplete | src/main/java/hw06/formal/cfGrammar.kt:157-180 | every variant that drops only nullable symbols is generated |
| CnfEps.ExpandSound | src/main/java/hw06/formal/cfGrammar.kt:157-180 | every generated variant drops only nullable symbols |
| CnfEps.EpsFreeOneMembers | src/main/java/hw06/formal/cfGrammar.kt:157-180 | a production's replacements are exactly its kept variants that drop nullable symbols |
| CnfEps.EpsFreeStart | src/main/java/hw06/formal/cfGrammar.kt:115-124 | the start becomes `S'` exactly when `S` is nullable, with exactly `S' -> eps` and `S' -> S` unless `S'` is already a left-hand side |
| CnfEps.EpsFreeMembers | src/main/java/hw06/formal/cfGrammar.kt:108-137 | apart from the start productions, the result holds exactly the non-empty variants, not starting with `eps`, that drop nullable symbols |
| CnfEps.EpsFreeKeepsKept | src/main/java/hw06/formal/cfGrammar.kt:125-135 | a production that is non-empty and does not start with `eps` survives unchanged |
| CnfEps.GenerateNonEpsProductions | src/main/java/hw06/formal/cfGrammar.kt:157-180 | the recursion inserts exactly the kept variants reachable from the chosen prefix |
| CnfEps.RemoveEpsProductions | src/main/java/hw06/formal/cfGrammar.kt:108-137 | the new grammar is fresh, valid and equal to `EpsFree` of the input |
| CnfEpsAsWritten.EvalKeysRight | src/main/java/hw06/formal/cfGrammar.kt:139-155 | whenever the as-written memoised recursion completes, every entry it records is right |
| CnfEpsAsWritten.AsWrittenAgreesWhenItCompletes | src/main/java/hw06/formal/cfGrammar.kt:108-180 | whenever the as-written pass completes, it builds the same grammar as the fixpoint model |
| CnfEpsAsWritten.SelfLoopDiverges | src/main/java/hw06/formal/cfGrammar.kt:139-155 | on `S -> S` the as-written recursion never ends, while the fixpoint model keeps `S -> S` |
| CnfEpsAsWritten.TwoTerminalsMissEntry | src/main/java/hw06/formal/cfGrammar.kt:143-172 | on `S -> a b` the as-written lookup of `b` finds no entry, while the fixpoint model keeps `S -> a b` |
| CnfChain.RoundsSound | src/main/java/hw06/formal/cfGrammar.kt:250-259 | a true entry after k Warshall rounds has a walk whose inner nodes are below k |
| CnfChain.RoundsComplete | src/main/java/hw06/formal/cfGrammar.kt:250-259 | a walk whose inner nodes are below k makes the entry true after k rounds |
| CnfChain.ClosureIsReachability | src/main/java/hw06/formal/cfGrammar.kt:250-259 | after all rounds an entry is true exactly when its column is reachable from its row |
| CnfChain.CalculateTransitiveClosure | src/main/java/hw06/formal/cfGrammar.kt:250-259 | the in-place triple loop leaves every entry equal to the n-round recurrence on the matrix the array held on entry |
| CnfChain.UnitMatrixEntry | src/main/java/hw06/formal/cfGrammar.kt:187-203 | entry (i, j) of the unit matrix holds exactly when `keys[i] -> keys[j]` is a production |
| CnfChain.ChainReachesUnitPath | src/main/java/hw06/formal/cfGrammar.kt:182-218 | the chain relation is reachability along unit productions between left-hand sides |
| CnfChain.DirectPart | src/main/java/hw06/formal/cfGrammar.kt:189-200 | the kept part is exactly the productions that are not unit productions to a left-hand side |
| CnfChain.CopiedPart | src/main/java/hw06/formal/cfGrammar.kt:205-216 | `A -> w` is copied exactly when `w` is copyable and some `B` reached from `A` has `B -> w` |
| CnfChain.ChainFreeMembers | src/main/java/hw06/formal/cfGrammar.kt:182-218 | the result holds exactly the direct productions and the copies along chains |
| CnfChain.FillUnits | src/main/java/hw06/formal/cfGrammar.kt:187-203 | the first loop inserts the direct productions and fills the array with the unit matrix |
| CnfChain.AddAllCopies | src/main/java/hw06/formal/cfGrammar.kt:205-216 | the second loop inserts the copies that the closed matrix selects |
| CnfChain.RemoveChainProductions | src/main/java/hw06/formal/cfGrammar.kt:182-218 | the new grammar is fresh, valid and equal to `ChainFree` of the input |
| CnfTerminals.Lift | src/main/java/hw06/formal/cfGrammar.kt:232-233 | the name given to a terminal is a non-terminal |
| CnfTerminals.ReplacedAt | src/main/java/hw06/formal/cfGrammar.kt:230-243 | a replaced right-hand side has no terminal and keeps every non-terminal in place |
| CnfTerminals.TerminalsSeparatedSound | src/main/java/hw06/formal/cfGrammar.kt:220-248 | every production of the result comes from an input production: a copied single symbol, a replaced long production, or an introduced `T -> t` |
| CnfTerminals.TerminalsSeparatedKeepsUnits | src/main/java/hw06/formal/cfGrammar.kt:226-229 | single-symbol productions survive unchanged |
| CnfTerminals.TerminalsSeparatedReplaces | src/main/java/hw06/formal/cfGrammar.kt:230-244 | every other production survives with its terminals replaced |
| CnfTerminals.TerminalsSeparatedDefines | src/main/java/hw06/formal/cfGrammar.kt:232-238 | each name used for a terminal is defined by an introducing production |
| CnfTerminals.TerminalsSeparatedShape | src/main/java/hw06/formal/cfGrammar.kt:220-248 | right-hand sides of two or more symbols hold no terminal |
| CnfTerminals.RemoveNonTerminalsInLongProductions | src/main/java/hw06/formal/cfGrammar.kt:220-248 | the new grammar is fresh, valid and equal to `TerminalsSeparated` of the input |
| Cnf.ChomskyNormalFormShape | src/main/java/hw06/formal/cfGrammar.kt:68-73 | after the pipeline every right-hand side has one or two symbols, and two symbols are both non-terminals |
| Cnf.ChainFreeRhs | src/main/java/hw06/formal/cfGrammar.kt:182-218 | the chain pass creates no new right-hand side |
| Cnf.ToChomskyNormalForm | src/main/java/hw06/formal/cfGrammar.kt:68-73 | the four passes, run in order, build the grammar `ChomskyNormalForm` of the input |
| IntersectionSpec.FindStartNode | src/main/java/hw06/formal/intersection.kt:198-205 | success gives the one `red` node; the failures are "No start nodes." and "More than one start node.", each exactly when it applies |
| IntersectionSpec.FindTerminalNodes | src/main/java/hw06/formal/intersection.kt:207-213 | success gives exactly the `doublecircle` nodes in order; failure exactly when there are none |
| IntersectionSpec.StateSymbol | src/main/java/hw06/formal/intersection.kt:21-23 | a triple's symbol starts with `[` and is a non-terminal |
| IntersectionSpec.InitialisedMembers | src/main/java/hw06/formal/intersection.kt:172-196 | the construction fails exactly when the start or accepting nodes are missing; otherwise it has `S -> [start,S0,t]` per accepting `t` and `[start,S0,start] -> eps` when `S0 -> eps` |
| IntersectionSpec.TerminalsOfMembers | src/main/java/hw06/formal/intersection.kt:142-157 | `computeTerminals` maps each terminal label to exactly the left-hand sides with a unit production to it |
| IntersectionSpec.ProductionsForProductMembers | src/main/java/hw06/formal/intersection.kt:103-120 | the index lists under each symbol exactly the indexed productions that use it |
| IntersectionSpec.FinishedStates | src/main/java/hw06/formal/intersection.kt:64-101 | after `build` a triple is reached exactly when it has a derivation tree over the automaton's edges |
| IntersectionSpec.FinishedProductions | src/main/java/hw06/formal/intersection.kt:64-101 | after `build` the grammar holds exactly the start productions, one letter production per edge, and one join production per pair of reached triples |
| IntersectionSpec.SuitableExamples | src/main/java/hw06/formal/intersection.kt:76-79 | a unit production to a symbol without productions is admitted, since its symbol is never looked up; a unit production to a left-hand side is not, since the fixpoint would read its missing second symbol |
| IntersectionRun.AsWrittenMissesLeftPartner | src/main/java/hw06/formal/intersection.kt:76-97 | with `X -> Y Y`, the as-written step never joins a reached left partner whose start differs, while the corrected step does |
| IntersectionRun.ProcessJoins | src/main/java/hw06/formal/intersection.kt:76-97 | the corrected step joins the popped triple with every partner reached before it, on both sides |
| IntersectionRun.ProcessKeeps | src/main/java/hw06/formal/intersection.kt:76-97 | processing a reached triple keeps the construction's invariant |
| IntersectionRun.TurnProgress | src/main/java/hw06/formal/intersection.kt:71-98 | one turn keeps the invariant, and either reaches a new triple out of finitely many or shortens the queue |
| IntersectionRun.StartProgress | src/main/java/hw06/formal/intersection.kt:64-70 | after the edges are read, the loop's invariant holds |
| IntersectionRun.ProgressFinished | src/main/java/hw06/formal/intersection.kt:71-100 | with the queue empty, the invariant is the finished construction |
| Intersection.IntersectionCFGrammar.constructor | src/main/java/hw06/formal/intersection.kt:46-54 | the object starts unbuilt, and its grammar is the one `initGrammar` makes |
| Intersection.IntersectionCFGrammar.ComputeTerminals | src/main/java/hw06/formal/intersection.kt:142-157 | the loops compute `TerminalsOf` of the grammar |
| Intersection.IntersectionCFGrammar.BuildProductionsForProduct | src/main/java/hw06/formal/intersection.kt:103-120 | the loops compute `ProductionsForProduct` of the grammar |
| Intersection.IntersectionCFGrammar.ReachStateFrom | src/main/java/hw06/formal/intersection.kt:159-170 | adds the join production when there are children, and queues the triple the first time it is reached |
| Intersection.IntersectionCFGrammar.GenerateSingleLetterProductions | src/main/java/hw06/formal/intersection.kt:122-140 | reads every edge into its letter productions (`Seeds`) |
| Intersection.IntersectionCFGrammar.ProcessProductionAsWritten | src/main/java/hw06/formal/intersection.kt:76-97 | the loop body as written, with one side only |
| Intersection.IntersectionCFGrammar.ProcessProduction | src/main/java/hw06/formal/intersection.kt:76-97 | the corrected loop body, which looks for partners on each side the symbol occupies |
| Intersection.IntersectionCFGrammar.ProcessQueue | src/main/java/hw06/formal/intersection.kt:71-98 | the worklist runs until the queue is empty, keeping the invariant |
| Intersection.IntersectionCFGrammar.Build | src/main/java/hw06/formal/intersection.kt:64-101 | after `build` the object is built and the construction is finished; a call on a built object changes nothing (queue, states, history and grammar) |
| Intersection.IntersectionCFGrammar.Get | src/main/java/hw06/formal/intersection.kt:56-62 | `get` builds on first use and returns the finished intersection grammar; later calls return the same grammar and change nothing |
| GrammarNodes.MakeSymbol | src/main/java/grammar/nodes.kt:7-11 | an empty text fails; otherwise the text is kept, and an upper-case first character makes a non-terminal |
| GrammarNodes.MakeSymbolInverse | src/main/java/grammar/nodes.kt:7-23 | `makeSymbol` gives back exactly the correctly classified symbols from their text |
| GrammarNodes.EofIsTerminal | src/main/java/grammar/nodes.kt:19 | `EOF` is the terminal that `makeSymbol("$")` builds |
| GrammarReader.Tokens | src/main/java/grammar/readGrammar.kt:8 | every token is a non-empty word without separators |
| GrammarReader.BeforeColon | src/main/java/grammar/readGrammar.kt:10 | the start label is the longest prefix without `:` |
| GrammarReader.RhsEnd | src/main/java/grammar/readGrammar.kt:32-35 | a right-hand side runs up to the next rule head |
| GrammarReader.ReadGrammar | src/main/java/grammar/readGrammar.kt:7-42 | the method returns what `Read` specifies, including its failures |
| GrammarReader.ReadRules | src/main/java/grammar/readGrammar.kt:18-39 | the outer loop reads the rules `Rules(tokens, 0)` |
| GrammarReader.ReadProducts | src/main/java/grammar/readGrammar.kt:30-35 | the inner loop stops at the next rule head, having read that head's right-hand side |
| GrammarReader.TokensOfJoin | src/main/java/grammar/readGrammar.kt:8 | words joined by spaces split back into the same words |
| GrammarReader.ReadRender | src/main/java/grammar/readGrammar.kt:7-42 | reading the rendering of an expressible grammar gives that grammar back |
| GrammarReader.ReadSuccess | src/main/java/grammar/readGrammar.kt:7-42 | a successful read has the classified label before the first `:` as its start, and rules that render back to the tokens, each with a non-empty right-hand side |
| GrammarReader.RulesNonEmpty | src/main/java/grammar/readGrammar.kt:36-38 | every rule read has a non-empty right-hand side |
| AstNodes.OpsInverse | src/main/java/parser/ast/nodes.kt:159-181 | `ops` maps each operator's string back to that operator and has no other key |
| AstNodes.OpTextInjective | src/main/java/parser/ast/nodes.kt:162-175 | different operators have different strings |
| AstNodes.IndentInverse | src/main/java/parser/ast/nodes.kt:20-24 | indenting puts a tab after every newline and nothing else, so it can be undone |
| AstNodes.StatementTextErased | src/main/java/parser/ast/nodes.kt:29-116 | a statement prints the same text after its positions are erased |
| AstNodes.SamePrintedText | src/main/java/parser/ast/nodes.kt:29-116 | two statements that differ only in positions print the same |
| AstNodes.BracedBlockShape | src/main/java/parser/ast/nodes.kt:16-25 | a braced block prints as `{`, the block's indented text, a newline and `}` |
| AstPlantUml.PlantUmlConverter.constructor | src/main/java/parser/ast/AST.kt:3-18 | the converter's `result` is the diagram `PlantUml(root)` |
| AstPlantUml.PlantUmlConverter.Convert | src/main/java/parser/ast/AST.kt:20-27 | `convert` writes the walk's lines between `@startuml` and `@enduml` |
| AstPlantUml.PlantUmlConverter.AddEdge | src/main/java/parser/ast/AST.kt:29-31 | appends one edge line and leaves the counter alone |
| AstPlantUml.PlantUmlConverter.AddVertex | src/main/java/parser/ast/AST.kt:33-51 | appends a plain state and its description lines |
| AstPlantUml.PlantUmlConverter.DfsBlock | src/main/java/parser/ast/AST.kt:53-62 | the lines, the id and the new counter are those of `EmitBlock` |
| AstPlantUml.PlantUmlConverter.DfsFunctionDefinition | src/main/java/parser/ast/AST.kt:64-79 | follows `EmitFunctionDefinition` |
| AstPlantUml.PlantUmlConverter.DfsVariableDefinition | src/main/java/parser/ast/AST.kt:81-93 | follows `EmitVariableDefinition` |
| AstPlantUml.PlantUmlConverter.DfsReadStatement | src/main/java/parser/ast/AST.kt:95-103 | follows `EmitStatement` |
| AstPlantUml.PlantUmlConverter.DfsWriteStatement | src/main/java/parser/ast/AST.kt:105-113 | follows `EmitWriteStatement` |
| AstPlantUml.PlantUmlConverter.DfsWhileCycle | src/main/java/parser/ast/AST.kt:115-126 | follows `EmitWhileCycle` |
| AstPlantUml.PlantUmlConverter.DfsIfClause | src/main/java/parser/ast/AST.kt:128-142 | follows `EmitIfClause` |
| AstPlantUml.PlantUmlConverter.DfsVariableAssignment | src/main/java/parser/ast/AST.kt:144-154 | follows `EmitVariableAssignment` |
| AstPlantUml.PlantUmlConverter.DfsFunctionCall | src/main/java/parser/ast/AST.kt:156-168 | follows `EmitFunctionCall` |
| AstPlantUml.PlantUmlConverter.DfsIdentifier | src/main/java/parser/ast/AST.kt:171-180 | follows `EmitExpression` |
| AstPlantUml.PlantUmlConverter.DfsNumber | src/main/java/parser/ast/AST.kt:182-190 | follows `EmitExpression` |
| AstPlantUml.PlantUmlConverter.DfsBracedExpression | src/main/java/parser/ast/AST.kt:192-194 | follows `EmitExpression` |
| AstPlantUml.PlantUmlConverter.DfsBinaryExpression | src/main/java/parser/ast/AST.kt:196-206 | follows `EmitBinaryExpression` |
| AstPlantUml.PlantUmlConverter.Dfs | src/main/java/parser/ast/AST.kt:208-226 | follows `Emit` |
| AstPlantUmlFacts.BlockSound | src/main/java/parser/ast/AST.kt:53-62 | a block's drawing numbers its nodes consecutively in pre-order, is balanced, and its edges stay inside the walk |
| AstPlantUmlFacts.StatementSound | src/main/java/parser/ast/AST.kt:64-168 | the same property for every statement |
| AstPlantUmlFacts.ExpressionSound | src/main/java/parser/ast/AST.kt:171-206 | the same property for every expression |
| AstPlantUmlFacts.DiagramSound | src/main/java/parser/ast/AST.kt:20-226 | the diagram draws node i in pre-order as state i; the counter ends at the node count; every edge leads from a state to a later one; `}` and `||` are properly nested |
| AstPlantUmlFacts.BracesAreTransparent | src/main/java/parser/ast/AST.kt:192-194 | a braced expression or braced block is drawn as the node inside it, under the same id |
| Lr0Items.Augment | src/main/java/lr0/automaton.kt:29-33 | the augmented grammar starts at `S_aug`, keeps the original productions as a prefix, and ends with `S_aug -> S $` |
| Lr0Items.Grouped | src/main/java/lr0/automaton.kt:36 | the group of a non-terminal holds exactly its productions |
| Lr0Items.AugmentedStartProduction | src/main/java/lr0/automaton.kt:85-94 | the group of `S_aug` is non-empty, and is just `S_aug -> S $` when the input has no `S_aug` rule |
| Lr0Items.SymbolsMentioned | src/main/java/lr0/automaton.kt:37 | the column symbols are duplicate-free and are exactly the symbols the productions mention |
| Lr0Items.PredictMembers | src/main/java/lr0/automaton.kt:44-50 | an item is predicted exactly when some item has its dot before that item's left-hand side and the dot is at 0 |
| Lr0Items.Saturation | src/main/java/lr0/automaton.kt:39-54 | the intended closure contains its input and is closed under prediction |
| Lr0Items.SaturationLeast | src/main/java/lr0/automaton.kt:39-54 | the intended closure is contained in every closed superset of its input |
| Lr0Items.OneLevelExact | src/main/java/lr0/automaton.kt:39-54 | the as-written closure equals the intended one exactly when it is already closed |
| Lr0Items.OneLevelMissesNested | src/main/java/lr0/automaton.kt:44-49 | for `S -> A`, `A -> b`, the as-written closure of the start item misses `A -> .b` |
| Lr0Items.Advance | src/main/java/lr0/automaton.kt:56-64 | every advanced item has its dot moved off the front and still within its production |
| Lr0Items.SuccessorWellFormed | src/main/java/lr0/automaton.kt:56-64 | `goto` of a well-formed state is a well-formed state |
| Lr0Items.StartState | src/main/java/lr0/automaton.kt:85-94 | the start state is the closure of the first `S_aug` production's item and contains that item |
| Lr0Automaton.LR0Automaton.AddPredicted | src/main/java/lr0/automaton.kt:44-50 | one pass adds exactly the predicted items, and reports whether anything and whether the last prediction was new |
| Lr0Automaton.LR0Automaton.ClosureAsWritten | src/main/java/lr0/automaton.kt:39-54 | the loop as written computes the one-level `OneLevel` |
| Lr0Automaton.LR0Automaton.Closure | src/main/java/lr0/automaton.kt:39-54 | the corrected loop computes the least closed superset `Saturation` |
| Lr0Automaton.LR0Automaton.Goto | src/main/java/lr0/automaton.kt:56-64 | computes `Successor`, the closure of the advanced items |
| Lr0Automaton.LR0Automaton.Dfs | src/main/java/lr0/automaton.kt:71-83 | `dfs(u)` leaves exactly the states and edges `Explore` gives: columns in order, a new `goto` state recorded and searched at once (depth-first preorder), then its edge; it only appends, keeps them consistent (each recorded once, each edge a `goto` step) and discovered, and leaves `u` and every state it recorded finished |
| Lr0Automaton.LR0Automaton.Follow | src/main/java/lr0/automaton.kt:73-81 | one column as `Step` defines it: records `goto(u, x)` (searching it first if new), then the edge `u -x-> goto(u, x)` once |
| Lr0Automaton.LR0Automaton.Visit | src/main/java/lr0/automaton.kt:74-77 | records a new state and then searches it, as `Explore` from that state |
| Lr0Automaton.LR0Automaton.AddEdge | src/main/java/lr0/automaton.kt:78-81 | adds the edge when it is missing and otherwise changes nothing |
| Lr0Automaton.LR0Automaton.Build | src/main/java/lr0/automaton.kt:70-100 | records the start state first and searches from it: the states and edges are those of `DepthFirst`, in that order, and the automaton is built (consistent, every reached state explored) |
| Lr0Automaton.LR0Automaton.constructor | src/main/java/lr0/automaton.kt:28-68 | the grammar is augmented, the symbols are those it mentions, and the automaton is built with states in depth-first discovery order |
| Lr0Automaton.BuiltIsReachable | src/main/java/lr0/automaton.kt:70-100 | a built automaton's states are closed under `goto` and lie in every set that contains the start and is closed under `goto` |
| Lr0Table.Numbered | src/main/java/lr0/automaton.kt:103-105 | `mapping` holds exactly the non-empty states, without duplicates |
| Lr0Table.Number | src/main/java/lr0/automaton.kt:103-105 | a state has a number exactly when it is listed, and the number is its position |
| Lr0Table.StartNumberedZero | src/main/java/lr0/automaton.kt:103-115 | the start is state 0, and each numbered state's number is its position |
| Lr0Table.TargetsOfBuilt | src/main/java/lr0/automaton.kt:106-112 | in a built automaton each column of a state has exactly one edge target, its `goto` state, so the ambiguity assertion at line 128 never fires |
| Lr0Table.CellOfBuilt | src/main/java/lr0/automaton.kt:125-143 | a cell is empty for an empty `goto`; on a terminal it is `acc`, `s(k)` or a shift-reduce conflict; on a non-terminal it is `r(p)` or `k` |
| Lr0Table.CellsOfBuilt | src/main/java/lr0/automaton.kt:125-146 | a state's cells fail exactly on a shift-reduce conflict |
| Lr0Table.RowOfBuilt | src/main/java/lr0/automaton.kt:118-146 | a row is printed exactly when its state is conflict-free; several complete items give reduce-reduce |
| Lr0Table.RowsOfBuilt | src/main/java/lr0/automaton.kt:118-147 | the rows are printed exactly when every remaining state is conflict-free |
| Lr0Table.TableOfBuilt | src/main/java/lr0/automaton.kt:102-149 | `toString` succeeds exactly when every numbered state is LR(0); a failure is always `LR0ConflictFound`; success prints the start as 0 and one row per numbered state |
| Lr0Table.TableConflictKind | src/main/java/lr0/automaton.kt:118-137 | the first state with a conflict decides the kind: reduce-reduce when several items are complete, shift-reduce otherwise |

## Left out

- Input and output are not modelled:
  - reading graphviz files (the automaton is given as a value of nodes with optional `color`/`shape` attributes and labelled edges);
  - the ANTLR lexer and parser that build syntax trees;
  - `main`, the test classes and the file-writing of the homework entry points.
- `CFGrammar.fromText` (cfGrammar.kt:305-323) is not part of this model. It parses a second text format.
- Character classes are ASCII only: `isLowerCase`, `isUpperCase` and `toUpperCase` ignore the rest of Unicode.
- JVM `assert` in `readGrammar` and in the LR(0) table is modelled as an error result (`ExpectedRuleDefinition`, `ExpectedRuleProductions`, `Ambiguity`). The source only checks these when assertions are enabled.
- Name collisions of generated symbols are modelled as written and not excluded:
  - the fresh `S1`, `S2`, … of the first pass may already exist;
  - the `AL` name for terminal `a` may clash with an existing non-terminal or with the name for `A`.
- Intersection triples are identified by their node positions, not by their graphviz names. The link order of the graph is taken as the given edge sequence.
- A missing graphviz attribute reads as the text `null`, as the source's `toString` of an absent value does.
- IntersectionSpec.Suitable: the construction is proved for well-formed grammars whose edges join existing nodes, with two exclusions:
  - empty right-hand sides: the index reads `products[0]` of every production and would throw;
  - indexed productions of length other than two that use a left-hand side: for a unit `A -> B` with `B` a left-hand side the fixpoint reads `products[1]` and throws once a triple of `B` is processed; for a longer one it reads only the first two symbols and ignores the rest. The chain and long-rule passes remove both shapes.
  Units to symbols without productions are admitted, since the fixpoint never looks those symbols up.
- AstNodes: `FunctionCall`'s argument list is named `arguments`, because a Dafny destructor name has one type across a datatype.
- AstNodes: `Number` holds an unbounded integer; Kotlin's `Int` is 32-bit.
- AstPlantUml: diagram lines are kept as structured `Line` values with a `LineText` printer.
- AstPlantUml: the unreachable `else -> error` branch of `dfs` has no counterpart, because the node datatype is closed.
- Lr0Table: the `$index: $state` listing lines and the `toString` of items and states are not rendered, because the model keeps a state's items as an unordered `set<Item>` and fixes no order to print them in.
- Lr0Table.Reduction: `reduceActions.first()` is modelled as the index of the single complete item. When several items are complete, the row is a reduce-reduce conflict before that value is read.
- CfGrammar.MakeSymbol: requires a non-empty label. The source's `label[0]` throws on an empty one; no caller in the modelled core passes one: each passes the literal `S` or a label with a suffix appended.
- Lr0Automaton: the recursion of `dfs` is proved to terminate with a measure over the finite set of well-formed states. Stack depth is not modelled.

## Findings

| source | as written | input that shows it | evidently intended | confidence | as-written member | corrected member |
|---|---|---|---|---|---|---|
| src/main/java/hw06/formal/cfGrammar.kt:64-66 | `productions[p.symbol]!!` indexes a `withDefault` map, so a missing key gives null and `!!` throws | any pass adding its first production to the fresh grammar it creates | create the set of a new left-hand side on first use | not executed | CfGrammar.AddProductionAsWrittenFailsOnFreshGrammar | CfGrammar.CFGrammar.AddProduction |
| src/main/java/hw06/formal/cfGrammar.kt:139-155 | nullability is a memoised recursion that records a symbol only after evaluating its productions, and is looked up unevaluated for right-hand terminals | `S -> S` (endless recursion); `S -> a b` (`b` has no entry) | the least fixpoint of the nullability rules | not executed | CnfEpsAsWritten.SelfLoopDiverges | CnfEps.ComputeNullable |
| src/main/java/hw06/formal/intersection.kt:76-97 | `isSymbolFirst` picks one side only, so a triple whose symbol is also the second symbol of the rule never looks for left partners | rule `X -> Y Y`, where `[s,Y,t]` is processed before `[t,Y,w]` is reached | look for partners on every side the symbol occupies | not executed | IntersectionRun.AsWrittenMissesLeftPartner | Intersection.IntersectionCFGrammar.ProcessProduction |
| src/main/java/lr0/automaton.kt:39-54 | the loop iterates over the input `items`, not the growing `result`, so only one level of predictions is added; `full` is also overwritten by the last `add` | `S -> A`, `A -> b` (augmented): the start state lacks `A -> .b` | the least set of items closed under prediction | not executed | Lr0Items.OneLevelMissesNested | Lr0Automaton.LR0Automaton.Closure |
