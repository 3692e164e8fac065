# S5-CEGARBox formula tools, modelled in Dafny

This project models the formula side of S5-CEGARBox, a modal-logic satisfiability solver. It covers seven parts:

- **The random modal 3CNF generator** (`FormulaGenerator/generator.py`, module `Generator`). It draws clause lengths and literal mixes from weight tables, builds literals over variables `A1..AN` and boxes `□1..□m` nested up to depth d, and keeps L distinct clauses. The formula is printed one clause per line.
- **The prefix-notation translator** (`FormulaGenerator/Pregenerated_Formula/mCNF_translator.py`, module `Translator`). It turns `(AND (ALL R1 (NOT C1)) C2)` into the InToHyLo text `([r1](~(p1)) & p2)`. A `FormulaTranslator` object holds the tokens and a cursor.
- **The converter** (`FormulaGenerator/converter.py`, module `Converter`). It turns the generator's notation into InToHyLo: glyphs become ASCII connectives, `A<n>` becomes `p<n>`, and `□<n>(φ)` becomes `[<n>] (φ)`. It also splits a file into formulas.
- **The wrapper** (`FormulaGenerator/wrapper.py`, module `Wrapper`). It rewrites an InToHyLo formula for three solvers:
  - S52SAT: relation names, framed by `begin`/`end`;
  - LCKS5: indices counted from zero;
  - CEGAR: no indices.
- **The benchmark annotator** (`Benchmarks/count_modalities.py`, module `Counting`). It appends the modality count and the clause count to every CSV row that holds a formula.
- **The Box and Diamond formula nodes of the C++ solver** (`Formula/Box/Box.cpp`, `Formula/Diamond/Diamond.cpp`). Module `Modal` holds their value-level definitions, such as construction with merging, printing, negation, simplification, flattening, axiom simplification and equality. Module `Nodes` holds the node objects, whose methods update `power_` and `subformula_` in place, and the `create` loops.
- **Shared helpers.** `Text` models the Python `str` operations used; `Wrappers` holds `Result` and `Option`.

Design decisions:

- **Randomness** is an explicit stream of draws plus a cursor. Every property of the generator holds for every stream.
- **Regular expressions** are scanners over the characters.
- **C++ formula kinds** other than Box and Diamond are leaves. Their behaviour comes from a `Foreign` record of functions. So does the S5 overload of `Box::create`, which is declared but has no body in the sources.
- **Pointer identity.** Where the C++ code compares a result with the receiver, the model returns a flag `same`.

## Model

| member | source | states |
|---|---|---|
| Generator.RandInt | FormulaGenerator/generator.py:18-25 | `randint(lo, hi)` answers a value in [lo, hi] |
| Generator.TargetInRow | FormulaGenerator/generator.py:39 | `random() * total` lies in [0, total) when the row total is positive |
| Generator.Pick | FormulaGenerator/generator.py:42-45 | the running-total loop returns the first index whose cumulative weight reaches the target |
| Generator.RndLength | FormulaGenerator/generator.py:28-47 | 3 without a distribution, the row length for an all-zero row (no draw consumed), otherwise the 1-based index chosen by one draw |
| Generator.RndPropnum | FormulaGenerator/generator.py:50-73 | 0 when the depth or length row is missing or all zero; the IndexError of `p[d][-1]` on an empty row for K = 0; otherwise the 0-based index chosen by one draw |
| Generator.ShowAtom | FormulaGenerator/generator.py:18-25 | every atom text starts with `A` or the box glyph, never with the negation glyph |
| Generator.RndAtom | FormulaGenerator/generator.py:76-83 | the text is the rendering of the atom `AtomDraw` specifies for the draws from the cursor (a variable at depth 0, else the drawn box around a clause one level down), and the cursor moves past its draws; it faults exactly when that clause does |
| Generator.AtomDrawFits | FormulaGenerator/generator.py:76-83 | an atom drawn for depth d has variables in [1, N], boxes in [1, m] nested at most d deep, and is a variable exactly at depth 0 |
| Generator.FitsBoundDepth | FormulaGenerator/generator.py:76-83 | an atom built for depth d has modal depth at most d |
| Generator.LitsFitBoundDepth | FormulaGenerator/generator.py:98-124 | a clause built for depth d has modal depth at most d |
| Generator.AtomOfShowLit | FormulaGenerator/generator.py:91 | stripping one leading negation glyph from a literal gives its atom's text |
| Generator.NoRepeatedAtomsIn | FormulaGenerator/generator.py:86-95 | the set-building loop answers true exactly when no two literals share an atom |
| Generator.RndClause | FormulaGenerator/generator.py:98-129 | the text is the sorted, ∨-joined rendering of the clause `Clause` specifies, and the cursor moves past every attempt made; it faults exactly when an attempt does |
| Generator.RndAttempt | FormulaGenerator/generator.py:104-121 | one attempt returns exactly the literals `Attempt` specifies: a length K, a count P, P propositional literals, then K − P modal ones (none when P ≥ K); it faults exactly when `rnd_propnum` or an `rnd_atom` does |
| Generator.DrawPropositional | FormulaGenerator/generator.py:110-114 | the first inner loop renders the n propositional literals drawn from the cursor, two draws each |
| Generator.DrawModal | FormulaGenerator/generator.py:117-121 | the second inner loop renders the n modal literals `ModalLits` specifies, and stops with the fault of the first `rnd_atom` that raises one |
| Generator.ClauseFirstPassing | FormulaGenerator/generator.py:100-129 | the clause returned is attempt i of the chain of attempts, where every earlier attempt had a repeated atom and attempt i has none unless it is the 100th |
| Generator.AttemptShape | FormulaGenerator/generator.py:104-121 | an attempt has max(K, P) literals for the drawn K and P, all fitting depth d; the first P are variables, and the rest are variables exactly at depth 0 |
| Generator.ClauseFits | FormulaGenerator/generator.py:98-129 | a returned clause has variables in [1, N], boxes in [1, m], and boxes nested at most d deep |
| Generator.Nub | FormulaGenerator/generator.py:143-147 | keeping first occurrences gives distinct clauses holding exactly the drawn ones |
| Generator.RndCNF | FormulaGenerator/generator.py:137-149 | the result is the texts of the clauses `CNF` specifies; it is also the first occurrences, in order, of the texts of all clauses drawn, which are successive `rnd_clause` calls; at most L are kept from at most 10·L draws, and the loop stops only at L kept or 10·L drawn |
| Generator.CNFShape | FormulaGenerator/generator.py:137-149 | the clauses of a formula have distinct texts, number at most L (none for L ≤ 0), and each fits depth d |
| Generator.FormatFormula | FormulaGenerator/generator.py:152-162 | the text is the lines `  (c) ∧` (the last `  (c).`) joined by newlines, and empty for no clauses |
| Generator.FormattedLines | FormulaGenerator/generator.py:152-162 | splitting the formatted text on newlines gives back the lines |
| Generator.CheckParams | FormulaGenerator/generator.py:238-250 | accepts exactly depth ≥ 0, L ≥ 1, N ≥ 1, m ≥ 1, and names the first failing check |
| Generator.Generate | FormulaGenerator/generator.py:238-279 | rejected parameters give that check's message and consume no draw; count ≤ 0 gives the empty text; otherwise the output is the newline-joined `Layout` of the `count` successive formulas `Formulas` specifies, and any fault is raised |
| Generator.FormulaBlock | FormulaGenerator/generator.py:269-277 | one turn of the loop gives the header (several formulas only), the formatted formula `CNF` specifies, and a blank line unless it is the last |
| Generator.FormulasShape | FormulaGenerator/generator.py:266-277 | every generated formula has distinct clauses, at most L of them, each fitting depth d |
| Generator.LayoutShape | FormulaGenerator/generator.py:266-279 | with several formulas, formula k occupies lines 3k (its `=== Formula k+1 ===` header), 3k + 1 (its text) and 3k + 2 (blank), and the last has no blank line after it |
| Generator.SingleLayout | FormulaGenerator/generator.py:268-277 | a single formula is printed alone, with no header and no blank line |
| Translator.LexFrom | FormulaGenerator/Pregenerated_Formula/mCNF_translator.py:17-31 | every token is a single parenthesis or a nonempty word without whitespace or parenthesis |
| Translator.LexConcat | FormulaGenerator/Pregenerated_Formula/mCNF_translator.py:17-31 | the tokens concatenated are the input with its whitespace removed |
| Translator.LexJoin | FormulaGenerator/Pregenerated_Formula/mCNF_translator.py:10-33 | tokenizing well-formed tokens joined by spaces gives them back |
| Translator.StripJoin | FormulaGenerator/Pregenerated_Formula/mCNF_translator.py:13 | stripping space-joined well-formed tokens changes nothing |
| Translator.Expr | FormulaGenerator/Pregenerated_Formula/mCNF_translator.py:41-55 | a successful parse consumes at least one token and leaves a suffix |
| Translator.Compound | FormulaGenerator/Pregenerated_Formula/mCNF_translator.py:57-112 | a successful compound parse consumes at least one token and leaves a suffix |
| Translator.Args | FormulaGenerator/Pregenerated_Formula/mCNF_translator.py:75-78 | the argument loop consumes up to and including `)` and leaves a suffix |
| Translator.Close | FormulaGenerator/Pregenerated_Formula/mCNF_translator.py:68-70 | the `)` check consumes a token when it succeeds |
| Translator.ExprTokens | FormulaGenerator/Pregenerated_Formula/mCNF_translator.py:41-112 | parsing the tokens of any well-formed formula, followed by anything, yields its InToHyLo text and leaves the rest |
| Translator.ArgsTokens | FormulaGenerator/Pregenerated_Formula/mCNF_translator.py:75-78 | parsing the argument tokens and `)` yields each argument's text |
| Translator.TranslateRoundTrip | FormulaGenerator/Pregenerated_Formula/mCNF_translator.py:114-118 | translating the printed prefix form of any well-formed formula gives its InToHyLo text |
| Translator.ExprExtend | FormulaGenerator/Pregenerated_Formula/mCNF_translator.py:41-55 | a successful parse does not look past what it consumes |
| Translator.ConnectiveShapes | FormulaGenerator/Pregenerated_Formula/mCNF_translator.py:80-99 | one argument is itself; more are folded left in parentheses with ` & ` or ` \| ` |
| Translator.AtomHasNoC | FormulaGenerator/Pregenerated_Formula/mCNF_translator.py:55 | no `C` survives in an atom's text |
| Translator.TruncatedFails | FormulaGenerator/Pregenerated_Formula/mCNF_translator.py:43-44 | any proper prefix of a formula's tokens fails to parse |
| Translator.NotNeedsClose | FormulaGenerator/Pregenerated_Formula/mCNF_translator.py:68-69 | NOT followed by anything but `)` raises "Expected ')'" with that token |
| Translator.NotAtEnd | FormulaGenerator/Pregenerated_Formula/mCNF_translator.py:68 | NOT at the end of the tokens raises IndexError |
| Translator.EmptyConnective | FormulaGenerator/Pregenerated_Formula/mCNF_translator.py:80-82 | `(AND)` and `(OR)` raise IndexError on `args[0]` |
| Translator.UnknownOperatorRaises | FormulaGenerator/Pregenerated_Formula/mCNF_translator.py:111-112 | any other operator raises "Unknown operator" |
| Translator.UnexpectedEndRaises | FormulaGenerator/Pregenerated_Formula/mCNF_translator.py:43-44 | no tokens, or `(` alone, raise "Unexpected end of formula" |
| Translator.ParseMultipleFormulas | FormulaGenerator/Pregenerated_Formula/mCNF_translator.py:142-161 | an empty separator is an error; otherwise one piece per occurrence plus one, each with newlines stripped from both ends |
| Translator.FormulaTranslator.constructor | FormulaGenerator/Pregenerated_Formula/mCNF_translator.py:6-8 | no tokens, cursor 0 |
| Translator.FormulaTranslator.Tokenize | FormulaGenerator/Pregenerated_Formula/mCNF_translator.py:10-33 | the character loop produces the tokens of the stripped formula |
| Translator.FormulaTranslator.Parse | FormulaGenerator/Pregenerated_Formula/mCNF_translator.py:35-39 | stores the tokens, resets the cursor and parses one expression |
| Translator.FormulaTranslator.ParseExpression | FormulaGenerator/Pregenerated_Formula/mCNF_translator.py:41-55 | result and new cursor are those of the expression grammar on the remaining tokens |
| Translator.FormulaTranslator.ParseCompound | FormulaGenerator/Pregenerated_Formula/mCNF_translator.py:57-112 | result and new cursor are those of the compound grammar on the remaining tokens |
| Translator.FormulaTranslator.ParseArguments | FormulaGenerator/Pregenerated_Formula/mCNF_translator.py:75-78 | the while loop collects the arguments up to `)` as the grammar does |
| Translator.FormulaTranslator.FoldArguments | FormulaGenerator/Pregenerated_Formula/mCNF_translator.py:80-85 | the for loop builds the left fold of the arguments |
| Translator.FormulaTranslator.ExpectClose | FormulaGenerator/Pregenerated_Formula/mCNF_translator.py:68-70 | steps past `)`, raises on another token, IndexError at the end |
| Translator.FormulaTranslator.Translate | FormulaGenerator/Pregenerated_Formula/mCNF_translator.py:114-118 | translation is the grammar applied to the tokens of the stripped text |
| Translator.TranslateToIntoHylo | FormulaGenerator/Pregenerated_Formula/mCNF_translator.py:121-139 | the same, on a fresh translator |
| Converter.GlyphsGone | FormulaGenerator/converter.py:35-38 | after the four replacements no ¬, ∧, ∨ or `v` is left |
| Converter.RenameVars | FormulaGenerator/converter.py:41 | renaming keeps the length |
| Converter.RenameVarsAt | FormulaGenerator/converter.py:41 | exactly the `A` followed by a digit becomes `p`; every other character is kept |
| Converter.NoVariableLeft | FormulaGenerator/converter.py:41 | no `A` followed by a digit remains |
| Converter.BoxAt | FormulaGenerator/converter.py:51 | a match is the box glyph, a digit run, `(`, a nonempty text without `)`, and `)` |
| Converter.BoxAtComplete | FormulaGenerator/converter.py:51 | every text of that shape is matched, with those parts |
| Converter.SubBoxesCount | FormulaGenerator/converter.py:51-52 | a substitution pass never adds box glyphs and removes one whenever a match exists, so the while loop ends |
| Converter.Boxes | FormulaGenerator/converter.py:51-52 | after the loop no match is left |
| Converter.BoxesKeepsAbsent | FormulaGenerator/converter.py:51-52 | the loop introduces no character other than brackets, parentheses and spaces |
| Converter.OneBox | FormulaGenerator/converter.py:45-52 | `□i(φ)` becomes `[i] (φ)` |
| Converter.IntoHyloClean | FormulaGenerator/converter.py:31-58 | the converted text holds no ¬, ∧, ∨, `v` or box match |
| Converter.ConvertToIntoHylo | FormulaGenerator/converter.py:14-58 | the method computes the conversion and leaves no box match |
| Converter.Collapse | FormulaGenerator/converter.py:72 | joining the whitespace-split words gives single-spaced text |
| Converter.CleanMultilineShape | FormulaGenerator/converter.py:72-75 | the cleaned text is a single-spaced prefix of the collapsed text, short only by trailing ∧, & and spaces |
| Converter.ConvertMultilineFormula | FormulaGenerator/converter.py:61-77 | converts the cleaned text |
| Converter.GroupsEmpty | FormulaGenerator/converter.py:97-127 | no formula comes out exactly when nothing was begun and every line is blank |
| Converter.GroupsCover | FormulaGenerator/converter.py:97-127 | the formulas, space-joined, are the nonblank lines, space-joined: no line is lost or duplicated |
| Converter.GroupsNonEmpty | FormulaGenerator/converter.py:97-127 | no formula is empty |
| Converter.GroupStep | FormulaGenerator/converter.py:98-122 | one loop step emits the finished formula and continues with the begun one |
| Converter.GroupLine | FormulaGenerator/converter.py:100-122 | the loop body emits and keeps what the grouping prescribes for one line |
| Converter.GroupLines | FormulaGenerator/converter.py:92-127 | the loop computes the grouping of the stripped lines |
| Converter.KeptPieces | FormulaGenerator/converter.py:131 | the `;` pieces kept are stripped and nonempty, and no more than the pieces |
| Converter.ConvertAllNonEmpty | FormulaGenerator/converter.py:134-137 | with no empty formula, the i-th output is the conversion of the i-th formula |
| Converter.FormulasNonEmpty | FormulaGenerator/converter.py:129-137 | every formula found is nonempty, so every one is converted |
| Converter.ConvertEach | FormulaGenerator/converter.py:133-138 | the loop converts every nonempty formula in order |
| Converter.ConvertMultipleFormulas | FormulaGenerator/converter.py:80-139 | one converted formula per formula found (groups, or `;` pieces for a single group) |
| Wrapper.IndexAt | FormulaGenerator/wrapper.py:28 | a match of `[(\d+)]` at the start is the opener, a nonempty digit run, the closer and the rest |
| Wrapper.IndexAtComplete | FormulaGenerator/wrapper.py:28 | every text of that shape matches, with the whole digit run |
| Wrapper.RewriteNoIndex | FormulaGenerator/wrapper.py:28 | `re.sub` on text without a match changes nothing |
| Wrapper.RewriteSkip | FormulaGenerator/wrapper.py:59-60 | text before the first opener is copied unchanged |
| Wrapper.NoIndexLeft | FormulaGenerator/wrapper.py:28 | after a pass whose replacement cannot form a new match, no match is left |
| Wrapper.PassKeepsNoIndex | FormulaGenerator/wrapper.py:59-60 | a pass over `<n>` creates no `[n]` match |
| Wrapper.S52Sat | FormulaGenerator/wrapper.py:17-29 | the result starts with `begin` and a newline and ends with a newline and `end` |
| Wrapper.S52SatNoIndexLeft | FormulaGenerator/wrapper.py:28 | no bare `[n]` index remains after renaming |
| Wrapper.S52SatRenames | FormulaGenerator/wrapper.py:28 | `[n]` becomes `[rn]` with the digits kept |
| Wrapper.TwoPasses | FormulaGenerator/wrapper.py:58-60 | the `[n]` pass followed by the `<n>` pass equals one left-to-right scan rewriting both kinds |
| Wrapper.Lcks5Scan | FormulaGenerator/wrapper.py:32-63 | LCKS5 is one scan that decrements every `[n]` and `<n>` index |
| Wrapper.Lcks5KeepsOtherText | FormulaGenerator/wrapper.py:58-63 | a formula without `[` or `<` is unchanged |
| Wrapper.Lcks5Zero | FormulaGenerator/wrapper.py:43-51 | the index is read as a number and decremented: `[0]` becomes `[-1]` |
| Wrapper.Lcks5LeadingZeros | FormulaGenerator/wrapper.py:43-51 | leading zeros of an index vanish: `<007>` becomes `<6>` |
| Wrapper.CegarClean | FormulaGenerator/wrapper.py:66-82 | no indexed `[n]` or `<n>` remains |
| Wrapper.CegarIdempotent | FormulaGenerator/wrapper.py:66-82 | converting twice equals converting once |
| Wrapper.FormulaLinesShape | FormulaGenerator/wrapper.py:99-102 | every kept line is stripped, nonempty and not a comment |
| Wrapper.FormulaLinesAll | FormulaGenerator/wrapper.py:99-102 | when every line is a formula, all are kept in order, stripped |
| Wrapper.ParseFormulas | FormulaGenerator/wrapper.py:85-104 | the loop keeps exactly the stripped nonblank non-comment lines of the stripped text, in order |
| Wrapper.ProcessFormulas | FormulaGenerator/wrapper.py:107-125 | an unknown format is the KeyError; otherwise the i-th result is the i-th formula converted |
| Wrapper.ProcessCegarIdempotent | FormulaGenerator/wrapper.py:107-125 | processing CEGAR output as CEGAR again changes nothing |
| Wrapper.OutputName | FormulaGenerator/wrapper.py:141-145 | the name ends with `_FMT.txt`; a base without a `.txt` ending gets that suffix appended; a base whose only `.txt` is its ending has the ending replaced by the suffix |
| Wrapper.OutputNameEveryTxt | FormulaGenerator/wrapper.py:142-143 | every `.txt` in the base is replaced, not only the ending: a stem followed by `.txt.txt` gives the stem followed by the suffix twice |
| Wrapper.OutputTextLines | FormulaGenerator/wrapper.py:154-157 | for LCKS5 and CEGAR, splitting the written text on newlines gives the formulas and one empty tail |
| Counting.CountModalities | Benchmarks/count_modalities.py:12-22 | at most one modality per two characters |
| Counting.CountClauses | Benchmarks/count_modalities.py:25-35 | at least 1, and exactly 1 when there is no `&` |
| Counting.ModalitiesAdd | Benchmarks/count_modalities.py:22 | counts of two clauses joined by ` & ` add up |
| Counting.ClausesAdd | Benchmarks/count_modalities.py:35 | clause counts of two parts joined by ` & ` add up |
| Counting.ModalitiesOfRelation | Benchmarks/count_modalities.py:22 | `[r1…]` with any digits after the 1 (such as `[r10]`) counts once |
| Counting.AnnotatedRowsCarryCounts | Benchmarks/count_modalities.py:61-76 | no more rows than read, and each ends with the counts of its own stripped formula |
| Counting.AnnotatedRowsAll | Benchmarks/count_modalities.py:61-76 | when every row holds a formula, none is skipped and each is annotated in place |
| Counting.ProcessCsv | Benchmarks/count_modalities.py:38-89 | fewer than two lines is the header error; otherwise the two header rows then the annotated rows read after the first two lines |
| Modal.MkBox | Formula/Box/Box.cpp:3-17 | the constructor keeps the modality and adds an inner same-modality Box's power, growing the formula by at most one node |
| Modal.MkDiamond | Formula/Diamond/Diamond.cpp:4-49 | both constructors do the same for Diamonds and keep the mode |
| Modal.CreateBox | Formula/Box/Box.cpp:117-123 | power 0, and only power 0, gives the subformula itself |
| Modal.CreateDiamond | Formula/Diamond/Diamond.cpp:179-185 | the same for Diamonds, with or without the mode |
| Modal.BoxChainMerges | Formula/Box/Box.cpp:125-136 | modalities `[m, m]` give one Box of power 2 |
| Modal.DiamondChainMerges | Formula/Diamond/Diamond.cpp:187-221 | modalities `[m, m]` give one Diamond of power 2 |
| Modal.BoxReduced | Formula/Box/Box.cpp:138-140 | a power-1 Box reduces to its subformula |
| Modal.DiamondReduced | Formula/Diamond/Diamond.cpp:224-226 | a power-1 Diamond reduces to its subformula |
| Modal.ShowMkBox | Formula/Box/Box.cpp:3-17 | merging in the constructor prints the same text |
| Modal.ShowMkDiamond | Formula/Diamond/Diamond.cpp:4-49 | the same for Diamonds |
| Modal.ShowBoxChain | Formula/Box/Box.cpp:125-136 | a chain prints one `[m]` per modality given, merged or not |
| Modal.ShowBoxReduced | Formula/Box/Box.cpp:138-140 | the reduced Box prints one `[m]` fewer |
| Modal.ShowDiamondReduced | Formula/Diamond/Diamond.cpp:224-226 | the reduced Diamond prints one `<m>` fewer |
| Modal.NegateSwaps | Formula/Box/Box.cpp:57-59 | on canonical formulas negation turns a Box into a non-S5 Diamond and a Diamond into a Box, keeping modality and power |
| Modal.NegateInvolution | Formula/Diamond/Diamond.cpp:85-87 | negating a canonical formula twice gives it back when leaves negate so |
| Modal.Simplify | Formula/Box/Box.cpp:63-92 | simplification never grows the formula, and leaves no Box over a Diamond or a same-modality Box at the top |
| Modal.SimplifyBoxDropsPower | Formula/Box/Box.cpp:85-89 | a changed subformula gives a power-1 Box: the original power is dropped |
| Modal.SimplifyBoxOverDiamond | Formula/Box/Box.cpp:69-74 | when the subformula simplifies to a Diamond, □◇φ becomes that Diamond's modality with the summed power over its subformula, re-simplified |
| Modal.SimplifyDiamondFalse | Formula/Diamond/Diamond.cpp:96-98 | a non-S5 Diamond over what simplifies to False is False |
| Modal.Flatten | Formula/Box/Box.cpp:96-106 | the result has no same-kind, same-modality nesting anywhere and is no larger |
| Modal.FlattenKeepsShow | Formula/Diamond/Diamond.cpp:150-160 | with no negative power, flattening prints the same text |
| Modal.AxiomClamps | Formula/Box/Box.cpp:108-115 | outside axiom 2, no power exceeds 2 and the operators stay in order |
| Modal.AxiomBelowTop | Formula/Diamond/Diamond.cpp:170-175 | below the top, every operator gets power 1 |
| Modal.AxiomTwoDropsDiamondBox | Formula/Diamond/Diamond.cpp:163-167 | under axiom 2 below the top, a Diamond over a Box is replaced by the Box's subformula, axiom-simplified |
| Modal.NegatedNormalFormKeepsOperators | Formula/Box/Box.cpp:47-50 | the normal form keeps every modal operator, its power and the size |
| Modal.EqualIsEquality | Formula/Box/Box.cpp:146-153 | with leaves compared by value, `operator==` is equality, including the Diamond mode |
| Modal.BoxNeverEqualsDiamond | Formula/Diamond/Diamond.cpp:234-243 | a Box never equals a Diamond in either direction |
| Nodes.BoxNode.constructor | Formula/Box/Box.cpp:3-17 | the fields hold the merged Box |
| Nodes.BoxNode.IncrementPower | Formula/Box/Box.cpp:36 | power one higher, nothing else changed |
| Nodes.BoxNode.ToString | Formula/Box/Box.cpp:38-43 | the loop prints the node's formula |
| Nodes.BoxNode.NegatedNormalForm | Formula/Box/Box.cpp:47-50 | the subformula is replaced in place, and the node itself is returned |
| Nodes.BoxNode.ModalFlatten | Formula/Box/Box.cpp:96-106 | the node now holds the flattened formula and returns itself |
| Nodes.BoxNode.AxiomSimplify | Formula/Box/Box.cpp:108-115 | the node now holds the axiom-simplified formula; power 1 below the top, else min(power, 2) |
| Nodes.DiamondNode.constructor | Formula/Diamond/Diamond.cpp:4-26 | the fields hold the merged Diamond with the given mode |
| Nodes.DiamondNode.Plain | Formula/Diamond/Diamond.cpp:28-49 | the same merge, not in S5 mode |
| Nodes.DiamondNode.IncrementPower | Formula/Diamond/Diamond.cpp:65 | power one higher, nothing else changed |
| Nodes.DiamondNode.ToString | Formula/Diamond/Diamond.cpp:67-71 | the loop prints the node's formula |
| Nodes.DiamondNode.NegatedNormalForm | Formula/Diamond/Diamond.cpp:75-78 | the subformula is replaced in place, and the node itself is returned |
| Nodes.DiamondNode.Simplify | Formula/Diamond/Diamond.cpp:90-148 | returns the value-level simplification; S5 mode leaves the node alone; otherwise the node keeps the simplified subformula and absorbs a same-modality Diamond in place |
| Nodes.DiamondNode.ModalFlatten | Formula/Diamond/Diamond.cpp:150-160 | the node now holds the flattened formula and returns itself |
| Nodes.DiamondNode.AxiomSimplify | Formula/Diamond/Diamond.cpp:162-177 | returns the axiom-simplified formula; under axiom 2 below the top the node is untouched, otherwise it holds the result |
| Nodes.CreateBoxes | Formula/Box/Box.cpp:125-136 | the backward loop builds the chain with the first modality outermost; no modality gives the subformula |
| Nodes.CreateDiamonds | Formula/Diamond/Diamond.cpp:187-221 | the same for Diamonds, with the mode |

## Left out

- Command-line parsing, interactive modes, example printing, status messages and all file reading and writing are left out. This covers the `main` functions, `show_examples`, `interactive_mode`, `process_single_formula`, `process_multiple_formulas`, the "Processed N" prints and the try/except around the I/O. The text a writer produces is modelled where it matters, in `Wrapper.OutputText`.
- Python's `random` internals (Mersenne Twister, `seed`) are left out. Draws are parameters, and `random() * total` is computed in exact reals rather than floats.
- The fallback returns after the weighted-choice loops (generator.py:47, 73) are not modelled. They cannot be reached with exact arithmetic, since the running total reaches the row total.
- `parse_distribution` (JSON parsing) is left out. The tables arrive already parsed as nested sequences of naturals.
- The CSV reader of `process_csv` is a parameter, and CSV writing is left out.
- Python's `\d` also matches non-ASCII decimal digits. The scanners accept ASCII `0-9` only.
- `str.lower()` is modelled on ASCII letters only.
- `Modal.Negate` on S5 Diamonds and `Modal.Simplify` on S5 Diamonds over a Box depend on the four-argument S5 `Box::create(m, p, φ, isS5)` (Formula/Box/Box.h:65-69). It is declared but not defined in Box.cpp, so it is the parameter `createBoxS5`. The node it returns is then simplified by the model's own `Simplify`, since Diamond.cpp:123-127 calls `->simplify()` on it. Outside S5 mode the model takes the four-argument `create` to be the three-argument one. `Box::simplifyS5` (Box.h:49) is declared, never defined and never called, and is not part of this model.
- Modal.Simplify, Modal.Flatten and Modal.AxiomSimplify: the operations of the other formula kinds are typed leaf to leaf. So a leaf never simplifies, flattens or axiom-simplifies into a Box or a Diamond, and a conjunction or other node holding modal subformulas is not modelled. For such nodes, the Box and Diamond reductions applied to a subformula's result (Box.cpp:69-83, Diamond.cpp:119-142) are not captured.
- The other C++ formula kinds (False, True, atoms, conjunctions, the `Formula` base) are leaves whose operations are parameters.
- `Nodes.BoxNode` and `Nodes.DiamondNode` hold their subformula as a value. Shared `shared_ptr` subtrees, and changes seen through another owner, are not modelled. `Nodes.DiamondNode.Simplify` therefore promises `same ==> r == Value()` only outside S5 mode.
- `shared_ptr` identity is modelled as the flag `same` ("the receiver came back"). `enable_shared_from_this` is not modelled.
- C++ `int` overflow is not modelled: powers, modalities and depths are unbounded integers.
- `std::hash` and the `boxHash_`/`diaHash_` fields are left out; no modelled operation reads them.
- `tailNormalForm` only asserts false and is left out.
- `clone`, `operator!=` (the negation of `operator==`) and the debug destructors are left out.
- `FormulaGenerator/pipeline.py`, the benchmark runners, `benchmark_summary.py` and `match_benchmark.py` are not part of this model. They are subprocess and CSV glue around external solvers.
