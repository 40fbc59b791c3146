# uniCompiler, modelled in Dafny

uniCompiler turns one assignment such as `x = (a + 2.5) * 3` into two-register assembly, in six stages:

1. **Lexer.** `lexer/lexer.py` splits the equation into typed tokens. It numbers the identifiers ID1, ID2, … in the order they first occur.
2. **Parser.** `syntax/syntax.py` builds a binary tree. It matches parentheses first, then folds `*` and `/`, then `+` and `-`, each from the left. `Hybrid/syntax.py` is the same parser with the marker `IS` in place of `=`.
3. **Type coercion.** `Compiler/semantic/semantic.py` wraps every integer literal and INT identifier in an `int_to_float` node when the tree holds a float. `semantic/semantic.py` is an older copy that knows only literals.
4. **Code generation.** `Compiler/icg/icg.py` walks the tree in post-order and prints three-address lines `tempN = a op b`.
5. **Optimisation.** `Compiler/optimization/optimizer.py` makes two passes:
   - it inlines operator-free temporaries and merges `x = tempN` into the line that computed `tempN`;
   - it renumbers the temporaries in order of definition.
6. **Assembly.** `Compiler/assembly/assembly.py` emits `LOAD`/`ADD`/…/`STR` code over R1 and R2. It remembers which temporary R1 holds.

`convert_tree_to_display` in both `tree_utils.py` files renames the identifiers of a tree for display.

## How the model is organised

The model follows the source's own form:
- **Loop-driven code is modelled as methods.** `read_number`, `lexical_walk`, `parse_expr`, `build_syntax_tree`, the optimizer's two loops and the assembler's loop are methods with loop invariants. Each `ensures` ties the method's result to a specification function.
- **Classes stay classes.** The ICG and assembly generators are classes whose methods update their fields.
- **Recursive code is modelled as functions.** Type coercion, tree display and the recursive parts are pure functions.
- **Properties are lemmas about the specification functions.**

Modules:
- **`Strings`** holds the ASCII character tests, `str.strip`, and `re.sub` over word patterns.
- **`Lexer`** models the scanner.
- **`Syntax`**, **`Precedence`** and **`ParserLaws`** model the parser and what it promises.
- **`Trees`** holds the tree datatype and display.
- **`Semantic`** and **`LiteralSemantic`** model the two type-coercion files.
- **`AssignmentTarget`** holds a finding about coercion of the assignment target.
- **`Icg`** and **`Optimizer`** model code generation and optimisation.
- **`Assembly`** and **`AssemblyLaws`** model the assembler and its laws.
- **`AssemblyCheck`** defines a two-register machine and relates what the emitted code computes on it to the meaning of the three-address lines. It holds the second finding.

Three behaviours of the code that the model keeps:
- The store after `x = …` names the ICG's display name of the target (`STR ID1, R1`).
- `x = + 1` raises "Invalid expression structure": the operator folding leaves two entries.
- `a * +` parses: the parser never checks an operator's neighbours (`ParserLaws.OperandsUnchecked`).

## Model

| member | source | states |
|---|---|---|
| Lexer.RunEnd | lexer/lexer.py:18 | the number scan stops at the first character past `start` that is neither a digit nor a dot, and every character before it is one |
| Lexer.ReadNumber | lexer/lexer.py:12-32 | the loop returns exactly the result or error of `ReadNumberResult`, whose meaning `ReadNumberMeaning` states |
| Lexer.ReadNumberMeaning | lexer/lexer.py:12-32 | read_number succeeds iff the maximal digit-and-dot run holds at most one dot; on success it returns the index just past the run, FLOAT iff the run has a dot, and the padded run; on failure it names the position of the run's second dot |
| Lexer.PaddedShape | lexer/lexer.py:26-29 | padding adds `0` before a leading dot and after a trailing dot and nothing else; the result neither starts nor ends with a dot and keeps its dots and its digit-and-dot alphabet |
| Lexer.IdentEnd | lexer/lexer.py:61-63 | the identifier scan stops at the first non-word character and every character before it is a word character |
| Lexer.ReadIdentifier | lexer/lexer.py:59-63 | the identifier loop ends at `IdentEnd` of the character after the first |
| Lexer.LexicalWalk | lexer/lexer.py:35-94 | lexical_walk raises exactly the error the scan meets first, or returns the scanned tokens with the id_map `IdTable` builds from them |
| Lexer.LexNumber | lexer/lexer.py:50-56 | a number token is read and appended (a letter or `_` right after it raises), and the scan goes on after it with id_map unchanged |
| Lexer.LexName | lexer/lexer.py:58-77 | an identifier is read (a `.` right after it raises); `pi` in any case becomes FLOAT `3.14`; any other name becomes an IDENTIFIER and gets the next `ID<n>` on first use |
| Lexer.ScanSpace | lexer/lexer.py:46-48 | one step of the scanner, unfolded: white space produces no token |
| Lexer.ScanSkipsSpaces | lexer/lexer.py:46-48 | a whole run of white space is skipped |
| Lexer.ScanNumber | lexer/lexer.py:50-56 | one step of the scanner, unfolded: at a digit, or at a dot before a digit, the scanner reads a number; a letter or `_` right after it raises LetterAfterNumber |
| Lexer.ScanName | lexer/lexer.py:58-77 | one step of the scanner, unfolded: at a letter or `_` the scanner reads a maximal word run; a `.` right after it raises DotAfterIdentifier |
| Lexer.ScanPunctuation | lexer/lexer.py:79-88 | one step of the scanner, unfolded: each of `+-*/=()` becomes one token of kind ASSIGN, LPAREN, RPAREN or OPERATOR |
| Lexer.ScanInvalid | lexer/lexer.py:90-91 | one step of the scanner, unfolded: any other character raises InvalidCharacter with its position |
| Lexer.ScanWellFormed | lexer/lexer.py:35-91 | every token the scanner returns carries text of its kind: digits for INT, one inner dot for FLOAT, a word not `pi` for IDENTIFIER, the symbol itself otherwise |
| Lexer.NumberTokenWellFormed | lexer/lexer.py:50-56 | a number token read successfully is well formed |
| Lexer.NameTokenWellFormed | lexer/lexer.py:58-77 | the token made from an identifier run is well formed |
| Lexer.IdTableNumbering | lexer/lexer.py:73-77 | id_map's keys are the distinct identifiers in first-use order, the k-th maps to `ID<k+1>`, and the counter is one past their number |
| Lexer.DistinctNames | lexer/lexer.py:72-76 | a name is among the numbered identifiers iff an IDENTIFIER token carries it |
| Lexer.IdNamesInjective | lexer/lexer.py:74-76 | two names never share an ID |
| Lexer.LexIdMap | lexer/lexer.py:35-94 | the returned id_map's keys are exactly the identifier tokens, never `pi` in any case, and its IDs are distinct |
| ParserLaws.MatchEndAtClose | syntax/syntax.py:39-47 | started just past a `(`, the close-paren scan ends with depth 0 exactly one entry past the `)` that matches it, the first `)` whose interior is balanced |
| ParserLaws.UnmatchedRejected | syntax/syntax.py:37-49 | when nothing after the first `(` closes it (no prefix of the rest holds more `)` than `(`), the parse raises "Unmatched parentheses" |
| Syntax.ParensPass | syntax/syntax.py:36-54 | the parenthesis loop never lengthens the list |
| Syntax.LevelPass | syntax/syntax.py:57-78 | an operator loop never lengthens the list and leaves it non-empty |
| Syntax.ParseExpr | syntax/syntax.py:29-83 | the in-place parser returns exactly `Parse` of its input, whose grouping `Precedence.ChainParses` states |
| Syntax.BuildSyntaxTree | syntax/syntax.py:12-104 | build_syntax_tree of either copy returns exactly `Build`, whose cases `ParserLaws.BuildCases` states |
| Precedence.LevelPassChain | syntax/syntax.py:57-66 | one operator loop folds a chain of operands exactly as the left-to-right reference fold does, and carries on after it |
| Precedence.ParensPassNoParens | syntax/syntax.py:36-54 | with no `(` in the list the parenthesis loop changes nothing |
| Precedence.ChainParses | syntax/syntax.py:29-83 | a chain of operands and binary operators parses to the textbook tree: `*` and `/` bind tighter than `+` and `-`, and each level groups from the left |
| Precedence.SubtractionGroupsLeft | syntax/syntax.py:69-78 | `a - b - c` parses as `(a - b) - c` |
| Precedence.ProductsBindTighter | syntax/syntax.py:57-78 | `a + b * c` parses as `a + (b * c)` and `a * b + c` as `(a * b) + c` |
| ParserLaws.BuildCases | syntax/syntax.py:12-104 | all the outcomes of build_syntax_tree: an empty token list raises; with two or more tokens the second must be the marker; a marker first or last raises; otherwise the result is the marker node over the target and the parse of the rest; a single token is parsed alone |
| ParserLaws.MarkerIffAssign | Hybrid/syntax.py:20-26 | on lexer tokens, an entry is the marker (`=` or `IS`) iff its token is ASSIGN |
| ParserLaws.ParseSingle | syntax/syntax.py:29-83 | one entry parses to itself, except that a lone `(` raises "Unmatched parentheses" |
| ParserLaws.ParseConsumesParens | syntax/syntax.py:36-54 | no tree parse_expr returns holds a `(` |
| ParserLaws.GroupReplaced | syntax/syntax.py:37-52 | the first parenthesised group, whatever balanced groups it holds, is replaced by the parse of its interior and the loop goes on at that tree; an error inside it is the error of the whole |
| ParserLaws.EmptyParensRejected | syntax/syntax.py:30-31 | `()` raises "Empty expression" |
| ParserLaws.LevelPassTrailing | syntax/syntax.py:58-61 | an operator of the level in last place, after a non-operator, raises |
| ParserLaws.TrailingOperatorRejected | syntax/syntax.py:57-81 | a chain followed by a binary operator never parses |
| ParserLaws.OperandsUnchecked | syntax/syntax.py:59-64 | the neighbours of an operator are not checked: `a * +` parses to `*(a, +)` |
| Trees.ToTree | syntax/syntax.py:3-7 | a parser entry becomes a node tree, never the empty tree |
| Trees.ToTreeRoundTrip | syntax/syntax.py:3-7 | conversion to a node tree succeeds iff no raw token string is left, and reading the tree back gives the entry |
| Trees.Display | Compiler/utils/tree_utils.py:33-46 | convert_tree_to_display returns None exactly for None |
| Trees.DisplayShape | Compiler/utils/tree_utils.py:42-44 | display keeps the tree's shape |
| Trees.DisplayValues | Hybrid/tree_utils.py:20-35 | display renames each value through id_map (where it is a key) and keeps its position |
| Trees.DisplayUndone | Compiler/utils/tree_utils.py:37-40 | displaying again with the inverse of an injective id_map gives back the original tree |
| Semantic.Convert | Compiler/semantic/semantic.py:35-37 | add_type_conversions returns None exactly for None |
| Semantic.HasFloatSomeNode | Compiler/semantic/semantic.py:4-21 | has_float holds iff some node is a float literal or an identifier declared FLOAT |
| Semantic.TokenClasses | Compiler/semantic/semantic.py:13-32 | on lexer tokens, is_int_value holds exactly for INT tokens and the float-literal test exactly for FLOAT tokens |
| Semantic.FloatTextValue | Compiler/semantic/semantic.py:49 | `str(float(v))` of an integer literal is a float literal with the same integer value |
| Semantic.ConvertOff | Compiler/semantic/semantic.py:42 | without the conversion flag nothing is replaced |
| Semantic.NoFloatUnchanged | Compiler/semantic/semantic.py:59-62 | a tree without a float comes back unchanged |
| Semantic.OperatorsKept | Compiler/semantic/semantic.py:42 | operator nodes are never replaced: the operator skeleton is kept |
| Semantic.ConvertWrapsAll | Compiler/semantic/semantic.py:42-54 | with the flag on, no integer literal or INT identifier is left unwrapped |
| Semantic.ConvertWrapsOnlyInts | Compiler/semantic/semantic.py:42-54 | conversely, every promotion in a converted parser tree holds an integer literal or an INT identifier: float literals, FLOAT identifiers and undeclared names stay bare |
| Semantic.ConvertUnwraps | Compiler/semantic/semantic.py:51-54 | dropping the promotions again gives back the parser's tree |
| Semantic.ConvertedRoot | Compiler/semantic/semantic.py:46-54 | a converted node never looks like a promotion marker |
| LiteralSemantic.LiteralHasFloatUntyped | semantic/semantic.py:4-17 | the older has_float is the typed one with no declared types |
| LiteralSemantic.LiteralConvertUntyped | semantic/semantic.py:31-49 | the older add_type_conversions is the typed one with no declared types |
| LiteralSemantic.LiteralAnalysisUntyped | semantic/semantic.py:52-55 | the older semantic_analysis is the typed one with no declared types |
| LiteralSemantic.TokenLeaves | semantic/semantic.py:38-47 | an identifier leaf and a float leaf are never wrapped; an INT leaf is wrapped exactly when conversion is on |
| LiteralSemantic.LiteralAnalysisEffect | semantic/semantic.py:52-55 | without a float literal the tree is unchanged; with one, no integer literal is left bare |
| LiteralSemantic.LiteralAnalysisWrapsOnlyInts | semantic/semantic.py:38-55 | every promotion in the result holds an integer literal, so float literals and identifiers stay bare |
| AssignmentTarget.TargetLost | Compiler/semantic/semantic.py:42-54 | as written, an INT target of an assignment whose value holds a float is promoted, and the final ICG line assigns a temporary instead of the variable |
| AssignmentTarget.TargetLostExample | Compiler/semantic/semantic.py:42-54 | `x = x + 1.5` with x INT gives `temp1 = int_to_float(ID1)`, `temp2 = int_to_float(ID1)`, `temp3 = temp2 + 1.5`, `temp1 = temp3` |
| AssignmentTarget.TargetKept | Compiler/icg/icg.py:37-42 | with the value side alone converted, the last line assigns the renamed variable the value's operand, after the value's code |
| AssignmentTarget.KeepingTargetAgrees | Compiler/semantic/semantic.py:59-62 | the corrected analysis equals the original away from `=`, and gives the value side the same promotions |
| Icg.IntermediateCodeGenerator.constructor | Compiler/icg/icg.py:4-7 | a new generator starts at temp1 with no instructions and the given id_map |
| Icg.IntermediateCodeGenerator.NewTemp | Compiler/icg/icg.py:9-12 | new_temp returns `temp<counter>` and advances the counter by one |
| Icg.IntermediateCodeGenerator.Generate | Compiler/icg/icg.py:14-44 | generate appends the printed lines of `Generated` and returns its operand; the counter moves to its end |
| Icg.GenerateIntermediateCode | Compiler/icg/icg.py:46-49 | the lines are those of `Generated` from counter 1 |
| Icg.TempsInOrder | Compiler/icg/icg.py:9-35 | the temporaries a block creates are `temp<c>`, `temp<c+1>`, … in instruction order |
| Icg.TempsFresh | Compiler/icg/icg.py:9-12 | no temporary is created twice |
| Icg.WriteBeforeRead | Compiler/icg/icg.py:14-42 | when no operand the generator emits (a leaf under its id_map name) looks like a temporary, every temporary an instruction reads was written by an earlier instruction, and the returned operand, when it is a temporary, is written |
| Icg.RenamedTempVariable | Compiler/icg/icg.py:26-27 | a variable spelled `temp1` that id_map renames to ID1 is covered: the code of `temp1 = temp1 + 1` reads only temporaries it wrote before |
| Optimizer.SplitAssignLine | Compiler/optimization/optimizer.py:32-34 | splitting at the first `=` and stripping gives back both sides of a line the optimizer printed |
| Optimizer.ComplexOps | Compiler/optimization/optimizer.py:20-24 | is_complex holds iff the text has an operator character |
| Optimizer.PassOf | Compiler/optimization/optimizer.py:26-94 | after any prefix, the candidate points at the last emitted line, stored definitions hold no operator, and emitted lines come from strictly increasing input lines |
| Optimizer.OptimizeCode | Compiler/optimization/optimizer.py:3-122 | optimize_code returns exactly `Optimized`, the renumbering of the first pass's output |
| Optimizer.InlineAndMerge | Compiler/optimization/optimizer.py:26-94 | the first loop returns exactly the output of `PassOf` |
| Optimizer.InlineOrMergeLine | Compiler/optimization/optimizer.py:27-94 | one body of the first loop is one `Step` of the pass |
| Optimizer.InlineTemp | Compiler/optimization/optimizer.py:50-65 | a temporary's line is one `TempStep` |
| Optimizer.MergeUser | Compiler/optimization/optimizer.py:66-94 | a user variable's line is one `UserStep` |
| Optimizer.RenumberTemps | Compiler/optimization/optimizer.py:96-122 | the second loop returns exactly the lines of `RenumberOf` |
| Optimizer.DefinedTemp | Compiler/optimization/optimizer.py:106-109 | a line defines a temporary only when its stripped left side starts with `temp` |
| Optimizer.NoAssignCopied | Compiler/optimization/optimizer.py:27-30 | a line without `=` is copied unchanged and clears the candidate |
| Optimizer.SimpleTempRecorded | Compiler/optimization/optimizer.py:50-55 | a temporary whose substituted value has no operator is recorded for inlining, not emitted, and the candidate stays |
| Optimizer.ComplexTempEmitted | Compiler/optimization/optimizer.py:56-65 | a temporary whose substituted value has an operator is emitted and becomes the candidate |
| Optimizer.UserLineEmitted | Compiler/optimization/optimizer.py:90-94 | a user line that does not take over the candidate is emitted with its substituted value, and the candidate is cleared |
| Optimizer.TempMerged | Compiler/optimization/optimizer.py:79-88 | `tempN = e` followed by `x = tempN` becomes the single line `x = e` in place of the first |
| Optimizer.InliningKeepsOperators | Compiler/optimization/optimizer.py:36-47 | inlining never adds or removes operators, so inlining never turns a line into a complex one |
| Optimizer.InlinedWord | Compiler/optimization/optimizer.py:37-44 | a defined identifier that stands as a whole word is replaced by its definition, and the text around it is substituted separately |
| Optimizer.OptimizedShorter | Compiler/optimization/optimizer.py:10-94 | the output is never longer than the input, and empty input gives empty output |
| Optimizer.RenumberFirsts | Compiler/optimization/optimizer.py:105-112 | temp_map sends the k-th temporary first defined to `temp<k>` and has no other keys |
| Optimizer.RenumberInjective | Compiler/optimization/optimizer.py:109-112 | no two temporaries get the same new name |
| Optimizer.RenumberPrefix | Compiler/optimization/optimizer.py:96-120 | temp_map only grows, and a line's renaming is fixed once it is written |
| Optimizer.RenamedConsistently | Compiler/optimization/optimizer.py:114-120 | each line is renamed, whole words only, by the map as it stood after that line, and the final map extends it |
| Assembly.LastIndex | Compiler/assembly/assembly.py:39 | the greedy group of parse_operand ends at the last `)` at or past its start |
| Assembly.AssemblyGenerator.constructor | Compiler/assembly/assembly.py:4-7 | a new generator has no instructions, the given types and registers R1, R2 |
| Assembly.AssemblyGenerator.Generate | Compiler/assembly/assembly.py:47-191 | generate returns the printed code of `Generated` over the lines, and its id_types becomes the types `Generated` ends with |
| Assembly.EmitLine | Compiler/assembly/assembly.py:51-68 | one body of the loop emits the code of `LineCode` for the line read, and returns its resident temporary and types |
| Assembly.EmitBinary | Compiler/assembly/assembly.py:63-163 | a binary line emits `BinaryLine`: F mnemonics when an operand is FLOAT, then the result's destination |
| Assembly.OperationCode | Compiler/assembly/assembly.py:90-154 | after both swaps, the loads and the arithmetic instruction are `BinaryCode` of the ordered operands |
| Assembly.EmitSimple | Compiler/assembly/assembly.py:165-189 | a copy line emits `SimpleLine`: a load unless the operand is resident, then the destination |
| Assembly.GenerateAssembly | Compiler/assembly/assembly.py:193-195 | generate_assembly returns the printed code of `Generated` over the given types |
| AssemblyLaws.LiteralIsNumber | Compiler/assembly/assembly.py:44-45 | is_literal holds iff the text is a number `float()` reads: digits with at most one dot and at least one digit |
| AssemblyLaws.TypeOfName | Compiler/assembly/assembly.py:27-34 | a name is typed by id_types, and INT when it has no entry |
| AssemblyLaws.TypeOfToken | Compiler/assembly/assembly.py:9-34 | on lexer tokens, get_type is INT for INT numerals, FLOAT for FLOAT numerals, and the recorded type (default INT) for identifiers |
| AssemblyLaws.UnwrapPromotion | Compiler/assembly/assembly.py:39-41 | parse_operand of `int_to_float(x)` gives back x |
| AssemblyLaws.PromotionOperand | Compiler/assembly/assembly.py:9-42 | a promotion operand is read as its inner text and typed FLOAT |
| AssemblyLaws.BinaryMnemonic | Compiler/assembly/assembly.py:76-88 | a binary line has exactly one arithmetic instruction: the operator's mnemonic, F iff an operand is FLOAT, result in R1, R1 among its inputs |
| AssemblyLaws.SimpleNoCalc | Compiler/assembly/assembly.py:165-189 | a copy line has no arithmetic instruction |
| AssemblyLaws.BinaryResident | Compiler/assembly/assembly.py:103-154 | with an operand already in R1 the only loads go to R2; with neither operand in R1 the code starts by loading R1 |
| AssemblyLaws.SimpleResident | Compiler/assembly/assembly.py:173-181 | copying the resident temporary loads nothing; anything else is first loaded into R1 |
| AssemblyLaws.BinaryDestination | Compiler/assembly/assembly.py:156-163 | a temporary's result is not stored but becomes resident and typed; any other result gets one final `STR[F] lhs, R1` and clears the resident |
| AssemblyLaws.SimpleDestination | Compiler/assembly/assembly.py:183-189 | the same destination rule for a copy line, typed by its operand |
| AssemblyLaws.GeneratedTidy | Compiler/assembly/assembly.py:109-154 | in all generated code, immediates are literals, memory operands are not, and every result is computed into R1 |
| AssemblyLaws.NoAssignSilent | Compiler/assembly/assembly.py:52-53 | lines without `=` emit nothing and change no state |
| AssemblyCheck.ReadBinaryLine | Compiler/assembly/assembly.py:55-68 | the assembler reads a line printed by the ICG as `d = l op r` back into the same destination, operator and operands |
| AssemblyCheck.LineAgrees | Compiler/assembly/assembly.py:51-189 | with write-through, running one line's code keeps memory equal to the line's meaning, and R1 equal to the resident temporary |
| AssemblyCheck.WriteThroughCorrect | Compiler/assembly/assembly.py:47-191 | corrected: with temporaries stored, the code's final memory equals the meaning of the three-address lines |
| AssemblyCheck.TempsNeverStored | Compiler/assembly/assembly.py:156-163 | as written, no generated code ever stores a temporary |
| AssemblyCheck.StaleRun | Compiler/assembly/assembly.py:104-163 | as written, `t1 = a + b; t2 = c + d; x = t1 op t2` loads the never-stored t1 from memory |
| AssemblyCheck.StaleEval | Compiler/assembly/assembly.py:47-68 | the meaning of those three lines sets x to `(a + b) op (c + d)` |
| AssemblyCheck.TempLost | Compiler/assembly/assembly.py:156-163 | as written, `temp1 = 1 + 2; temp2 = 3 + 4; ID1 = temp1 * temp2` leaves ID1 = 0, where the lines mean 21 |
| AssemblyCheck.TempKept | Compiler/assembly/assembly.py:156-163 | corrected, the same lines leave ID1 = 21 |

## Left out

- **Output and display.**
  - The `print` of the token string in `lexical_walk`.
  - `print_tree` in both `tree_utils.py` files.
  - The `__repr__` methods.
- **Error messages.** The model keeps which error is raised and the values in its message, not the message text.
- **Character tests are ASCII.** `isdigit`, `isalpha`, `isalnum`, `isspace`, `str.lower` and the regular-expression `\w`, `\d` and `\b` are modelled on ASCII. Python accepts more Unicode digits and letters.
- **Number reading.**
  - `float()` and `int()` are modelled on digit-and-dot text only, the only text the lexer and ICG produce.
  - Signs, exponents, `inf`, `nan`, underscores and surrounding white space are not modelled.
  - `isinstance(value, float)` never holds, because tree values are always strings here.
- **No aliasing of trees or dicts.**
  - add_type_conversions updates the caller's tree in place. Here it is a function returning a new tree.
  - `AssemblyGenerator` keeps a reference to the caller's non-empty `id_types` dict. Here the map is copied, so the caller does not see the temporaries' types.
- **Unused field.** The `registers` field of `AssemblyGenerator` is stored but never read.
- **Whole-program wiring is out of scope.** The GUIs, the hybrid executor and the `main.py` pipelines are not part of this model. This includes how `main.py` builds `id_types` for the assembler.
- **AssemblyCheck machine.**
  - The machine holds unbounded integers, so FLOAT and INT arithmetic are not told apart.
  - A literal counts only for its integer part.
  - Division rounds as Dafny's does, and division by zero gives 0 on both sides of the comparison.
  - `WriteThroughCorrect` and `StaleRun`/`TempLost` hold for this integer reading only.
- **Semantic.FloatText** and **Semantic.FloatTextValue** model `str(float(v))` of an integer literal as its exact digits followed by `.0`. Python rounds integers above 2^53 to the nearest double and writes values from 1e16 up in exponent form (`1e+16`); neither is modelled.
- **AssemblyCheck.ReadBinaryLine** covers ICG lines whose left operand has no operator character. A negative literal cannot occur there, because the lexer has no unary minus.

## Findings

| source | as written | input that shows it | evidently intended | confidence | as-written member | corrected member |
|---|---|---|---|---|---|---|
| Compiler/assembly/assembly.py:156-163 | a temporary's result is never stored; it is only remembered as R1's content, so computing a second temporary overwrites it, and a later read loads it from memory that was never written | `temp1 = 1 + 2`, `temp2 = 3 + 4`, `ID1 = temp1 * temp2` (from `x = (1 + 2) * (3 + 4)`) computes `ID1 = 0 * 7 = 0` instead of 21 | every value a later line reads is where the code reads it: storing each temporary as well as keeping it in R1 makes memory agree with the three-address meaning | not executed | AssemblyCheck.TempLost | AssemblyCheck.WriteThroughCorrect |
| Compiler/semantic/semantic.py:42-54 | with a float on the right, an INT target of `=` is promoted too, so the ICG copies it into a fresh temporary and the assignment writes that temporary; the variable is never assigned | `x = x + 1.5` with x declared INT gives `temp1 = int_to_float(ID1)`, …, `temp1 = temp3` | only the value side is converted, and the assignment writes the variable | not executed | AssignmentTarget.TargetLost | AssignmentTarget.TargetKept |
