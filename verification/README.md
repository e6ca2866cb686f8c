# little-lang compiler core, modelled in Dafny

little-lang is a small imperative language compiled to LLVM IR. This project
models the core of its C++ compiler:

- **Parser.** The token cursor, the backtracking expression and statement
  parsers, and both parser passes. Pass 1 collects function headers and skips
  bodies. Pass 2 parses each body.
- **Driver.** `main` runs the two passes over the lexer's token vector. This
  is parser.cpp.
- **Symbol table.** A chain of scopes, from the root to the innermost. This is
  symtab.hpp/cpp.
- **Settings.** The compiler's option set (utils.hpp).
- **`**` at run time.** The routine `__l_pow` (runtime.c).
- **Code generator.** src/codegenvisitor.cpp. The LLVM it builds is modelled
  as an abstract IR of typed values, instructions and basic blocks.
- **AST printer.** `PrintASTVisitor` (visitor.cpp and baseast.cpp).

Every piece takes the form of its source:

- **Parser.** The parser's global cursor (`tokens`, `curTokIdx`, `curTok`,
  `curVal`, `fnDefinitions`) is the class `Parsing.Parser`. Each `parse*`
  function is a method on it. Each method is proved to agree with a pure
  specification function in `ParserSpec`. That function gives the parse
  result and where the cursor ends (`At(val, pos)`).
- **Parse results.** They distinguish a node, a null pointer, a thrown
  `Exception`, a pass that cannot make progress (an endless loop in the
  source), and a read past the last token.
- **Other stateful objects.** `SymbolTable`, `Settings`, the code generator
  and the printer are classes whose fields the methods update. The IR builder
  is a class too.
- **Code generator results.** A code generator method either succeeds
  (`Ok`), throws an `Exception` (`Threw`), or dereferences a null pointer
  (`Crashed`).
- **Printer.** Printed lines go to an output sequence field. A recursive
  function gives the lines for each node. A null child that the visitor
  dereferences shows there as a null-dereference line, where the process
  dies. Each visit is proved to write those lines up to and including the
  first such line, and nothing once the process has died (`Printer.Run`).

Some code paths read oddly but are modelled as the code is written, not as
the grammar suggests:

- **Names and values come from the next token.** `parseNumberExpr`,
  `parseIdentExpr`, `parseArrayExpr`, `parseFncallExpr` and the string
  arguments of `print` read `curVal` after `match` has consumed the token.
  So a literal's value, or a name, comes from the token that follows it.
- **Parameter names.** Every function parameter is named after the lexer's
  last string `strval`.
- **`skipToFnBody` would stop early.** It stops on a `{`, and also on a
  Number token, because `getNextTok()` returns 0 there. On the driver's token
  vector this cannot happen. The lexing loop (parser.cpp:772) stops at the
  first token whose code is 0, and that code is Number's, so no Number token
  reaches the parser. The model keeps the stop, since the parser does not
  rely on this.

Two parts are modelling choices rather than the code as written:

- **Token ordinals.** consts.hpp lists only the first nineteen token kinds,
  whose ordinals are 0-18. The other kinds the parser uses (strings, the
  remaining operators, `,`, the keywords, End) do not appear in it. Their ordinals, 19-43, are chosen here in declaration
  order. Only their distinctness is relied on, and it is proved
  (`Tokens.OrdinalInjective`).
- **Literal nodes.** The parser builds `true`, `false` and number literals
  as plain `BaseExpr` nodes holding a value object (parser.cpp:297, 308,
  320). The printer prints that value (visitor.cpp:165-168). The code
  generator's visit of a plain `BaseExpr` is empty (src/codegenvisitor.cpp:411-414);
  only its `TrueExpr`, `FalseExpr` and `NumExpr` visits make constants
  (src/codegenvisitor.cpp:416-429). The model merges these node types into
  one `BoolLit` and one `Num` constructor, and lowers them as the
  `TrueExpr`, `FalseExpr` and `NumExpr` visits do. This is a modelling
  choice, listed under Left out.

## Model

| member | source | states |
|---|---|---|
| Basics.ParseDecimalPrefix | src/codegenvisitor.cpp:48 | the decimal digits at the front are read; there is no number exactly when the text is empty or does not start with a digit |
| Basics.ParseDecimalRoundTrip | src/codegenvisitor.cpp:48 | reading back the decimal text of any natural number gives that number |
| Basics.AtoiRoundTrip | parser.cpp:319 | C `atoi` of the decimal text of any integer, sign included, gives the integer back |
| Basics.StrtoulPrefix | src/codegenvisitor.cpp:48 | what `strtoul` reads for `std::stoul`: nothing from empty text; text that starts with a digit is read as its leading digits, unsigned |
| Basics.StrtoulSpaceAndSign | src/codegenvisitor.cpp:48 | leading white space is skipped, and a `+` or `-` in front of a number's digits is read as its sign |
| Tokens.OrdinalRoundTrip | consts.hpp:3-29 | the integer a token kind converts to identifies the kind: it maps back to it |
| Tokens.OrdinalInjective | consts.hpp:3-29 | two token kinds print the same ordinal exactly when they are the same kind |
| Tokens.OrdinalZero | parser.cpp:28-36 | `getNextTok()` returns 0, which C reads as false, exactly on a Number token |
| Tokens.OperatorClassesOverlapAtMinus | parser.cpp:69-111 | `-` is the only token both `isBinOp` and `isUnaryOp` accept |
| Tokens.ClassifiersDisjointFromLayout | parser.cpp:69-138 | no operator or type classifier accepts a line end or End, and no type keyword is an operator |
| Ast.OrNull | parser.cpp:268-291 | the stored node is null exactly when the parse gave nothing or gave a null node |
| ParserSpec.Propagate | parser.cpp:674-704 | a failed sub-parse is passed on with the same kind of failure and the same exception |
| ParserSpec.SkipEols | parser.cpp:43-46 | `skipEOLs` ends on a token at or after the start that is not a line end |
| ParserSpec.SkipEolsSkipsOnlyEols | parser.cpp:43-46 | every token `skipEOLs` steps over is a line end |
| ParserSpec.MatchAt | parser.cpp:48-67 | `match` moves forward only; it consumes a token when it returns true; a current token of the wanted kind is consumed at once |
| ParserSpec.StrictMatchAt | parser.cpp:113-121 | `strict_match` throws exactly when `match` fails, naming a token of another kind |
| ParserSpec.MatchAsWrittenAt | parser.cpp:48-62 | for every kind but End the written `match` behaves as modelled; only matching End can step past the sentinel |
| ParserSpec.MatchEndReadsPastSentinel | parser.cpp:226 | when only line ends remain before the sentinel, `match(Token::End)` reads past the last token |
| ParserSpec.TrueAt | parser.cpp:293-302 | a parsed node is the literal `true`, and the cursor stays on a token |
| ParserSpec.FalseAt | parser.cpp:304-313 | a parsed node is the literal `false`, and the cursor stays on a token |
| ParserSpec.NumberAt | parser.cpp:315-325 | a parsed number has the `atoi` value of the token the cursor ends on, the one after the literal |
| ParserSpec.IdentAt | parser.cpp:327-336 | a parsed identifier is named after the token the cursor ends on |
| ParserSpec.InputAt | parser.cpp:373-381 | a parsed `input()` consumed at least its three tokens |
| ParserSpec.TernaryAt | parser.cpp:338-357 | a parsed ternary consumed input and has a condition and a true branch that are not null |
| ParserSpec.SizeofAt | parser.cpp:360-370 | a parsed `sizeof` consumed input and has an argument that is not null |
| ParserSpec.IndexAt | parser.cpp:383-396 | a parsed array access consumed input and has an index that is not null |
| ParserSpec.CallAt | parser.cpp:399-410 | a parsed call consumed input |
| ParserSpec.ArgsAt | parser.cpp:268-291 | a parsed argument list consumed input |
| ParserSpec.ArgsLoopAt | parser.cpp:274-289 | the argument loop moves forward and consumes input when it succeeds |
| ParserSpec.BinopAt | parser.cpp:413-431 | a parsed binary expression has one of the fourteen binary operators and a right operand that is not null |
| ParserSpec.UnaryAt | parser.cpp:434-449 | a parsed unary expression has `!` or `-` and an operand that is not null |
| ParserSpec.ExprAt | parser.cpp:451-482 | `parseExpr` gives a node that is not null and consumed input, or null with the cursor back where it started |
| ParserSpec.ExprAlternativesAt | parser.cpp:453-481 | the same for the alternatives tried in order |
| ParserSpec.VarDeclsAt | parser.cpp:238-264 | a parsed `var` statement declares at least one variable; it never throws |
| ParserSpec.VarNamesAt | parser.cpp:247-257 | the names loop moves forward only |
| ParserSpec.VarDeclsTyped | parser.cpp:238-264 | every declared variable has the statement's type keyword |
| ParserSpec.VarNamesKeepPrefixAndType | parser.cpp:247-257 | the names loop only appends, and only variables of the statement's type |
| ParserSpec.ArrayDeclsAt | parser.cpp:484-517 | an `array` statement declares at least one array, gives null, or loops for ever; it never throws |
| ParserSpec.ArrayItemAt | parser.cpp:499-508 | a parsed declaration consumed input and is named after its first token |
| ParserSpec.ArrayPassAt | parser.cpp:494-509 | one pass of the loop adds a declaration, adds nothing, gives null, or makes no progress; a pass that goes on consumed input |
| ParserSpec.ArrayItemsAt | parser.cpp:494-513 | a successful loop ends on a line end, and keeps at least one declaration once one was added |
| ParserSpec.PrintAt | parser.cpp:587-599 | a parsed `print` has at least one argument; it never throws |
| ParserSpec.PrintArgsAt | parser.cpp:551-585 | a successful argument list has at least one argument |
| ParserSpec.PrintArgsLoopAt | parser.cpp:556-583 | the same for the loop |
| ParserSpec.PrintArgAt | parser.cpp:563-577 | a parsed argument consumed input and is not null |
| ParserSpec.PrintArgsAreNodes | parser.cpp:551-585 | no argument a successful `parsePrintArgs` returns is null |
| ParserSpec.VarAssignAt | parser.cpp:519-531 | a parsed assignment targets the name at the start and assigns a non-null value |
| ParserSpec.ArrayAssignAt | parser.cpp:533-549 | a parsed element assignment targets the name at the start, with non-null index and value |
| ParserSpec.ExprStmtAt | parser.cpp:696-697 | an expression statement holds a non-null expression; without one the cursor is unchanged |
| ParserSpec.ReturnAt | parser.cpp:659-670 | a parsed `return` consumed input; it never throws |
| ParserSpec.IfAt | parser.cpp:604-622 | a parsed `if` consumed input |
| ParserSpec.WhileAt | parser.cpp:624-638 | a parsed `while` has a non-null condition and a block as its body |
| ParserSpec.ForAt | parser.cpp:640-657 | a parsed `for` has a non-null loop variable and container |
| ParserSpec.BlockAt | parser.cpp:706-727 | a parsed block consumed input |
| ParserSpec.BlockItemsAt | parser.cpp:714-725 | the statement loop never gives null; it succeeds on the closing `}` |
| ParserSpec.StmtAt | parser.cpp:674-704 | `parseStmt` never gives null (it throws instead), and a parsed statement consumed input |
| ParserSpec.StmtAlternativesAt | parser.cpp:676-703 | the same for the alternatives tried in order |
| ParserSpec.ParamsAt | parser.cpp:140-173 | a parsed parameter list consumed input |
| ParserSpec.ParamAt | parser.cpp:145-168 | one parameter consumed input, has a type keyword, and is named `strval` |
| ParserSpec.ParamsLoopAt | parser.cpp:145-169 | the loop consumes input when it succeeds |
| ParserSpec.ParamsTypedAndNamed | parser.cpp:140-173 | every collected parameter has a type keyword and the name `strval` |
| ParserSpec.ParamsLoopTypedAndNamed | parser.cpp:145-169 | the loop keeps that property of the parameters already collected |
| ParserSpec.FnDefAt | parser.cpp:175-191 | `parseFnDef` gives a header without a body, with a type keyword and a name that is not empty, or throws its header exception |
| ParserSpec.FnDefTailAt | parser.cpp:182-189 | once the type and name are read, the result keeps them, or throws naming the function |
| ParserSpec.SkipFnBodyAt | parser.cpp:193-209 | a skipped body consumed input |
| ParserSpec.SkipBodyLoopAt | parser.cpp:200-206 | the skip loop never reports a missing `{` and consumes input while braces are open |
| ParserSpec.SkipBodyLoopStopsAtClosingBrace | parser.cpp:200-206 | the skip loop stops just after the `}` that closes every open level |
| ParserSpec.SkipBodyLoopStopsAtFirstClose | parser.cpp:200-206 | no earlier point of the loop had closed every open level |
| ParserSpec.MainCount | parser.cpp:214-218 | the number of `main` functions is at most the number of functions |
| ParserSpec.MainCountAppend | parser.cpp:217-218 | appending a definition adds one `main` exactly when it is named `main` |
| ParserSpec.Program1At | parser.cpp:211-232 | pass 1 gives headers, throws, or reads past the tokens, and leaves the cursor on a token |
| ParserSpec.Program1LoopAt | parser.cpp:215-228 | the same for its loop, which moves forward only |
| ParserSpec.FnHeaderAt | parser.cpp:215-224 | one loop pass succeeds with exactly the header `parseFnDef` read, after consuming input |
| ParserSpec.Program1CollectsHeaders | parser.cpp:211-232 | pass 1 returns headers only, each without a body and with a type keyword; it ends on End with exactly one `main` |
| ParserSpec.Program1LoopCollectsHeaders | parser.cpp:215-228 | the loop keeps that property of the headers collected so far |
| ParserSpec.SkipToBodyAt | parser.cpp:234-236 | `skipToFnBody` stops at the first `{` or Number at or after the cursor; it fails only when no `{` follows |
| ParserSpec.FnBodyAt | parser.cpp:743-753 | a pass 2 iteration keeps the prototype it was given and never gives null |
| ParserSpec.FoundBodyAt | parser.cpp:749-751 | once the header is found, the body parse keeps the prototype and never gives null |
| ParserSpec.Program2KeepsHeaders | parser.cpp:734-754 | pass 2 returns the definitions it was given, in order, with the same prototypes |
| ParserSpec.MainCountOfSameProtos | parser.cpp:217-231 | lists with the same prototypes have the same number of `main`s |
| ParserSpec.ParsedProgramHasOneMain | parser.cpp:779-797 | a program that parses has exactly one `main`, and its definitions are one for one the headers of pass 1 |
| Parsing.Parser.GetNextTok | parser.cpp:28-36 | moves the cursor one token forward and returns that token's kind |
| Parsing.Parser.UpdateTokenIdx | parser.cpp:38-41 | puts the cursor on the given token |
| Parsing.Parser.SkipEOLs | parser.cpp:43-46 | ends where `ParserSpec.SkipEols` says |
| Parsing.Parser.Match | parser.cpp:48-67 | result and cursor as `ParserSpec.MatchAt` gives them |
| Parsing.Parser.StrictMatch | parser.cpp:113-121 | the exception and cursor of `ParserSpec.StrictMatchAt` |
| Parsing.Parser.ParseTrueExpr | parser.cpp:293-302 | node and cursor of `ParserSpec.TrueAt` |
| Parsing.Parser.ParseFalseExpr | parser.cpp:304-313 | node and cursor of `ParserSpec.FalseAt` |
| Parsing.Parser.ParseNumberExpr | parser.cpp:315-325 | node and cursor of `ParserSpec.NumberAt` |
| Parsing.Parser.ParseIdentExpr | parser.cpp:327-336 | node and cursor of `ParserSpec.IdentAt` |
| Parsing.Parser.ParseInputExpr | parser.cpp:373-381 | node and cursor of `ParserSpec.InputAt` |
| Parsing.Parser.ParseTernaryExpr | parser.cpp:338-357 | node and cursor of `ParserSpec.TernaryAt` |
| Parsing.Parser.ParseSizeofExpr | parser.cpp:360-370 | node and cursor of `ParserSpec.SizeofAt` |
| Parsing.Parser.ParseArrayExpr | parser.cpp:383-396 | node and cursor of `ParserSpec.IndexAt` |
| Parsing.Parser.ParseFncallExpr | parser.cpp:399-410 | node and cursor of `ParserSpec.CallAt` |
| Parsing.Parser.ParseFnArgs | parser.cpp:268-291 | the arguments and cursor of `ParserSpec.ArgsAt` |
| Parsing.Parser.ParseBinopExpr | parser.cpp:413-431 | node and cursor of `ParserSpec.BinopAt` |
| Parsing.Parser.ParseUnaryopExpr | parser.cpp:434-449 | node and cursor of `ParserSpec.UnaryAt` |
| Parsing.Parser.ParseExpr | parser.cpp:451-482 | node and cursor of `ParserSpec.ExprAt` |
| Parsing.Parser.ParseVarDecls | parser.cpp:238-264 | statement and cursor of `ParserSpec.VarDeclsAt` |
| Parsing.Parser.ParseArrayDecls | parser.cpp:484-517 | statement and cursor of `ParserSpec.ArrayDeclsAt` |
| Parsing.Parser.ParseArrayDeclPass | parser.cpp:494-509 | one loop pass as `ParserSpec.ArrayPassAt` |
| Parsing.Parser.ParseArrayDeclItem | parser.cpp:499-508 | one declaration as `ParserSpec.ArrayItemAt` |
| Parsing.Parser.ParsePrintStmt | parser.cpp:587-599 | statement and cursor of `ParserSpec.PrintAt` |
| Parsing.Parser.ParsePrintArgs | parser.cpp:551-585 | arguments and cursor of `ParserSpec.PrintArgsAt` |
| Parsing.Parser.ParsePrintArg | parser.cpp:563-577 | one argument as `ParserSpec.PrintArgAt` |
| Parsing.Parser.ParseVarAssignment | parser.cpp:519-531 | statement and cursor of `ParserSpec.VarAssignAt` |
| Parsing.Parser.ParseArrayAssignment | parser.cpp:533-549 | statement and cursor of `ParserSpec.ArrayAssignAt` |
| Parsing.Parser.ParseExprStmt | parser.cpp:696-697 | statement and cursor of `ParserSpec.ExprStmtAt` |
| Parsing.Parser.ParseReturnStmt | parser.cpp:659-670 | statement and cursor of `ParserSpec.ReturnAt` |
| Parsing.Parser.ParseIfStmt | parser.cpp:604-622 | statement and cursor of `ParserSpec.IfAt` |
| Parsing.Parser.ParseWhileStmt | parser.cpp:624-638 | statement and cursor of `ParserSpec.WhileAt` |
| Parsing.Parser.ParseForStmt | parser.cpp:640-657 | statement and cursor of `ParserSpec.ForAt` |
| Parsing.Parser.ParseStmtBlock | parser.cpp:706-727 | block and cursor of `ParserSpec.BlockAt` |
| Parsing.Parser.ParseBlockItems | parser.cpp:714-725 | statements and cursor of `ParserSpec.BlockItemsAt` |
| Parsing.Parser.ParseStmt | parser.cpp:674-704 | statement and cursor of `ParserSpec.StmtAt` |
| Parsing.Parser.ParseFnParams | parser.cpp:140-173 | parameters and cursor of `ParserSpec.ParamsAt` |
| Parsing.Parser.ParseFnParam | parser.cpp:145-168 | one parameter as `ParserSpec.ParamAt` |
| Parsing.Parser.ParseFnDef | parser.cpp:175-191 | header and cursor of `ParserSpec.FnDefAt` |
| Parsing.Parser.ParseFnDefTail | parser.cpp:182-189 | the rest of the header as `ParserSpec.FnDefTailAt` |
| Parsing.Parser.SkipFnBody | parser.cpp:193-209 | outcome and cursor of `ParserSpec.SkipFnBodyAt` |
| Parsing.Parser.ParseFnHeader | parser.cpp:215-224 | one pass 1 iteration as `ParserSpec.FnHeaderAt`; a parsed header is appended to `fnDefinitions` |
| Parsing.Parser.NextHeader | parser.cpp:215-231 | one header read keeps the pass 1 loop invariant: the headers so far and the count of `main`s |
| Parsing.Parser.ParseProgram1 | parser.cpp:211-232 | result and cursor of `ParserSpec.Program1At`; every header read is appended to `fnDefinitions` |
| Parsing.Parser.SkipToFnBody | parser.cpp:234-236 | stops where `ParserSpec.SkipToBodyAt` says, or on the last token when it has no answer |
| Parsing.Parser.ParseFnBodyOf | parser.cpp:743-753 | one pass 2 iteration as `ParserSpec.FnBodyAt` |
| Parsing.Parser.ParseFoundBody | parser.cpp:749-751 | the body parse as `ParserSpec.FoundBodyAt` |
| Parsing.Parser.FillBody | parser.cpp:743-753 | the `i`-th definition gets its body in place; the others are untouched |
| Parsing.Parser.ParseProgram2 | parser.cpp:734-754 | every definition gets its body, stored in place in `fnDefinitions`, as `ParserSpec.Program2LoopAt` says |
| Parsing.Parser.ParseProgram | parser.cpp:779-797 | the driver's two passes give `ParserSpec.ProgramAt`, and `fnDefinitions` ends as the result |
| ParserProperties.MatchSkipsLineEndsThenConsumesOne | parser.cpp:48-62 | for every kind but Eol, `match` steps over all line ends, then consumes exactly one token of that kind or nothing more |
| ParserProperties.MatchEolConsumesOnlyTheCurrentToken | parser.cpp:64-67 | matching Eol consumes the current token or nothing |
| ParserProperties.ExprIsFirstNode | parser.cpp:451-482 | `parseExpr` returns the first alternative, in source order, that gave a node; otherwise null with the cursor reset |
| ParserProperties.StmtIsFirstOutcome | parser.cpp:674-704 | `parseStmt` returns the first alternative that is not null; when all are null it throws naming the token reached |
| ParserProperties.SkipFnBodyNeedsBrace | parser.cpp:193-196 | `skipFnBody` fails exactly when the next token that is not a line end is not `{` |
| ParserProperties.SkipFnBodyStopsAfterMatchingBrace | parser.cpp:193-209 | a skipped body ends just after the `}` that brings the depth back to zero; before it the depth stays positive |
| SymbolTables.TokenToSymbolType | symtab.cpp:4-17 | the four type keywords map to their symbol types; every other token maps to Err; none maps to Function |
| SymbolTables.Lookup | symtab.hpp:75-85 | nothing is found exactly when no scope of the chain has the name |
| SymbolTables.LookupFindsInnermost | symtab.hpp:75-85 | a lookup answers from the innermost scope that has the name |
| SymbolTables.LookupAfterInsert | symtab.hpp:116-130 | after adding a name to the innermost scope, that name is found there and every other name's lookup is unchanged |
| SymbolTables.EnclosingFromNone | symtab.hpp:99-114 | the walk finds no function exactly when no scope above the root is a function's scope |
| SymbolTables.EnclosingFromInnermost | symtab.hpp:99-114 | otherwise it answers from the innermost function scope |
| SymbolTables.SymbolTable.constructor | symtab.hpp:52-54 | a new scope is an empty table below its parent's chain |
| SymbolTables.SymbolTable.HasSymbolInCurrentScope | symtab.hpp:64-73 | an entry is found exactly when this scope's own table has the name |
| SymbolTables.SymbolTable.HasSymbol | symtab.hpp:75-85 | the walk up the parents finds the innermost entry for the name |
| SymbolTables.SymbolTable.GetFnProto | symtab.hpp:87-97 | the prototype is found exactly when the root maps the name to a function entry |
| SymbolTables.SymbolTable.GetEnclosingFnProto | symtab.hpp:99-114 | the innermost scope, below the root, whose only entry has the `lilfn_` prefix |
| SymbolTables.SymbolTable.AddFnSymbol | symtab.hpp:116-122 | added exactly when no scope of the chain has the name; then only the innermost table changes |
| SymbolTables.SymbolTable.AddSymbol | symtab.hpp:124-130 | the same, with a plain entry of the keyword's symbol type |
| SymbolTables.SymbolTable.Emplace | symtab.hpp:118-119 | inserts into this scope's table only a key it lacks, and reports whether it did |
| Options.FindEquals | utils.hpp:18 | the position of the first `=`, or none when there is no `=` |
| Options.KeyOf | utils.hpp:18 | the key is a prefix of the setting and holds no `=` |
| Options.ValueOf | utils.hpp:28-29 | the setting is its key, `=`, and the value |
| Options.KeyValueRoundTrip | utils.hpp:24-32 | `key=value`, with a key free of `=`, splits back into that key and that value |
| Options.BareKey | utils.hpp:13-22 | a bare name is its own key and carries no value |
| Options.Settings.constructor | utils.hpp:6-7 | the option set starts empty |
| Options.Settings.Add | utils.hpp:9-11 | the setting is in the set afterwards, and nothing else changes |
| Options.Settings.IsOn | utils.hpp:13-22 | true exactly when some setting's key is the option |
| Options.Settings.GetOptionValue | utils.hpp:24-32 | the value of some `key=value` setting when one exists, otherwise the empty string |
| Runtime.LPow | runtime.c:24-30 | `__l_pow` returns x to the power n modulo 2^64 |
| Runtime.PowerAdd | runtime.c:24-30 | exponents add, on unbounded naturals |
| Runtime.WrappedPowerAdds | runtime.c:24-30 | the wrapped power obeys the same exponent law modulo 2^64 |
| Ir.IntWidth | src/codegenvisitor.cpp:45-49 | 64 without an option; otherwise a width exactly when `std::stoul` gives a number, reduced modulo 2^32 by the `unsigned` it is stored in |
| Ir.Stoul | src/codegenvisitor.cpp:48 | `std::stoul` gives a number below 2^64; it gives none where it throws, on text without a number or a number that does not fit; a negative number wraps modulo 2^64 |
| Ir.WidthOptionRoundTrip | src/codegenvisitor.cpp:45-49 | writing any width below 2^32 in decimal selects exactly that width |
| Ir.WidthOptionSpaceAndSign | src/codegenvisitor.cpp:45-49 | a width written after white space or a `+` selects that width; `-1` selects 2^32 - 1 |
| Ir.LlvmType | src/codegenvisitor.cpp:43-66 | a type exists exactly for the four type keywords; `void` maps to the void type; `bool` maps to `i1` |
| Ir.Wrap | src/codegenvisitor.cpp:426-429 | a constant truncated to the `int` width is representable in that width |
| Ir.SExtKeepsValue | src/codegenvisitor.cpp:35-36 | `sext` to a wider width keeps every value |
| Ir.TruncKeepsFittingValue | src/codegenvisitor.cpp:37-38 | `trunc` keeps any value that fits the narrower width |
| Ir.WrapCongruent | src/codegenvisitor.cpp:37-38 | a truncated value differs from the original by a multiple of 2^w |
| Ir.CoercionFor | src/codegenvisitor.cpp:26-41 | `UpdateToIntWidth` keeps `i1` and equal widths, widens to a larger width, and narrows to a smaller one |
| Ir.CoercionKeepsFittingValues | src/codegenvisitor.cpp:26-41 | a coercion keeps every value that fits the target width, and always gives one that fits |
| Ir.WidenThenNarrowRoundTrip | src/codegenvisitor.cpp:26-41 | widening and then narrowing back gives the original value |
| Codegen.RuntimeFns | src/codegenvisitor.cpp:111-183 | the eight run-time and intrinsic functions, with `__l_pow` on the `int` width and the 64-bit `print`/`input` signatures |
| Codegen.CoercedValue | src/codegenvisitor.cpp:26-41 | the coerced value is `i1` or has the target width; it is the input itself exactly when no instruction is emitted |
| Codegen.BinopCode | src/codegenvisitor.cpp:456-514 | an operation exists exactly for the fourteen binary operators; `**` is the run-time call; the six comparisons are compares |
| Codegen.UnaryInst | src/codegenvisitor.cpp:516-531 | an instruction exists exactly for `!` and `-` |
| Codegen.BoundsCheckGuards | src/codegenvisitor.cpp:378-393 | for any register values, an access reaches the pass block exactly when 0 <= index < size; every other edge goes to the abort block |
| Codegen.CheckBlocksMakeDiamond | src/codegenvisitor.cpp:378-395 | the bounds check grows the function by its three blocks, and they form that diamond |
| Codegen.AsWrittenFillMissesBits | src/codegenvisitor.cpp:80 | the fill as written, `bitsSize/8` bytes, never covers more than the value's bits; it misses some exactly when the width is not a whole number of bytes, and is empty below 8 bits, `bool` included |
| Codegen.ZeroFillBytes | src/codegenvisitor.cpp:77-80 | the corrected fill covers every bit of the value and less than one byte more |
| Codegen.ZeroFillAgreesOnWholeBytes | src/codegenvisitor.cpp:80 | the corrected and written fills agree exactly on widths that are whole bytes |
| Codegen.EntryAllocaInsts | src/codegenvisitor.cpp:68-84 | a slot, then, exactly when its type is sized, a zero fill of `bitsSize/8` bytes, as written |
| Codegen.AllocaArrayFillsRecord | src/codegenvisitor.cpp:86-109 | the size field receives the size; the data field receives the buffer; the buffer's fill is `size` times `w/8` bytes, as written |
| Codegen.TopRun | src/codegenvisitor.cpp:198-206 | the block-exit loop pops exactly the entries on top tagged with the block, stopping at the first other one |
| Codegen.PopsWhatWasPushed | src/codegenvisitor.cpp:198-206 | a block pops exactly the entries it pushed; the enclosing blocks' entries stay |
| Codegen.RestoresLifo | src/codegenvisitor.cpp:198-206 | one `stackrestore` per popped entry, newest first |
| Codegen.FirstReturn | src/codegenvisitor.cpp:189-195 | the first `return` of a block, with no `return` before it, or the statement count |
| Codegen.ForHeaderBranches | src/codegenvisitor.cpp:338-340 | the `for` header enters the body exactly while the counter is below the size |
| Codegen.ForCounterNoWrap | src/codegenvisitor.cpp:346 | the counter increment never wraps while the counter is below a size that fits |
| Codegen.ParamTys | src/codegenvisitor.cpp:608-614 | one type per parameter, when all have one |
| Codegen.ParamTysAgree | src/codegenvisitor.cpp:608-614 | the types are found exactly when every parameter has one, and each is its keyword's type |
| Codegen.DeclareSucceedsIff | src/codegenvisitor.cpp:602-624 | the declaration pass succeeds exactly when the names are new and distinct and every prototype has a type |
| Codegen.DeclaredSignatures | src/codegenvisitor.cpp:602-624 | after it, every function has its prototype's type, the earlier functions are kept, and nothing else is added |
| Codegen.DuplicateNameRejected | src/codegenvisitor.cpp:604-606 | two functions of one name make the pass throw |
| Codegen.RuntimeNameRejected | src/codegenvisitor.cpp:600-606 | a function named like a run-time function makes the pass throw |
| Codegen.ParamStoresStoreEachArg | src/codegenvisitor.cpp:641-649 | argument `i` is stored, with its type, into the `i`-th slot |
| Codegen.ParamPrefixStep | src/codegenvisitor.cpp:641-649 | one more parameter adds its own slot and store to those before it |
| Codegen.BindAllNames | src/codegenvisitor.cpp:648 | binding the arguments adds exactly their names to `_NamedValues` |
| Codegen.BindAllSlots | src/codegenvisitor.cpp:648 | an argument whose name no later argument carries is bound to its own slot |
| Codegen.ArgsBoundToOwnSlots | src/codegenvisitor.cpp:618-649 | every named argument is bound, under the name LLVM gave it, to its own slot; the first argument under its parameter's own name |
| Codegen.NextFreeName | src/codegenvisitor.cpp:622 | LLVM's unique name is the base followed by the first counter value past the last one whose name is free |
| Codegen.SetName | src/codegenvisitor.cpp:622 | `setName` keeps a free name, keeps an empty one, and otherwise gives the name followed by digits that no value in the function uses yet |
| Codegen.ArgNamesTable | src/codegenvisitor.cpp:618-623 | after naming the arguments, the names in use are exactly their non-empty names |
| Codegen.ArgNamesDistinct | src/codegenvisitor.cpp:618-623 | no two arguments carry the same non-empty name |
| Codegen.ArgNamesKeepFreeNames | src/codegenvisitor.cpp:618-623 | an argument keeps its parameter's name exactly when the name is empty or no earlier argument carries it |
| Codegen.ArgNamesSuffixed | src/codegenvisitor.cpp:618-623 | every argument's name is its parameter's name followed by decimal digits, possibly none |
| Codegen.NumberedNames | src/codegenvisitor.cpp:618-623 | the numbered names are the plain name, then the name followed by its position |
| Codegen.NextNumbered | src/codegenvisitor.cpp:622 | after `n` arguments of one name, the next is named with suffix `n` |
| Codegen.SameNamesNumbered | src/codegenvisitor.cpp:618-623 | parameters that share one name, as the parser gives them, are named `x`, `x1`, `x2`, ... |
| Codegen.VarNamesAreTheNames | src/codegenvisitor.cpp:218-226 | a name is declared by a `var` statement exactly when one of its variables carries it |
| Codegen.ArrayNamesAreTheNames | src/codegenvisitor.cpp:228-240 | a name is declared by an `array` statement exactly when one of its arrays carries it |
| Codegen.Builder.StartFunction | src/codegenvisitor.cpp:637-638 | a new function's only block is `entry`, and it is the insertion point |
| Codegen.Builder.Emit | src/codegenvisitor.cpp:647 | instructions go at the end of the insertion block; no other block changes |
| Codegen.Builder.CreateBlock | src/codegenvisitor.cpp:262 | a new empty block at the end of the function with a fresh label |
| Codegen.Builder.SetInsertPoint | src/codegenvisitor.cpp:272 | later instructions go to the given block |
| Codegen.Builder.InsertAtEntry | src/codegenvisitor.cpp:72-81 | instructions go in front of the entry block's others |
| Codegen.Builder.EmitBoundsCheck | src/codegenvisitor.cpp:372-395 | the size and data loads and the two tests form the bounds diamond; `fullypassbb` becomes the insertion point |
| Codegen.Builder.EmitCheckedAddr | src/codegenvisitor.cpp:372-397 | the element address is computed from the index only in `fullypassbb` |
| Codegen.Builder.EmitCheckedLoad | src/codegenvisitor.cpp:550-580 | the element is loaded only in `fullypassbb`, from the checked address |
| Codegen.Builder.StartLoop | src/codegenvisitor.cpp:293-300 | three new `loop.*` blocks, a branch to the header, and the header as the insertion point |
| Codegen.Builder.StartForLoop | src/codegenvisitor.cpp:313-342 | the loop setup, the header's test and the body's element load, in their blocks |
| Codegen.Builder.StartIf | src/codegenvisitor.cpp:261-272 | a conditional branch to `then` and to `else` or `ifcont`; `then` becomes the insertion point |
| Codegen.Builder.EmitArrayAlloca | src/codegenvisitor.cpp:234-237 | a `stacksave`, then the array record with its as-written fill, at the insertion point |
| Codegen.Builder.AllocaParams | src/codegenvisitor.cpp:641-649 | each argument's slot, named after the argument, with its as-written zero fill, in front of the entry block; its store at the insertion point; in order |
| Codegen.CodegenVisitor.UpdateToIntWidth | src/codegenvisitor.cpp:26-41 | no value for a non-integer; otherwise the coerced value, with the one `sext`/`trunc` it needs |
| Codegen.CodegenVisitor.VisitExpr | src/codegenvisitor.cpp:411-446 | literals become constants, numbers truncated to the `int` width; a null node crashes |
| Codegen.CodegenVisitor.VisitIdent | src/codegenvisitor.cpp:431-436 | a load from the variable's slot; it throws exactly when the name has no slot |
| Codegen.CodegenVisitor.VisitArrayExpr | src/codegenvisitor.cpp:550-580 | the element is read only in the block the bounds check passes to |
| Codegen.CodegenVisitor.VisitFnCall | src/codegenvisitor.cpp:582-596 | an unknown callee throws; otherwise a call of it whose operands are the values the arguments were lowered to, one per argument in order, typed as the callee returns |
| Codegen.CodegenVisitor.VisitTernary | src/codegenvisitor.cpp:448-454 | a `select` whose operands are the lowered condition, true and false operands, typed as the true operand |
| Codegen.CodegenVisitor.VisitBinop | src/codegenvisitor.cpp:456-514 | the operator's instruction over both operands; a non-binary operator throws |
| Codegen.CodegenVisitor.VisitUnary | src/codegenvisitor.cpp:516-531 | `not` or `neg` of the operand; any other operator throws |
| Codegen.CodegenVisitor.VisitSizeof | src/codegenvisitor.cpp:533-542 | a load of the size field; a non-identifier argument throws |
| Codegen.CodegenVisitor.VisitInput | src/codegenvisitor.cpp:544-548 | a call of `__l_input`, coerced to the `int` width |
| Codegen.CodegenVisitor.DrainArrayDecls | src/codegenvisitor.cpp:198-206 | pops exactly the block's own entries and restores the stack for each, newest first |
| Codegen.CodegenVisitor.VisitStmt | src/codegenvisitor.cpp:185-409 | every statement keeps the block stack and the module's functions, and pushes cleanups only for the innermost block |
| Codegen.CodegenVisitor.VisitStmts | src/codegenvisitor.cpp:189-195 | statements are lowered up to and including the first `return` |
| Codegen.CodegenVisitor.CloseBlock | src/codegenvisitor.cpp:197-215 | never fails: the stack is restored for the block's arrays, then after a `return` a `ret` of its value, or a `ret` without an operand when there is no value or only the null value of a non-integer |
| Codegen.CodegenVisitor.VisitBlock | src/codegenvisitor.cpp:185-216 | a block pops exactly the cleanups it pushed and leaves the enclosing state as it found it; after a `return` it ends in `ret void` exactly when the value is absent or not an integer, and otherwise returns the integer value |
| Codegen.CodegenVisitor.VisitVarDeclItem | src/codegenvisitor.cpp:218-226 | a slot with its as-written zero fill in front of the entry block, bound to the name, exactly when the type exists |
| Codegen.CodegenVisitor.VisitVarDecl | src/codegenvisitor.cpp:218-226 | the bound names become the old ones plus exactly the declared ones; nothing is emitted at the insertion point |
| Codegen.CodegenVisitor.VisitArrayDeclItem | src/codegenvisitor.cpp:231-239 | one `stacksave` entry pushed for the innermost block, then the array record with its as-written fill, bound to the array's name |
| Codegen.CodegenVisitor.VisitArrayDecl | src/codegenvisitor.cpp:228-240 | one cleanup entry per array, all for the innermost block; the bound names gain exactly the declared ones |
| Codegen.CodegenVisitor.VisitPrintArg | src/codegenvisitor.cpp:244-252 | a string goes to `__l_print_string`; any other value is brought to 64 bits for `__l_print_int` |
| Codegen.CodegenVisitor.VisitPrint | src/codegenvisitor.cpp:242-253 | one print call per argument, in argument order: a string literal's text to `__l_print_string`, any other value to `__l_print_int` |
| Codegen.CodegenVisitor.VisitReturn | src/codegenvisitor.cpp:353-359 | the returned value is brought to 64 bits; with no value a `ret void` is planned; a non-integer value leaves the null value, with its type |
| Codegen.CodegenVisitor.VisitAbort | src/codegenvisitor.cpp:361-365 | a call of `__l_abort` and `unreachable` terminate the insertion block |
| Codegen.CodegenVisitor.VisitArrayAssign | src/codegenvisitor.cpp:367-400 | the address is computed and the value stored only in the block the bounds check passes to |
| Codegen.CodegenVisitor.VisitVarAssign | src/codegenvisitor.cpp:402-409 | a store to the variable's slot; an unknown name throws |
| Codegen.CodegenVisitor.LowerBranch | src/codegenvisitor.cpp:272-276 | an arm always ends in a terminator: a branch to `ifcont` is added only when it has none |
| Codegen.CodegenVisitor.LowerElse | src/codegenvisitor.cpp:278-285 | the `else` block is appended and lowered as an arm |
| Codegen.CodegenVisitor.LowerIfHead | src/codegenvisitor.cpp:257-270 | the condition, then a branch to `then` and to `else` or `ifcont` |
| Codegen.CodegenVisitor.VisitIf | src/codegenvisitor.cpp:255-289 | the `if` diamond: both arms end by jumping to `ifcont` unless they already terminate, and `ifcont` is the insertion point |
| Codegen.CodegenVisitor.LowerTest | src/codegenvisitor.cpp:300-302 | a loop test ends in a branch to the body or past the loop |
| Codegen.CodegenVisitor.LowerLoopBody | src/codegenvisitor.cpp:304-306 | a loop body ends with the back edge to its header |
| Codegen.CodegenVisitor.VisitWhile | src/codegenvisitor.cpp:291-309 | header, body and after blocks: the header tests; the body jumps back; the after block is the insertion point |
| Codegen.CodegenVisitor.VisitFor | src/codegenvisitor.cpp:311-351 | a counted loop over the array; anything but two identifiers throws |
| Codegen.CodegenVisitor.FunctionSig | src/codegenvisitor.cpp:608-616 | the function type of `Codegen.SigOf`: a `void` parameter throws |
| Codegen.CodegenVisitor.DeclareFunctions | src/codegenvisitor.cpp:602-624 | the module's functions become those of `Codegen.Declare`; it fails exactly when that does |
| Codegen.CodegenVisitor.BindParams | src/codegenvisitor.cpp:641-649 | every argument gets a slot and its store, and `_NamedValues` binds the arguments' names to their slots |
| Codegen.CodegenVisitor.BindNames | src/codegenvisitor.cpp:648 | the argument names are bound in order, a later one of the same name winning |
| Codegen.CodegenVisitor.StartFunctionBody | src/codegenvisitor.cpp:637-649 | a fresh `entry` block holding the argument stores; the slots and bindings use the names LLVM gave the arguments |
| Codegen.CodegenVisitor.FinishFunction | src/codegenvisitor.cpp:655-657 | a `void` function always ends in a terminator; other functions are left as they are |
| Codegen.CodegenVisitor.LowerFunction | src/codegenvisitor.cpp:631-657 | one function lowered from its `entry` block; a missing body crashes |
| Codegen.CodegenVisitor.LowerFunctions | src/codegenvisitor.cpp:631-659 | every function is lowered, in order, each from its own definition |
| Codegen.CodegenVisitor.VisitProgram | src/codegenvisitor.cpp:598-665 | declaration failures and a missing `main` stop the lowering; otherwise every function is lowered from its own definition |
| Printer.Tabs | visitor.cpp:8-11 | `n` tab characters |
| Printer.Text | visitor.cpp:6-17 | a printed line is a tab per level, then the parts |
| Printer.ConcatAppend | visitor.cpp:12-15 | parts printed one after another give the joined text |
| Printer.ExprLinesAtLeast | visitor.cpp:165-274 | an expression prints its first line at its own depth and nothing shallower |
| Printer.ArgLinesAtLeast | visitor.cpp:261-274 | a call's argument sections are printed at the call's depth or deeper |
| Printer.OneSectionPerArgument | visitor.cpp:261-274 | a call prints exactly one `argexpr:` line at its depth per argument |
| Printer.StmtLinesAtLeast | visitor.cpp:19-163 | without else branches or `abort`, a statement prints nothing shallower than its depth |
| Printer.ElsePrintedShallower | visitor.cpp:66-86 | an `if` with an else prints as the `if` without it, then `falseE: ` at its depth, then the else branch one level shallower; without nested else branches or `abort`, only the else branch goes below the `if`'s depth |
| Printer.ReturnPrintsValueIffPresent | visitor.cpp:123-134 | `expr:` and the value are printed exactly when a value is returned |
| Printer.StmtsLinesAppend | visitor.cpp:19-27 | a block's statements print in list order, for any statements |
| Printer.ProgramLinesAppend | visitor.cpp:276-283 | functions print in declaration order, for any functions |
| Printer.ProgramLinesStep | visitor.cpp:276-283 | one more function adds its header and body after the earlier ones |
| Printer.CutAlive | visitor.cpp:6-17 | output that holds no null dereference is written whole; a cut output is free of one exactly when the whole is |
| Printer.CutAppend | visitor.cpp:165-283 | the output of two parts is the first part, then the second cut at its first null dereference; a first part that crashes is all that is written |
| Printer.RunAppend | visitor.cpp:165-283 | two visits one after the other write what one visit writing both parts in order writes |
| Printer.RunAlive | visitor.cpp:6-17 | on a live process, a visit with no null child appends all of its lines |
| Printer.ExprCrashes | visitor.cpp:165-274 | the process dies on an expression exactly when a child the visit dereferences is null |
| Printer.ArgCrashes | visitor.cpp:261-274 | a call's arguments print without a crash exactly when none holds a null child |
| Printer.ExprListCrashes | visitor.cpp:55-64 | the same for the arguments of `print` |
| Printer.ArrayDeclCrashes | visitor.cpp:41-53 | an `array` statement prints without a crash exactly when no size holds a null child |
| Printer.VarDeclNoCrash | visitor.cpp:29-39 | a `var` statement never crashes the printer |
| Printer.StmtCrashes | visitor.cpp:19-163 | the process dies on a statement exactly when a child the visit dereferences is null |
| Printer.ReturnCrashes | visitor.cpp:123-134 | a `return` crashes exactly when its value is present and holds a null child |
| Printer.StmtsCrashes | visitor.cpp:19-27 | a block prints without a crash exactly when none of its statements crashes |
| Printer.ParamLinesNoCrash | baseast.cpp:9-21 | the parameter lines of a header never crash |
| Printer.FnDefCrashes | visitor.cpp:276-283 | a function prints without a crash exactly when it has a body with no null child |
| Printer.ProgramCrashes | visitor.cpp:276-283 | a program prints whole exactly when every function has a body without a null child |
| Printer.PrintASTVisitor.PrintLine | visitor.cpp:6-17 | one line at the current depth, when the process is still alive |
| Printer.PrintASTVisitor.Crash | visitor.cpp:165-274 | `accept` on a null child: the process dies, and nothing is written after it |
| Printer.PrintASTVisitor.AcceptExpr | visitor.cpp:165-274 | writes, up to the first null child and nothing once the process has died, exactly the lines of the expression at the current depth |
| Printer.PrintASTVisitor.AcceptNested | visitor.cpp:165-274 | the same, one level deeper |
| Printer.PrintASTVisitor.LabelNested | visitor.cpp:41-53 | a heading line, then the expression one level deeper, up to the first null child |
| Printer.PrintASTVisitor.VisitArrayExpr | visitor.cpp:250-259 | writes, up to the first null child and nothing once the process has died, the lines of an array access |
| Printer.PrintASTVisitor.VisitFnCall | visitor.cpp:261-274 | writes, up to the first null child and nothing once the process has died, the lines of a call, an `argexpr:` section per argument |
| Printer.PrintASTVisitor.VisitFnArgs | visitor.cpp:269-272 | one `argexpr:` section per argument, in order |
| Printer.PrintASTVisitor.VisitTernary | visitor.cpp:190-207 | writes, up to the first null child and nothing once the process has died, the lines of a ternary |
| Printer.PrintASTVisitor.VisitBinop | visitor.cpp:209-223 | writes, up to the first null child and nothing once the process has died, the lines of a binary expression |
| Printer.PrintASTVisitor.VisitUnary | visitor.cpp:225-233 | writes, up to the first null child and nothing once the process has died, the lines of a unary expression |
| Printer.PrintASTVisitor.VisitSizeof | visitor.cpp:235-243 | writes, up to the first null child and nothing once the process has died, the lines of `sizeof` |
| Printer.PrintASTVisitor.AcceptStmt | visitor.cpp:19-163 | writes, up to the first null child and nothing once the process has died, exactly the lines of the statement at the current depth |
| Printer.PrintASTVisitor.LabelStmtAt | visitor.cpp:66-86 | a heading line, then the statement at a given depth, restoring the depth afterwards |
| Printer.PrintASTVisitor.VisitStmtBlock | visitor.cpp:19-27 | the statements one level deeper, in order, up to the first null child |
| Printer.PrintASTVisitor.VisitVarDecl | visitor.cpp:29-39 | the variables with their types' ordinals, one level deeper |
| Printer.PrintASTVisitor.VisitVarDeclItems | visitor.cpp:33-37 | the variables in order |
| Printer.PrintASTVisitor.VisitArrayDecl | visitor.cpp:41-53 | the arrays, each with its size one level deeper, up to the first null size |
| Printer.PrintASTVisitor.VisitArrayDeclItems | visitor.cpp:45-51 | the arrays in order |
| Printer.PrintASTVisitor.VisitPrint | visitor.cpp:55-64 | the arguments of `print` one level deeper, up to the first null child |
| Printer.PrintASTVisitor.VisitPrintArgs | visitor.cpp:59-62 | the arguments in order |
| Printer.PrintASTVisitor.VisitIf | visitor.cpp:66-86 | condition and then branch deeper; the else branch one level shallower; up to the first null child |
| Printer.PrintASTVisitor.VisitWhile | visitor.cpp:88-100 | writes, up to the first null child and nothing once the process has died, the lines of a `while` |
| Printer.PrintASTVisitor.VisitFor | visitor.cpp:103-121 | writes, up to the first null child and nothing once the process has died, the lines of a `for` |
| Printer.PrintASTVisitor.VisitReturn | visitor.cpp:123-134 | writes, up to the first null child and nothing once the process has died, the lines of a `return` |
| Printer.PrintASTVisitor.VisitArrayAssignment | visitor.cpp:136-152 | writes, up to the first null child and nothing once the process has died, the lines of an element assignment |
| Printer.PrintASTVisitor.VisitVarAssignment | visitor.cpp:154-163 | writes, up to the first null child and nothing once the process has died, the lines of an assignment |
| Printer.PrintASTVisitor.PrintFnHeader | baseast.cpp:9-21 | the header without indentation: name, type ordinal, and one line per parameter; nothing once the process has died |
| Printer.PrintASTVisitor.VisitFnDef | visitor.cpp:280-281 | one function's header, then its body; a missing body crashes |
| Printer.PrintASTVisitor.VisitProgramAST | visitor.cpp:276-283 | writes, up to the first null child and nothing once the process has died, the lines of every function, in order |

## Left out

- The lexer (lexer.l) and the typechecker are not part of this model. The lexer's last string `strval` is a constructor parameter of `Parsing.Parser`.
- `main` reads a file, parses command-line options, and starts the printer and the code generator. Only its two parser passes over a token vector are modelled (`Parsing.Parser.ParseProgram`).
- Parsing.Parser.ParseProgram2: the listing of collected headers it prints before parsing bodies is not modelled.
- Parsing.Parser.Match: matching End is excluded by its precondition. The one caller in the source, parser.cpp:226, is the Finding below.
- Parsing.Parser.ParseProgram1: when an exception ends pass 1, the contract says only that `fnDefinitions` kept its earlier entries. The driver stops on any exception.
- Basics.Atoi: C `atoi` on out-of-range text is undefined. The model gives the unbounded value, and the code generator then truncates it to the `int` width.
- The LLVM library is modelled as an abstract IR:
  - blocks are kept in creation order;
  - values are registers, constants, parameters and string globals;
  - `getTypeSizeInBits` follows a 64-bit data layout.
  The textual IR, `verifyFunction`/`verifyModule` (src/codegenvisitor.cpp:658-664) and the final "LLVM IR verification failed." exception are not modelled.
- Codegen.RuntimeFns: `declareRuntimeFns` is modelled by the signatures it declares, not by the LLVM calls that build them.
- Codegen.CodegenVisitor: the `int` width is read from the `width` option once, as a constructor parameter, instead of at every `CreateLLVMType`. `Ir.IntWidth` models how the option text becomes a width. The `Settings::get()` singleton is an explicit `Options.Settings` object.
- Codegen.CodegenVisitor.VisitExpr: a `true`, `false` or number literal is lowered to its constant, as the `TrueExpr`, `FalseExpr` and `NumExpr` visits do. As written, the parser's literals are plain `BaseExpr` nodes, whose visit sets no LLVM value. The model does not follow such a missing value into the instructions that use it.
- Codegen.CodegenVisitor.VisitProgram: the `main` linkage is modelled only as the null dereference when there is no `main`. Linkage itself is not modelled.
- Codegen.CodegenVisitor.VisitArrayExpr and Codegen.CodegenVisitor.VisitBinop: the contracts state the access or instruction emitted. Execution of the emitted IR is modelled only for the branch tests (`Ir.BranchTarget`).
- Options.Settings.GetOptionValue: `unordered_set` iteration order is unspecified. With several `key=...` settings, the contract says only that some one of their values is returned.
- Null pointers stand for the source's unchecked dereferences, for example `_NamedValues[name]` on a missing name. The code generator reports them as a crash (`Crashed`). The printer ends its output with a null-dereference line and writes nothing after it. Neither models what the dereference would do beyond stopping the process.
- Codegen.SetName: LLVM also makes instruction and block names unique within a function. Only argument names are modelled, because only they are looked up again (`_NamedValues[arg.getName()]`). Instruction and block labels are kept as written. The limit on name length is not modelled.
- Ir.Stoul: the C locale's white space and digits are assumed. `errno` handling beyond the out-of-range throw is not modelled.

## Findings

| source | as written | input that shows it | evidently intended | confidence | as-written member | corrected member |
|---|---|---|---|---|---|---|
| parser.cpp:226 | pass 1 ends its loop with `match(Token::End)`. `match` consumes the End sentinel through `getNextTok`, which reads `tokens[tokens.size()]` | any program: after the last body only line ends and End remain | stop on the End sentinel without consuming it | not executed | ParserSpec.MatchEndReadsPastSentinel | Parsing.Parser.ParseProgram1 |
| src/codegenvisitor.cpp:80 | the zero fill of a declared variable's slot is `bitsSize/8` bytes, which rounds down. Line 102 does the same for array buffers | a `bool` variable (`i1`): a fill of 0 bytes, so the slot is left uninitialised | fill every byte the value occupies, `(bitsSize + 7) / 8` | not executed | Codegen.AsWrittenFillMissesBits | Codegen.ZeroFillAgreesOnWholeBytes |
