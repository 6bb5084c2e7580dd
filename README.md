# moz_sql_parser: the SELECT grammar, modelled in Dafny

`moz_sql_parser/sql_parser.py` is a pyparsing grammar for SQL `SELECT`
statements. Its parse actions turn matched tokens into JSON-like
dictionaries. This project restates that grammar as a recursive-descent
parser over a `string`. Each production is a function of the position it
starts at, and it returns the node it built together with the position
after it. Alternatives are tried in the grammar's order and the first one
that matches wins; a repetition stops at the first item that does not
match. Each dictionary shape the actions build is one constructor of the
`Expr`, `Join` and `Select` datatypes, and `NodeKeys` / `JoinKeys` give back
the key set that dictionary would have. String literals and identifiers are
two constructors here (`Str` and `Id`), although the unquoted string of
`sqlString` and the name of `ident` are both a bare Python `str` in the
source's output, so the source does not tell `SELECT 'a'` from `SELECT a`.

The modules follow the parts of the source file:

- `syntax.dfy` (`Syntax`): the tree.
- `reserved.dfy` (`Reserved`): the `keywords`, `KNOWN_OPS` and `RESERVED`
  tables, the character classes, and how `Literal` and `Keyword` match.
  `in`, `and` and `or` are case-sensitive keywords; all other keywords are
  caseless.
- `tabs.dfy` (`Tabs`): the tab expansion applied to the whole input
  before parsing.
- `lexer.dfy` (`Lexer`): the lexical rules.
  - Whitespace, `--` and `#` comments are skipped before every token.
  - `realNum` is tried before `intNum`.
  - The quoted-token regular expression is matched by an exact backtracking
    search in the regex's own alternative order.
  - `unquote` first turns each doubled quote into a backslash-escaped quote,
    then decodes the literal.
  - A dotted identifier joins its segments with `.`.
- `actions.dfy` (`Actions`): the parse actions `to_json_operator`,
  `to_json_call`, `to_when_call`, `to_case_call` and `to_join_call`.
- `parser.dfy` (`Parser`): `compound`, the infix levels of `expr`, `case`,
  and the clause productions up to `selectStmt`.
- `properties.dfy` (`Properties`): lemmas that relate several productions:
  - identifiers versus reserved words;
  - literals as round trips of the quoting;
  - numbers, unary minus, groups, calls and CASE as primaries;
  - the binding order of the operators;
  - worked expressions.
- `statement_text.dfy` (`StatementText`): the text of a worked statement,
  character by character, with where its layout is skipped and where its
  keywords match.
- `statements.dfy` (`Statements`): lemmas about the clauses (a column, a
  table, a join, a sort column) and a whole statement with a FROM clause,
  a JOIN ... ON and an ORDER BY ... DESC, parsed to its tree.

This model follows the code where it says something stronger or different
from a plain reading of the grammar:

- Every `KNOWN_OPS` entry is a binary level of its own, left-associative,
  and earlier entries bind tighter. So `+` binds tighter than `-`, and
  `5 - 2 + 1` is `sub(5, add(2, 1))` (`Properties.SubAdd`).
- A parenthesised group is always a list node, even with one element.
- A nested `SELECT` is an alternative of `compound` as written, with no
  parentheses of its own.
- The unary-minus node is named `neg`.
- Unary `-` is tried before the numbers, so `-1` is `neg(1)`.
- Each clause after the column list is optional on its own. So `WHERE` may
  come without `FROM`.
- `parseString` expands tabs (`str.expandtabs`, tab stops every 8
  columns) before it parses. `Parse` does the same (`Tabs.ExpandTabs`). A
  line feed or carriage return starts column 0 again, as in Python. The
  tab-stop rule is stated by `Tabs.ExpandTabsSnoc` and `Tabs.TabStop`,
  and `Tabs.ExpandTabsInk` states that the other characters keep their
  order.
- `unquote` hands the body to `ast.literal_eval` between the original
  quotes. A body that closes the literal early and opens another one at
  once, as in `'\''''`, is read as two adjacent literals, which Python
  joins (`Properties.AdjacentLiterals`).
- Termination: every successful match consumes input. A production that
  calls another at the same position calls one of lower rank (the second
  component of each `decreases` clause).

## Model

| member | source | states |
|---|---|---|
| Reserved.UpperStr | moz_sql_parser/sql_parser.py:47 | upper-casing keeps the length and maps each character by itself, as the caseless comparison of a `Keyword` needs |
| Reserved.LowerStr | moz_sql_parser/sql_parser.py:68 | lower-casing keeps the length and maps each character by itself |
| Reserved.MinLevel | moz_sql_parser/sql_parser.py:26-42 | the first `KNOWN_OPS` index with the given name (the tightest level that builds such a node), or the table's length when no entry has it |
| Reserved.MaxLevel | moz_sql_parser/sql_parser.py:26-42 | the last `KNOWN_OPS` index with a given name, or -1 when no entry has it |
| Reserved.FirstNameSkips | moz_sql_parser/sql_parser.py:61 | entries with other operator texts do not change the first-match lookup of an operator's name |
| Reserved.KnownOpName | moz_sql_parser/sql_parser.py:26-42 | the lookup of each `KNOWN_OPS` operator text finds that entry's own name, because no operator text occurs twice |
| Lexer.LineEnd | moz_sql_parser/sql_parser.py:198-199 | `restOfLine` ends at the first line break, or at the end of the input |
| Lexer.Skip | moz_sql_parser/sql_parser.py:198-200 | skipping never moves backwards and stops at a position that is neither whitespace nor the start of a `--` or `#` comment |
| Lexer.SkipOnlyLayout | moz_sql_parser/sql_parser.py:198-200 | every character skipped is whitespace or lies in a comment that starts at or after the start position, and each comment met is skipped up to its line break |
| Lexer.SameLineEnd | moz_sql_parser/sql_parser.py:198-199 | every position of a line, up to its break, has the same line end |
| Lexer.DigitsEnd | moz_sql_parser/sql_parser.py:117 | `Word(nums)` covers exactly the maximal run of digits |
| Lexer.IdentCharsEnd | moz_sql_parser/sql_parser.py:133 | the body of `Word(alphas, alphanums + "_$")` is the maximal run of identifier characters |
| Lexer.AlphasEnd | moz_sql_parser/sql_parser.py:151 | `Word(alphas)` covers exactly the maximal run of letters |
| Lexer.ExponentEnd | moz_sql_parser/sql_parser.py:118 | the exponent is taken exactly when a complete one follows (`E` or `e`, an allowed sign, a digit); it then ends after the maximal run of digits |
| Lexer.SignEnd | moz_sql_parser/sql_parser.py:114 | the optional sign is taken exactly when `+` or `-` is next |
| Lexer.RealDot | moz_sql_parser/sql_parser.py:115-117 | the `.` of a real follows the optional sign and a run of digits |
| Lexer.ScanReal | moz_sql_parser/sql_parser.py:114-119 | a real matches exactly where an optional sign is followed by digits and `.`, or by `.` and a digit; it ends after the fraction digits and the complete exponent, if any; its text is that span upper-cased, and it holds a `.` |
| Lexer.ScanInt | moz_sql_parser/sql_parser.py:120-124 | an integer matches exactly where digits follow the optional sign; it ends after them and a complete exponent signed with `+` or unsigned; its text is that span upper-cased, and it has no `.` |
| Lexer.QuotedEnd | moz_sql_parser/sql_parser.py:127-128 | the regex match of a quoted token ends just after a closing quote character |
| Lexer.ScanQuoted | moz_sql_parser/sql_parser.py:127-128 | a quoted token starts and ends with its quote, and its value is `unquote` of the body between them |
| Lexer.Segment | moz_sql_parser/sql_parser.py:133 | an identifier segment, a word or a double-quoted name, consumes input |
| Lexer.DottedPath | moz_sql_parser/sql_parser.py:133 | a dotted path consumes input |
| Lexer.ScanIdent | moz_sql_parser/sql_parser.py:133 | an identifier other than `*` is accepted only where no reserved word or operator matches |
| Lexer.ReplaceDoubledQuotes | moz_sql_parser/sql_parser.py:101-105 | the replace step turns a body with doubled quotes into the text with each quote backslash-escaped |
| Lexer.DecodeEscapedQuotes | moz_sql_parser/sql_parser.py:108 | decoding the escaped text gives back the original value |
| Lexer.UnquoteDoubled | moz_sql_parser/sql_parser.py:99-109 | `unquote` of a body in which every quote of x is doubled is x |
| Lexer.QuotedEndDoubled | moz_sql_parser/sql_parser.py:127-128 | the regex match of a doubled body ends at the closing quote, when that quote is not followed by another one |
| Lexer.ScanQuotedDoubled | moz_sql_parser/sql_parser.py:99-109 | scanning quote, doubled body, quote yields x and stops right after the closing quote |
| Lexer.ReplaceDoubled | moz_sql_parser/sql_parser.py:101-105 | replacing each doubled quote by an escaped quote keeps the length |
| Lexer.ReplaceDoubledPlain | moz_sql_parser/sql_parser.py:101-105 | text without the quote character is left as it is |
| Lexer.Decode | moz_sql_parser/sql_parser.py:108 | a decoded value is never longer than its text |
| Lexer.DecodePlain | moz_sql_parser/sql_parser.py:108 | text without quotes, backslashes or line breaks decodes to itself |
| Lexer.Unquote | moz_sql_parser/sql_parser.py:99-109 | an unquoted value is never longer than the body |
| Lexer.UnquotePlain | moz_sql_parser/sql_parser.py:99-109 | a body without quotes, backslashes or line breaks is its own value |
| Tabs.Spaces | moz_sql_parser/sql_parser.py:195 | n spaces and nothing else |
| Tabs.ExpandTabs | moz_sql_parser/sql_parser.py:195 | no tab remains after expansion, and nothing gets shorter |
| Tabs.ExpandTabsNoTab | moz_sql_parser/sql_parser.py:195 | text without tabs is left as it is |
| Tabs.ExpandChar | moz_sql_parser/sql_parser.py:195 | a tab becomes one to eight spaces, and any other character stays itself |
| Tabs.NextColumn | moz_sql_parser/sql_parser.py:195 | after a tab the column is the next multiple of 8, after a line feed or carriage return it is 0, and after any other character it is one more |
| Tabs.EndColumnOnLine | moz_sql_parser/sql_parser.py:195 | on one line, the column after a text is the start column plus its length |
| Tabs.EndColumnAppend | moz_sql_parser/sql_parser.py:195 | the column after a + b is the column after b, started where a ends |
| Tabs.SpacesEndColumn | moz_sql_parser/sql_parser.py:195 | n spaces advance the column by n |
| Tabs.ExpandTabsAppend | moz_sql_parser/sql_parser.py:195 | expanding s + t is expanding s, then expanding t from the column where the expanded s ends |
| Tabs.ExpandCharEndColumn | moz_sql_parser/sql_parser.py:195 | the column after one expanded character is the one `NextColumn` gives |
| Tabs.ExpandTabsSnoc | moz_sql_parser/sql_parser.py:195 | read from the left, a tab becomes the spaces from the current column up to the next multiple of 8 and lands on a tab stop; any other character is kept as it is |
| Tabs.TabStop | moz_sql_parser/sql_parser.py:195 | text ending in a tab expands to a tab stop: a multiple of 8 columns, counted from the start column on a single line |
| Tabs.ExpandTabsNoBreak | moz_sql_parser/sql_parser.py:195 | expansion adds no line break to text without one |
| Tabs.Ink | moz_sql_parser/sql_parser.py:195 | the text with its spaces and tabs dropped holds neither and is no longer |
| Tabs.InkSpaces | moz_sql_parser/sql_parser.py:195 | spaces in front of a text drop out with the other blanks |
| Tabs.ExpandTabsInk | moz_sql_parser/sql_parser.py:195 | expansion keeps every character other than spaces and tabs, in order |
| Actions.ToJsonOperator | moz_sql_parser/sql_parser.py:58-62 | one key, the operator's `KNOWN_OPS` name; the operands are exactly the even-indexed tokens, in order; there are (n+1)/2 of them, so at least 2 for a chain of 3 or more tokens |
| Actions.ChainTokensAt | moz_sql_parser/sql_parser.py:154-164 | the tokens of an infix chain alternate operand and operator, and the operands appear in order |
| Actions.ChainOperator | moz_sql_parser/sql_parser.py:58-62 | `to_json_operator` on the tokens of a chain gives the named node over exactly the chain's operands |
| Actions.ToJsonCall | moz_sql_parser/sql_parser.py:65-74 | the name is lower-cased and is the only key; the params are absent exactly when there are none and a single node exactly when there is one; in every case they stand for the parsed list |
| Actions.ToWhenCall | moz_sql_parser/sql_parser.py:85-87 | the keys are `when` and `then`, and they hold the condition and the result |
| Actions.ToCaseCall | moz_sql_parser/sql_parser.py:76-82 | the single key `case`; the branches in order, then the else expression as the last element exactly when there is one |
| Actions.ToJoinCall | moz_sql_parser/sql_parser.py:90-96 | the join keyword keys the table; the `on` key is present exactly when an ON condition was parsed |
| Parser.Lit | moz_sql_parser/sql_parser.py:147 | a `Literal` succeeds exactly when its text follows the skipped whitespace |
| Parser.Kw | moz_sql_parser/sql_parser.py:47 | a caseless `Keyword` succeeds exactly when it matches at the next token, with the boundaries Keyword demands |
| Parser.OpTok | moz_sql_parser/sql_parser.py:50-53 | an operator terminal succeeds exactly when its `Literal` or case-sensitive `Keyword` matches at the next token |
| Parser.ParseIdent | moz_sql_parser/sql_parser.py:133 | an identifier other than `*` never starts where a reserved word or operator matches |
| Parser.ParseExpr | moz_sql_parser/sql_parser.py:154-165 | an expression consumes input; an operator node it returns is named by a `KNOWN_OPS` entry |
| Parser.ParseLevel | moz_sql_parser/sql_parser.py:154-164 | level k builds only nodes of the first k entries, and an operand that is an operator node binds strictly tighter than its parent |
| Parser.ChainExpr | moz_sql_parser/sql_parser.py:154-164 | a chain of level k becomes the node of entry k-1 over e0 and the rest, with the precedence property |
| Parser.ChainNode | moz_sql_parser/sql_parser.py:58-62 | the chain token list is well formed, and `to_json_operator` gives the entry's node with operands that bind tighter |
| Parser.ParseChain | moz_sql_parser/sql_parser.py:159-160 | the repeated operator-and-operand pairs of a left-associative level consume nothing when there are none, and every operand is of a tighter level |
| Parser.ChainFirst | moz_sql_parser/sql_parser.py:159-160 | a chain is empty exactly when the level's operator and an operand of the tighter level do not follow; otherwise that operand is the chain's first element |
| Parser.ParseCompound | moz_sql_parser/sql_parser.py:141-153 | a primary consumes input and is never an infix operator node |
| Parser.ParseNested | moz_sql_parser/sql_parser.py:142-147 | the first six alternatives give a call, a CASE, a nested SELECT or a list |
| Parser.ParseAtom | moz_sql_parser/sql_parser.py:148-152 | the last five alternatives give a real, an integer, a string, a call or an identifier |
| Parser.ParseNeg | moz_sql_parser/sql_parser.py:142 | unary minus parses exactly when `-` and an expression follow, and gives the `neg` call over that expression |
| Parser.ParsePrefix | moz_sql_parser/sql_parser.py:143-144 | `not` and `distinct` parse exactly when the keyword and an expression follow, and give the call named by the lower-cased keyword over that expression |
| Parser.ParseGroup | moz_sql_parser/sql_parser.py:147 | a parenthesised group is the list of the expressions parsed after `(`, at least one, and ends after the `)` that follows them |
| Parser.ParseCall | moz_sql_parser/sql_parser.py:151 | a function call is named by the lower-cased word at the next token, and its params stand for the argument list parsed after the `(` |
| Parser.ParseExprList | moz_sql_parser/sql_parser.py:147 | `delimitedList(expr)` parses exactly when an expression does, and it gives at least one expression, the first being the expression parsed at its start |
| Parser.ParseCase | moz_sql_parser/sql_parser.py:137 | CASE gives the case node of the branches parsed after it and the optional ELSE expression, and ends after END |
| Parser.ParseWhen | moz_sql_parser/sql_parser.py:137 | a branch parses exactly when WHEN, an expression, THEN and an expression follow, and it is the when/then node of the two expressions, ending after the second |
| Parser.ParseWhens | moz_sql_parser/sql_parser.py:137 | `ZeroOrMore` of the branches is empty, consuming nothing, exactly when no branch parses; otherwise its first element is the branch parsed at its start; every element is a when/then node |
| Parser.AfterAs | moz_sql_parser/sql_parser.py:168-175 | the optional AS is consumed exactly when it is the next keyword |
| Parser.ParseColumn | moz_sql_parser/sql_parser.py:168-171 | a column parses exactly when an expression or `*` does; after an expression, the alias is the identifier after the optional AS, present exactly when one parses there, and the column ends after it |
| Parser.ParseColumns | moz_sql_parser/sql_parser.py:184 | the column list is not empty |
| Parser.ParseTable | moz_sql_parser/sql_parser.py:174-175 | a table reference parses exactly when an identifier does; its name is that identifier, and its alias is the identifier after the optional AS, present exactly when one parses there |
| Parser.ParseTables | moz_sql_parser/sql_parser.py:186 | the table list is not empty |
| Parser.JoinKeyword | moz_sql_parser/sql_parser.py:177 | the join keyword matched is `cross join`, `inner join` or `join` |
| Parser.ParseJoin | moz_sql_parser/sql_parser.py:177 | a join parses exactly when a join keyword and a table follow; its op is that keyword, its table that table, and its condition is the expression after ON, present exactly when ON and an expression follow the table |
| Parser.ParseJoins | moz_sql_parser/sql_parser.py:186 | `ZeroOrMore(join)` is empty, consuming nothing, exactly when no join parses; otherwise its first element is the join parsed at the start, and every element is keyed by a join keyword |
| Parser.ParseSort | moz_sql_parser/sql_parser.py:179-180 | a sort column parses exactly when an expression does; its value is that expression, and it is descending exactly when DESC follows |
| Parser.ParseSorts | moz_sql_parser/sql_parser.py:190 | the sort list is not empty |
| Parser.ParseFrom | moz_sql_parser/sql_parser.py:186 | a FROM clause is present exactly when FROM and a table list follow; it is that table list and the joins after it, and ends where they end; when absent, nothing is consumed |
| Parser.ParseKeyedExpr | moz_sql_parser/sql_parser.py:187 | an optional keyword and expression is present exactly when both follow, and is then that expression, ending where it ends; when absent, nothing is consumed |
| Parser.ParseGroupBy | moz_sql_parser/sql_parser.py:188 | GROUP BY is present exactly when the keyword and a column list follow, and is then that list; when absent, nothing is consumed |
| Parser.ParseOrderBy | moz_sql_parser/sql_parser.py:190 | ORDER BY is present exactly when the keyword and a sort list follow, and is then that list; when absent, nothing is consumed |
| Parser.ParseSelect | moz_sql_parser/sql_parser.py:183-192 | a statement parses exactly when SELECT and a column list follow; its clauses are FROM, WHERE, GROUP BY, HAVING and ORDER BY, each parsed where the previous one ends, and the statement ends after the last |
| Parser.Parse | moz_sql_parser/sql_parser.py:195 | the statement parsed from the start of the input after `Tabs.ExpandTabs` (whose column rule is stated by the `Tabs` lemmas above); for input without tabs, the statement parsed from the input itself |
| Properties.NoKeywordAt | moz_sql_parser/sql_parser.py:47 | a keyword that starts with a letter cannot match at a non-letter |
| Properties.NotReservedAtQuote | moz_sql_parser/sql_parser.py:44-55 | no reserved word or operator matches at a double quote |
| Properties.KeywordIsNotIdent | moz_sql_parser/sql_parser.py:133 | where a keyword, in any letter case, starts the next token, no identifier parses |
| Properties.KeywordStartsWithLetter | moz_sql_parser/sql_parser.py:24 | every keyword starts with a letter |
| Properties.KeywordMatchIsLetter | moz_sql_parser/sql_parser.py:47 | a caseless keyword that starts with a letter matches only at a letter |
| Properties.KeywordFirstLetter | moz_sql_parser/sql_parser.py:47 | where a caseless keyword matches, the first character is its first letter in some case |
| Properties.OtherFirstLetter | moz_sql_parser/sql_parser.py:47 | a caseless keyword does not match where the first character differs from its first letter in every case |
| Properties.QuotedIdent | moz_sql_parser/sql_parser.py:128-133 | a double-quoted name is an identifier even when its text is reserved, and its value is the name with doubled quotes undone |
| Properties.QuotedPath | moz_sql_parser/sql_parser.py:133 | a quoted segment not followed by '.' is the whole dotted path |
| Properties.QuotedSegment | moz_sql_parser/sql_parser.py:128 | a double-quoted segment has the unquoted value |
| Properties.UnquotedSegment | moz_sql_parser/sql_parser.py:133 | a word segment is the input text itself |
| Properties.UnquotedPathVerbatim | moz_sql_parser/sql_parser.py:133 | a dotted path without quoted segments is its input text verbatim: the words joined with '.' |
| Properties.UnquoteIts | moz_sql_parser/sql_parser.py:99-109 | the string body `it''s` unquotes to `it's` |
| Properties.AdjacentLiterals | moz_sql_parser/sql_parser.py:99-109 | the token `'\''''` is scanned to its last quote and stands for one backslash, because the escaped body closes one literal and opens an adjacent one |
| Properties.NotNested | moz_sql_parser/sql_parser.py:141-153 | where the next token starts with none of '-', '(' or a letter, `compound` is decided by its last five alternatives |
| Properties.NoPrefixOperator | moz_sql_parser/sql_parser.py:142-144 | the prefix forms fail where neither '-' nor a letter follows |
| Properties.NoKeywordForm | moz_sql_parser/sql_parser.py:145-146 | CASE and SELECT fail where no letter follows |
| Properties.NestedFails | moz_sql_parser/sql_parser.py:141-147 | where the next token starts with none of `-`, `(` or a letter, every nested alternative of `compound` fails |
| Properties.UpperWithoutLower | moz_sql_parser/sql_parser.py:120-124 | upper-casing leaves text without lower-case letters, such as digits and `.`, unchanged |
| Properties.IntPrimary | moz_sql_parser/sql_parser.py:120-124 | an unsigned integer not followed by '.', 'e' or 'E' is the integer node of its digits |
| Properties.RealPrimary | moz_sql_parser/sql_parser.py:115-119 | an unsigned decimal with digits before its `.` and no exponent after its fraction is the real node of its text |
| Properties.RealScan | moz_sql_parser/sql_parser.py:115-119 | such a decimal scans to a real token of its own text, ending after the fraction digits |
| Properties.RealEnd | moz_sql_parser/sql_parser.py:115-119 | such a decimal scans to a real ending after the fraction digits |
| Properties.ExponentSigns | moz_sql_parser/sql_parser.py:114-124 | `2e+3` is one integer, `2e-3` is the integer 2 with no exponent, and `2.5e-3` is one real: only a real takes a `-` exponent |
| Properties.NegPrimary | moz_sql_parser/sql_parser.py:142 | `-` followed by an expression is the primary `neg` over that whole expression, tried before the numbers |
| Properties.GroupPrimary | moz_sql_parser/sql_parser.py:147 | a parenthesised expression list is the primary list node of those expressions, even for a single one |
| Properties.GroupIsNested | moz_sql_parser/sql_parser.py:141-147 | at `(` the nested alternatives come down to the group |
| Properties.CallPrimary | moz_sql_parser/sql_parser.py:151 | a word other than NOT, DISTINCT, CASE and SELECT, then a parenthesised argument list, is the primary call of the lower-cased word over those arguments |
| Properties.WordNotNested | moz_sql_parser/sql_parser.py:141-147 | a word other than NOT, DISTINCT, CASE and SELECT starts none of the nested alternatives |
| Properties.CallAtom | moz_sql_parser/sql_parser.py:148-152 | at a letter the atoms come down to the function call, whenever it matches |
| Properties.CasePrimary | moz_sql_parser/sql_parser.py:145 | where CASE ... END parses, it is the primary |
| Properties.CaseNested | moz_sql_parser/sql_parser.py:141-147 | where CASE ... END parses, it is the nested alternative chosen |
| Properties.CaseWord | moz_sql_parser/sql_parser.py:143-145 | where CASE matches, neither `-`, NOT nor DISTINCT does |
| Properties.StringPrimary | moz_sql_parser/sql_parser.py:127 | a single-quoted literal is the string node of its unquoted text |
| Properties.StringAtom | moz_sql_parser/sql_parser.py:148-150 | the atom at a single quote is that string literal |
| Properties.NoNumberAt | moz_sql_parser/sql_parser.py:114-124 | neither number starts with anything but a sign, a digit or '.' |
| Properties.EqualityNames | moz_sql_parser/sql_parser.py:31-34 | `=` and `==` both name `eq`; `!=` and `<>` both name `neq` |
| Properties.ProductOperands | moz_sql_parser/sql_parser.py:154-164 | the operands of a product are never operator nodes, since `*` binds tightest |
| Properties.SumOperands | moz_sql_parser/sql_parser.py:154-164 | an operand of a sum that is an operator node is a product or a quotient |
| Properties.ChainAtEnd | moz_sql_parser/sql_parser.py:159-160 | no operator chain continues at the end of the input |
| Properties.LevelsToEnd | moz_sql_parser/sql_parser.py:154-164 | an operand that reaches the end of the input is the whole of every looser level |
| Properties.OperandThrough | moz_sql_parser/sql_parser.py:154-164 | a primary followed by none of the first j operators is the whole of level j |
| Properties.LastOperator | moz_sql_parser/sql_parser.py:154-164 | two operands joined by the operator of entry k-1 and reaching the end give that entry's node, at every level from k on |
| Properties.IntOperand | moz_sql_parser/sql_parser.py:120-124 | an integer primary is the operand of the lowest level |
| Properties.ThreeInts | moz_sql_parser/sql_parser.py:120-124 | the three one-digit integers of `i op j op k` are the operands at positions 0, 4 and 8 |
| Properties.AddMult | moz_sql_parser/sql_parser.py:154-164 | `1 + 2 * 3` parses to add(1, mult(2, 3)) |
| Properties.AddMultOperators | moz_sql_parser/sql_parser.py:27-29 | in `1 + 2 * 3` only `*` follows the 2, and `+` is the first operator entry that follows the 1 |
| Properties.SubAdd | moz_sql_parser/sql_parser.py:154-164 | `5 - 2 + 1` parses to sub(5, add(2, 1)), because `+` is an earlier entry than `-` |
| Properties.SubAddOperators | moz_sql_parser/sql_parser.py:29-30 | in `5 - 2 + 1`, `+` is the first operator entry that follows the 2, and `-` the first that follows the 5 |
| Properties.DifferenceOfSum | moz_sql_parser/sql_parser.py:154-164 | with `-` after the first operand and `+` after the second, the sum is the right operand of the difference |
| Properties.Difference | moz_sql_parser/sql_parser.py:154-164 | an operand, `-`, and a tighter operand reaching the end give their difference |
| Properties.SumOperand | moz_sql_parser/sql_parser.py:154-164 | an operand, `+`, and an operand reaching the end give their sum, as the whole of the levels below `-` |
| Statements.OneLetterNotReserved | moz_sql_parser/sql_parser.py:44-55 | no keyword and no operator starts a one-letter word |
| Statements.NoOperatorAt | moz_sql_parser/sql_parser.py:50-53 | no operator matches where the next token starts with an upper-case letter or the input ends, since `in`, `and` and `or` are case-sensitive |
| Statements.LetterIdent | moz_sql_parser/sql_parser.py:133 | a one-letter word followed by whitespace is the identifier of that letter |
| Statements.LetterExpr | moz_sql_parser/sql_parser.py:154-165 | a one-letter word followed by an upper-case word is the whole expression: the identifier node of that letter |
| Statements.NoAliasBeforeKeyword | moz_sql_parser/sql_parser.py:168-175 | where a keyword other than AS starts the next token, no AS, no alias name and no comma follows |
| Statements.ColumnList | moz_sql_parser/sql_parser.py:184 | an expression with no alias and no comma after it is the whole column list: one unnamed column |
| Statements.TableList | moz_sql_parser/sql_parser.py:174-175 | a name with no alias and no comma after it is the table reference without alias, and the whole table list |
| Statements.JoinWithOn | moz_sql_parser/sql_parser.py:177 | a join keyword, a table, ON and an expression give the join of that keyword and table with that condition |
| Statements.SingleJoin | moz_sql_parser/sql_parser.py:186 | a join after which no join keyword follows is the whole of `ZeroOrMore(join)` |
| Statements.SortList | moz_sql_parser/sql_parser.py:179-180 | an expression followed by DESC and no comma is the whole sort list: one descending column |
| Statements.JoinStatement | moz_sql_parser/sql_parser.py:183-195 | `SELECT a FROM t JOIN u ON b ORDER BY c DESC` parses to the statement with column a, table t, the join of u on b, no WHERE, GROUP BY or HAVING, and c descending, ending at the end of the input |
| Statements.JoinStatementFrom | moz_sql_parser/sql_parser.py:186 | in that statement, FROM gives table t and the join of u on b, and ends before ORDER BY |
| Statements.JoinStatementTail | moz_sql_parser/sql_parser.py:187-190 | in that statement, no WHERE, GROUP BY or HAVING follows the FROM clause, and ORDER BY gives c descending up to the end |
| StatementText.UpperKeyword | moz_sql_parser/sql_parser.py:47 | a keyword written in upper case between spaces, or at an edge of the input, matches caselessly |
| StatementText.SkipSpace | moz_sql_parser/sql_parser.py:198-200 | one space before a letter is all that is skipped |

## Left out

- The pyparsing engine is not modelled: packrat memoisation, `setDebug` and `setName` tracing, error messages and reported offsets, and the naming and nesting mechanics of `ParseResults`. The `Group` around `expr` is treated as transparent.
- Numbers: the model keeps a number's matched text, as `Combine` joins it, with the exponent letter upper-cased. It does not compute the value that `ast.literal_eval` gives it, which under Python 2 is an int, a long or a float, with a leading zero meaning octal.
- Lexer.ScanInt, Lexer.ScanReal: a number that `ast.literal_eval` rejects makes the source raise from the parse action, and that exception ends the parse. Two cases do this: a leading `+`, because Python 2's `literal_eval` has no unary plus; and an integer with no exponent that starts with 0 and has an 8 or 9 among its digits, which is not a valid octal literal. The model returns the text of such a number as a number node.
- String escapes: only the simple backslash escapes of Python's literal syntax are decoded. Octal, `\x`, `\u` and `\N{...}` escapes keep their backslash in the model.
- A quoted token whose body `ast.literal_eval` rejects makes the source raise an exception from the parse action. The model treats that token as not matching.
- A carriage return inside a quoted token is kept as is. Python's treatment of line endings inside literals is not modelled.
- Case mapping is ASCII only: only 'A'-'Z' and 'a'-'z' change case.
- The `filter(...)[0]` lookup of an operator's name is modelled as a first-match lookup in the constant `KNOWN_OPS` table. The table setup with `locals()` becomes constant sequences.
- Reserved.OpName: carries no ensures of its own. What it computes is stated by `Reserved.KnownOpName` and `Reserved.FirstNameSkips`.
- `infixNotation` also accepts a parenthesised expression as its base operand. That branch is never reached here, because `compound` already matches any parenthesised group as a list.
- `setResultsValue("neg")` is read as naming the unary-minus node `neg`.
- Trailing input: `Parse` starts at the beginning and returns the position where the statement ends. Whether text after that is rejected is not modelled, because the source parses without requiring the end of the input.
- Parser.ParseJoins: the contract states the first join and what holds of every join, not that the rest of the list is the joins parsed after the first. `Statements.SingleJoin` states the whole list for a single join.
- Parser.ParseChain, Parser.ParseExprList, Parser.ParseWhens: they are stated up to their first element, not to the rest of the list being what is parsed after it. For ParseChain the first element is in `Parser.ChainFirst`; the other two state it themselves. The worked expressions (`Properties.LastOperator`, `Properties.DifferenceOfSum`, `Properties.SumOperand`) state whole chains.
- Parser.ParseColumns, Parser.ParseTables, Parser.ParseSorts: their contracts state that a list is not empty. Which items a one-item list holds is stated by `Statements.ColumnList`, `Statements.TableList` and `Statements.SortList`.
- Lexer.Decode: a closed literal is joined only with a literal of the same quote that follows at once. Whitespace between literals, the other quote, string prefixes and triple quotes count as malformed.
- Lexer.ReplaceDoubled, Lexer.Decode, Lexer.Unquote: their own contracts state only the length bound. Text that maps to itself is stated by `Lexer.ReplaceDoubledPlain`, `Lexer.DecodePlain` and `Lexer.UnquotePlain`. Turning doubled quotes into their value is stated by `Lexer.ReplaceDoubledQuotes`, `Lexer.DecodeEscapedQuotes` and `Lexer.UnquoteDoubled`.
- Statements: the worked statement is one statement shape. It has one-letter names, upper-case keywords and single spaces, and the lemmas about it do not generalise beyond that shape.
