/**
  Properties of the parser as a whole: identifiers against reserved words,
  quoted names and literals as round trips of the unquoting, and the
  binding order of the operators, with two worked expressions.
 */
module Properties {
  import opened Syntax
  import opened Reserved
  import opened Lexer
  import opened Actions
  import opened Parser

  // ---------------------------------------------------------------------
  // Identifiers.

  /** A caseless keyword cannot match where the input starts with a character that is not a letter. */
  lemma NoKeywordAt(s: string, q: nat, k: string)
    requires q < |s| && !IsAlpha(s[q])
    requires k != [] && IsAlpha(k[0])
    ensures !KeywordAt(s, q, k, true)
  {
  }

  /** No reserved word or operator starts with a double quote. */
  lemma NotReservedAtQuote(s: string, q: nat)
    requires q < |s| && s[q] == '"'
    ensures !ReservedAt(s, q)
  {
    forall i | 0 <= i < |Keywords| ensures !KeywordAt(s, q, Keywords[i], true) {
      NoKeywordAt(s, q, Keywords[i]);
    }
    forall i | 0 <= i < |KnownOps| ensures !OpAt(s, q, KnownOps[i]) {
    }
  }

  /** Where a keyword (in any letter case) starts the next token, there is no identifier. */
  lemma KeywordIsNotIdent(s: string, pos: nat, i: nat)
    requires pos <= |s| && i < |Keywords|
    requires KeywordAt(s, Skip(s, pos), Keywords[i], true)
    ensures ParseIdent(s, pos).Fail?
  {
    var q := Skip(s, pos);
    KeywordStartsWithLetter(i);
    KeywordMatchIsLetter(s, q, Keywords[i]);
    assert !LiteralAt(s, q, "*");
    assert ReservedAt(s, q);
  }

  lemma KeywordStartsWithLetter(i: nat)
    requires i < |Keywords|
    ensures Keywords[i] != [] && IsAlpha(Keywords[i][0])
  {
  }

  /** A caseless keyword matches only where the input starts with its first letter, in either case. */
  lemma KeywordFirstLetter(s: string, q: nat, k: string)
    requires k != [] && KeywordAt(s, q, k, true)
    ensures q < |s| && ToUpper(s[q]) == ToUpper(k[0])
  {
    assert UpperStr(s[q..q + |k|])[0] == UpperStr(k)[0];
  }

  lemma OtherFirstLetter(s: string, q: nat, k: string)
    requires q < |s| && k != [] && ToUpper(s[q]) != ToUpper(k[0])
    ensures !KeywordAt(s, q, k, true)
  {
    if q + |k| <= |s| {
      assert UpperStr(s[q..q + |k|])[0] == ToUpper(s[q]);
    }
  }

  /** A caseless keyword that starts with a letter matches only where the input has a letter. */
  lemma KeywordMatchIsLetter(s: string, q: nat, k: string)
    requires k != [] && IsAlpha(k[0]) && KeywordAt(s, q, k, true)
    ensures q < |s| && IsAlpha(s[q])
  {
    assert UpperStr(s[q..q + |k|])[0] == UpperStr(k)[0];
  }

  /** The body of a quoted token whose value is x, between the quotes q, starts at p + 1. */
  predicate QuotedAt(s: string, p: nat, x: string, q: char)
  {
    var d := DoubleQuotes(x, q);
    && p + |d| + 1 < |s|
    && s[p] == q
    && s[p + 1..p + 1 + |d|] == d
    && s[p + 1 + |d|] == q
    && (p + |d| + 2 == |s| || s[p + |d| + 2] != q)
  }

  /**
    A double-quoted name is an identifier even when its text is a reserved
    word: its value is the name with the doubled quotes undone.
   */
  lemma QuotedIdent(s: string, pos: nat, x: string)
    requires pos <= |s| && Plain(x)
    requires QuotedAt(s, Skip(s, pos), x, '"')
    requires Skip(s, pos) + |DoubleQuotes(x, '"')| + 2 == |s| || s[Skip(s, pos) + |DoubleQuotes(x, '"')| + 2] != '.'
    ensures ParseIdent(s, pos) == Ok(x, Skip(s, pos) + |DoubleQuotes(x, '"')| + 2)
  {
    var q := Skip(s, pos);
    NotReservedAtQuote(s, q);
    assert !LiteralAt(s, q, "*");
    assert ScanIdent(s, q) == DottedPath(s, q);
    QuotedPath(s, q, x);
  }

  /** A quoted segment not followed by '.' is the whole dotted path. */
  lemma QuotedPath(s: string, q: nat, x: string)
    requires Plain(x) && QuotedAt(s, q, x, '"')
    requires q + |DoubleQuotes(x, '"')| + 2 == |s| || s[q + |DoubleQuotes(x, '"')| + 2] != '.'
    ensures DottedPath(s, q) == Some(Token(x, q + |DoubleQuotes(x, '"')| + 2))
  {
    var e := q + |DoubleQuotes(x, '"')| + 2;
    QuotedSegment(s, q, x);
    assert Segment(s, q) == Some(Token(x, e));
    assert !(e < |s| && s[e] == '.');
  }

  lemma QuotedSegment(s: string, q: nat, x: string)
    requires Plain(x) && QuotedAt(s, q, x, '"')
    ensures Segment(s, q) == Some(Token(x, q + |DoubleQuotes(x, '"')| + 2))
  {
    ScanQuotedDoubled(s, q, x, '"');
  }

  lemma UnquotedSegment(s: string, i: nat)
    requires i < |s| && s[i] != '"' && Segment(s, i).Some?
    ensures Segment(s, i).value.text == s[i..Segment(s, i).value.end]
  {
    assert ScanQuoted(s, i, '"').None?;
  }

  /** A dotted path with no quoted segment keeps its text verbatim: the words joined by '.'. */
  lemma {:induction false} UnquotedPathVerbatim(s: string, i: nat)
    requires i <= |s| && DottedPath(s, i).Some?
    requires forall k :: i <= k < DottedPath(s, i).value.end ==> s[k] != '"'
    ensures DottedPath(s, i).value.text == s[i..DottedPath(s, i).value.end]
    decreases |s| - i
  {
    var r := DottedPath(s, i).value;
    var t := Segment(s, i).value;
    assert i < |s| && s[i] != '"';
    UnquotedSegment(s, i);
    if t.end < |s| && s[t.end] == '.' && DottedPath(s, t.end + 1).Some? {
      var u := DottedPath(s, t.end + 1).value;
      assert r == Token(t.text + "." + u.text, u.end);
      UnquotedPathVerbatim(s, t.end + 1);
      assert s[i..u.end] == s[i..t.end] + "." + s[t.end + 1..u.end];
    } else {
      assert r == t;
    }
  }

  /**
    Unquoting joins adjacent literals: the token '\'''' is scanned to its
    last quote, and its body stands for one backslash.
   */
  lemma AdjacentLiterals(s: string)
    requires s == "'\\''''"
    ensures ScanQuoted(s, 0, '\'') == Some(Token("\\", 6))
  {
    AdjacentEnd(s);
    var body := "\\'''";
    assert s == "'" + body + "'";
    assert s[1..5] == body;
    AdjacentBody();
    ScanQuotedEnd(s, 0, '\'', 6, "\\");
  }

  lemma AdjacentEnd(s: string)
    requires s == "'\\''''"
    ensures QuotedEnd(s, 1, '\'') == Some(6)
  {
    assert QuotedEnd(s, 5, '\'') == Some(6);
    assert QuotedEnd(s, 3, '\'') == Some(6);
  }

  lemma AdjacentBody()
    ensures Unquote("\\'''", '\'') == Some("\\")
  {
    assert ReplaceDoubled("'", '\'') == "'";
    assert ReplaceDoubled("'''", '\'') == "\\''";
    assert ReplaceDoubled("\\'''", '\'') == "\\\\''";
    assert "\\\\''"[2..] == "''";
    assert Decode("''", '\'') == Some("");
    assert EscapeChar('\\') + "" == "\\";
  }

  /** `'it''s'`: the doubled quote of the body stands for one quote. */
  lemma UnquoteIts()
    ensures Unquote("it''s", '\'') == Some("it's")
  {
    assert DoubleQuotes("it's", '\'') == "it''s";
    UnquoteDoubled("it's", '\'');
  }

  // ---------------------------------------------------------------------
  // Literals.

  /** Where the next token starts with neither '-', '(' nor a letter, `compound` is one of its last five alternatives. */
  lemma NotNested(s: string, pos: nat)
    requires pos <= |s|
    requires Skip(s, pos) < |s| && s[Skip(s, pos)] !in "-(" && !IsAlpha(s[Skip(s, pos)])
    ensures ParseCompound(s, pos) == ParseAtom(s, pos)
  {
    NestedFails(s, pos);
  }

  lemma NestedFails(s: string, pos: nat)
    requires pos <= |s|
    requires Skip(s, pos) < |s| && s[Skip(s, pos)] !in "-(" && !IsAlpha(s[Skip(s, pos)])
    ensures ParseNested(s, pos).Fail?
  {
    NoPrefixOperator(s, pos);
    NoKeywordForm(s, pos);
    assert !LiteralAt(s, Skip(s, pos), "(");
  }

  lemma NoPrefixOperator(s: string, pos: nat)
    requires pos <= |s|
    requires Skip(s, pos) < |s| && s[Skip(s, pos)] != '-' && !IsAlpha(s[Skip(s, pos)])
    ensures ParseNeg(s, pos).Fail?
    ensures ParsePrefix(s, pos, "not").Fail? && ParsePrefix(s, pos, "distinct").Fail?
  {
    NoKeywordAt(s, Skip(s, pos), "not");
    NoKeywordAt(s, Skip(s, pos), "distinct");
  }

  lemma NoKeywordForm(s: string, pos: nat)
    requires pos <= |s|
    requires Skip(s, pos) < |s| && !IsAlpha(s[Skip(s, pos)])
    ensures ParseCase(s, pos).Fail? && ParseSelect(s, pos).Fail?
  {
    NoKeywordAt(s, Skip(s, pos), "case");
    NoKeywordAt(s, Skip(s, pos), "select");
  }

  /** Text without lower-case letters, such as the digits and '.' of a number, is its own upper case. */
  lemma UpperWithoutLower(s: string, q: nat, m: nat)
    requires q <= m <= |s|
    requires forall k :: q <= k < m ==> !IsLower(s[k])
    ensures UpperStr(s[q..m]) == s[q..m]
  {
    var t := s[q..m];
    forall k | 0 <= k < |t| ensures !IsLower(t[k]) {
      assert t[k] == s[q + k];
    }
    assert UpperStr(t) == t;
  }

  /** An unsigned integer not followed by '.', 'e' or 'E' is a primary: the int node of its digits. */
  lemma IntPrimary(s: string, pos: nat)
    requires pos <= |s|
    requires Skip(s, pos) < |s| && IsDigit(s[Skip(s, pos)])
    requires DigitsEnd(s, Skip(s, pos)) == |s| || s[DigitsEnd(s, Skip(s, pos))] !in ".eE"
    ensures ParseCompound(s, pos) == Ok(IntLit(s[Skip(s, pos)..DigitsEnd(s, Skip(s, pos))]), DigitsEnd(s, Skip(s, pos)))
  {
    var q := Skip(s, pos);
    var d := DigitsEnd(s, q);
    NotNested(s, pos);
    assert ScanReal(s, q).None?;
    UpperWithoutLower(s, q, d);
    assert ScanInt(s, q) == Some(Token(s[q..d], d));
  }

  /**
    An unsigned decimal with digits before its '.' and no exponent letter
    after its fraction is a primary: the real node of its text.
   */
  lemma RealPrimary(s: string, pos: nat, q: nat, d: nat, m: nat)
    requires pos <= |s| && q == Skip(s, pos) && q < |s| && IsDigit(s[q])
    requires d == DigitsEnd(s, q) && d < |s| && s[d] == '.'
    requires m == DigitsEnd(s, d + 1) && (m == |s| || s[m] !in "eE")
    ensures ParseCompound(s, pos) == Ok(RealLit(s[q..m]), m)
  {
    NotNested(s, pos);
    RealScan(s, q, d, m);
  }

  lemma RealScan(s: string, q: nat, d: nat, m: nat)
    requires q < |s| && IsDigit(s[q])
    requires d == DigitsEnd(s, q) && d < |s| && s[d] == '.'
    requires m == DigitsEnd(s, d + 1) && (m == |s| || s[m] !in "eE")
    ensures ScanReal(s, q) == Some(Token(s[q..m], m))
  {
    RealEnd(s, q, d, m);
    assert forall k :: q <= k < m ==> IsDigit(s[k]) || k == d;
    UpperWithoutLower(s, q, m);
  }

  lemma RealEnd(s: string, q: nat, d: nat, m: nat)
    requires q < |s| && IsDigit(s[q])
    requires d == DigitsEnd(s, q) && d < |s| && s[d] == '.'
    requires m == DigitsEnd(s, d + 1) && (m == |s| || s[m] !in "eE")
    ensures ScanReal(s, q).Some? && ScanReal(s, q).value.end == m
  {
    assert SignEnd(s, q) == q;
    assert RealAt(s, q);
    assert RealDot(s, q) == d;
  }

  /**
    An exponent may be signed with '+' in both numbers, with '-' only in a
    real: 2e-3 is the integer 2 followed by more text, 2.5e-3 one real.
   */
  lemma ExponentSigns(s: string, t: string, u: string)
    requires s == "2e+3" && t == "2e-3" && u == "2.5e-3"
    ensures ScanInt(s, 0) == Some(Token("2E+3", 4))
    ensures ScanReal(t, 0).None? && ScanInt(t, 0) == Some(Token("2", 1))
    ensures ScanReal(u, 0) == Some(Token("2.5E-3", 6))
  {
    assert DigitsEnd(s, 0) == 1 && DigitsEnd(s, 3) == 4;
    assert ExponentEnd(s, 1, false) == 4;
    assert UpperStr(s[0..4]) == "2E+3";
    assert DigitsEnd(t, 0) == 1 && DigitsEnd(t, 2) == 2;
    assert ExponentEnd(t, 1, false) == 1;
    assert UpperStr(t[0..1]) == "2";
    assert DigitsEnd(u, 0) == 1 && DigitsEnd(u, 2) == 3 && DigitsEnd(u, 5) == 6;
    assert RealAt(u, 0) && RealDot(u, 0) == 1;
    assert ExponentEnd(u, 3, true) == 6;
    assert UpperStr(u[0..6]) == "2.5E-3";
  }

  /**
    '-' followed by an expression is a primary: the call node "neg" over
    that whole expression. It is tried before the numbers, so -1 is neg(1).
   */
  lemma NegPrimary(s: string, pos: nat, q: nat)
    requires pos <= |s| && q == Skip(s, pos) && q < |s| && s[q] == '-'
    requires ParseExpr(s, q + 1).Ok?
    ensures ParseCompound(s, pos) == Ok(Call("neg", One(ParseExpr(s, q + 1).val)), ParseExpr(s, q + 1).pos)
  {
    assert LiteralAt(s, q, "-");
    assert Lit(s, pos, "-") == Some(q + 1);
    assert ParseNeg(s, pos).Ok?;
    assert ParseNested(s, pos) == ParseNeg(s, pos);
  }

  /** A parenthesised list of expressions is a primary: the list node, even around a single expression. */
  lemma GroupPrimary(s: string, pos: nat, q: nat, items: seq<Expr>, p2: nat, p3: nat)
    requires pos <= |s| && q == Skip(s, pos) && q < |s| && s[q] == '('
    requires ParseExprList(s, q + 1) == Ok(items, p2) && Lit(s, p2, ")") == Some(p3)
    ensures ParseCompound(s, pos) == Ok(List(items), p3)
  {
    GroupIsNested(s, pos);
    assert LiteralAt(s, q, "(");
    assert Lit(s, pos, "(") == Some(q + 1);
    assert ParseGroup(s, pos) == Ok(List(items), p3);
  }

  /** Where a '(' starts the next token, the nested alternatives come down to the parenthesised list. */
  lemma GroupIsNested(s: string, pos: nat)
    requires pos <= |s| && Skip(s, pos) < |s| && s[Skip(s, pos)] == '('
    ensures ParseNested(s, pos) == ParseGroup(s, pos)
  {
    NoPrefixOperator(s, pos);
    NoKeywordForm(s, pos);
  }

  /**
    A word that is none of NOT, DISTINCT, CASE and SELECT, followed by a
    parenthesised argument list, is a primary: the call node of the
    lower-cased word over those arguments.
   */
  lemma CallPrimary(s: string, pos: nat, q: nat, e: nat, p1: nat, args: seq<Expr>, p2: nat, p3: nat)
    requires pos <= |s| && q == Skip(s, pos) && q < |s| && IsAlpha(s[q])
    requires !KeywordAt(s, q, "not", true) && !KeywordAt(s, q, "distinct", true)
    requires !KeywordAt(s, q, "case", true) && !KeywordAt(s, q, "select", true)
    requires e == AlphasEnd(s, q) && Lit(s, e, "(") == Some(p1)
    requires ParseExprList(s, p1) == Ok(args, p2) && Lit(s, p2, ")") == Some(p3)
    ensures ParseCompound(s, pos) == Ok(ToJsonCall(s[q..e], args), p3)
  {
    WordNotNested(s, pos, q);
    CallAtom(s, pos, q);
  }

  /** A word that is none of NOT, DISTINCT, CASE and SELECT starts none of the nested alternatives. */
  lemma WordNotNested(s: string, pos: nat, q: nat)
    requires pos <= |s| && q == Skip(s, pos) && q < |s| && IsAlpha(s[q])
    requires !KeywordAt(s, q, "not", true) && !KeywordAt(s, q, "distinct", true)
    requires !KeywordAt(s, q, "case", true) && !KeywordAt(s, q, "select", true)
    ensures ParseNested(s, pos).Fail?
  {
    assert !LiteralAt(s, q, "-") && !LiteralAt(s, q, "(");
  }

  /** At a letter, the atoms come down to the function call, when it matches. */
  lemma CallAtom(s: string, pos: nat, q: nat)
    requires pos <= |s| && q == Skip(s, pos) && q < |s| && IsAlpha(s[q])
    requires ParseCall(s, pos).Ok?
    ensures ParseAtom(s, pos) == ParseCall(s, pos)
  {
    NoNumberAt(s, q);
  }

  /** CASE starts a primary: whenever the CASE form matches, it is the primary. */
  lemma CasePrimary(s: string, pos: nat)
    requires pos <= |s| && ParseCase(s, pos).Ok?
    ensures ParseCompound(s, pos) == ParseCase(s, pos)
  {
    CaseNested(s, pos);
  }

  lemma CaseNested(s: string, pos: nat)
    requires pos <= |s| && ParseCase(s, pos).Ok?
    ensures ParseNested(s, pos) == ParseCase(s, pos)
  {
    CaseWord(s, Skip(s, pos));
    assert ParseNeg(s, pos).Fail?;
    assert ParsePrefix(s, pos, "not").Fail?;
    assert ParsePrefix(s, pos, "distinct").Fail?;
  }

  /** Where CASE matches, neither '-', NOT nor DISTINCT does. */
  lemma CaseWord(s: string, q: nat)
    requires KeywordAt(s, q, "case", true)
    ensures q < |s| && !LiteralAt(s, q, "-")
    ensures !KeywordAt(s, q, "not", true) && !KeywordAt(s, q, "distinct", true)
  {
    KeywordFirstLetter(s, q, "case");
    OtherFirstLetter(s, q, "not");
    OtherFirstLetter(s, q, "distinct");
  }

  /** A single-quoted literal is a primary: the string node of its unquoted text. */
  lemma StringPrimary(s: string, pos: nat, x: string)
    requires pos <= |s| && Plain(x)
    requires QuotedAt(s, Skip(s, pos), x, '\'')
    ensures ParseCompound(s, pos) == Ok(Str(x), Skip(s, pos) + |DoubleQuotes(x, '\'')| + 2)
  {
    NotNested(s, pos);
    StringAtom(s, pos, x);
  }

  lemma StringAtom(s: string, pos: nat, x: string)
    requires pos <= |s| && Plain(x)
    requires QuotedAt(s, Skip(s, pos), x, '\'')
    ensures ParseAtom(s, pos) == Ok(Str(x), Skip(s, pos) + |DoubleQuotes(x, '\'')| + 2)
  {
    var q := Skip(s, pos);
    NoNumberAt(s, q);
    ScanQuotedDoubled(s, q, x, '\'');
  }

  /** Neither number starts with a character other than a sign, a digit or '.'. */
  lemma NoNumberAt(s: string, q: nat)
    requires q < |s| && !IsDigit(s[q]) && !IsSign(s[q]) && s[q] != '.'
    ensures ScanReal(s, q).None? && ScanInt(s, q).None?
  {
    assert DigitsEnd(s, q) == q;
  }

  // ---------------------------------------------------------------------
  // Binding order.

  /** `=` and `==` both build "eq" nodes, `!=` and `<>` both build "neq" nodes. */
  lemma EqualityNames()
    ensures OpName("=") == OpName("==") == Some("eq")
    ensures OpName("!=") == OpName("<>") == Some("neq")
  {
    KnownOpName(4);
    KnownOpName(5);
    KnownOpName(6);
    KnownOpName(7);
  }

  /** The operands of a product are never operator nodes: `*` binds tightest. */
  lemma ProductOperands(s: string, pos: nat)
    requires pos <= |s|
    requires ParseExpr(s, pos).Ok? && ParseExpr(s, pos).val.Op? && ParseExpr(s, pos).val.name == "mult"
    ensures forall a :: a in ParseExpr(s, pos).val.args ==> !a.Op?
  {
    assert MaxLevel("mult") == 0;
  }

  /** An operand of a sum that is an operator node is a product or a quotient. */
  lemma SumOperands(s: string, pos: nat)
    requires pos <= |s|
    requires ParseExpr(s, pos).Ok? && ParseExpr(s, pos).val.Op? && ParseExpr(s, pos).val.name == "add"
    ensures forall a :: a in ParseExpr(s, pos).val.args && a.Op? ==> a.name == "mult" || a.name == "div"
  {
    assert MaxLevel("add") == 2;
    forall a | a in ParseExpr(s, pos).val.args && a.Op? ensures a.name == "mult" || a.name == "div" {
      var m := MinLevel(a.name);
      assert m < 2 && KnownOps[m].name == a.name;
      assert m == 0 || m == 1;
    }
  }

  /** No operator matches at the end of the input. */
  lemma ChainAtEnd(s: string, k: nat)
    requires 0 < k <= |KnownOps|
    ensures ParseChain(s, |s|, k).0 == [] && ParseChain(s, |s|, k).1 == |s|
  {
  }

  /** One more operator and operand of level k, then the rest of the chain. */
  lemma ChainStep(s: string, p: nat, k: nat, p1: nat, e: Expr, p2: nat, rest: seq<Expr>, p3: nat)
    requires p <= |s| && 0 < k <= |KnownOps|
    requires OpTok(s, p, KnownOps[k - 1]) == Some(p1)
    requires ParseLevel(s, p1, k - 1) == Ok(e, p2)
    requires ParseChain(s, p2, k).0 == rest && ParseChain(s, p2, k).1 == p3
    ensures ParseChain(s, p, k).0 == [e] + rest && ParseChain(s, p, k).1 == p3
  {
  }

  /** A chain stops where its operator does not follow. */
  lemma ChainStop(s: string, p: nat, k: nat)
    requires p <= |s| && 0 < k <= |KnownOps|
    requires OpTok(s, p, KnownOps[k - 1]).None?
    ensures ParseChain(s, p, k).0 == [] && ParseChain(s, p, k).1 == p
  {
  }

  /** Level k over its first operand and the chain after it. */
  lemma LevelStep(s: string, p: nat, k: nat, e0: Expr, p1: nat, rest: seq<Expr>, p2: nat)
    requires p <= |s| && 0 < k <= |KnownOps|
    requires ParseLevel(s, p, k - 1) == Ok(e0, p1)
    requires ParseChain(s, p1, k).0 == rest && ParseChain(s, p1, k).1 == p2
    ensures ParseLevel(s, p, k) == if rest == [] then Ok(e0, p1) else Ok(Op(KnownOps[k - 1].name, [e0] + rest), p2)
  {
  }

  /** An operand that reaches the end of the input is the whole of every looser level. */
  lemma {:induction false} LevelsToEnd(s: string, p: nat, j: nat, k: nat, e: Expr)
    requires p <= |s| && j <= k <= |KnownOps|
    requires ParseLevel(s, p, j) == Ok(e, |s|)
    ensures ParseLevel(s, p, k) == Ok(e, |s|)
    decreases k - j
  {
    if k > j {
      LevelsToEnd(s, p, j, k - 1, e);
      ChainAtEnd(s, k);
      LevelStep(s, p, k, e, |s|, [], |s|);
    }
  }

  /** A primary followed by none of the first j operators is the whole of level j. */
  lemma {:induction false} OperandThrough(s: string, p: nat, e: Expr, p1: nat, j: nat)
    requires p <= |s| && p1 <= |s| && j <= |KnownOps|
    requires ParseLevel(s, p, 0) == Ok(e, p1)
    requires forall i :: 0 <= i < j ==> OpTok(s, p1, KnownOps[i]).None?
    ensures ParseLevel(s, p, j) == Ok(e, p1)
    decreases j
  {
    if j > 0 {
      OperandThrough(s, p, e, p1, j - 1);
      ChainStop(s, p1, j);
      LevelStep(s, p, j, e, p1, [], p1);
    }
  }

  /**
    e0, the operator of entry k - 1, and e1 reaching the end of the input:
    the two-operand node of that entry, and so the whole of every level from k on.
   */
  lemma LastOperator(s: string, p: nat, k: nat, e0: Expr, p1: nat, p2: nat, e1: Expr, j: nat)
    requires p <= |s| && 0 < k <= j <= |KnownOps|
    requires ParseLevel(s, p, k - 1) == Ok(e0, p1)
    requires OpTok(s, p1, KnownOps[k - 1]) == Some(p2)
    requires ParseLevel(s, p2, k - 1) == Ok(e1, |s|)
    ensures ParseLevel(s, p, j) == Ok(Op(KnownOps[k - 1].name, [e0, e1]), |s|)
  {
    ChainAtEnd(s, k);
    ChainStep(s, p1, k, p2, e1, |s|, [], |s|);
    assert [e1] + [] == [e1];
    LevelStep(s, p, k, e0, p1, [e1], |s|);
    assert [e0] + [e1] == [e0, e1];
    LevelsToEnd(s, p, k, j, Op(KnownOps[k - 1].name, [e0, e1]));
  }

  /** An integer primary at p, given where its digits start and end, as the lowest level. */
  lemma IntOperand(s: string, p: nat, q: nat, d: nat)
    requires p <= |s| && Skip(s, p) == q && q < |s| && IsDigit(s[q])
    requires DigitsEnd(s, q) == d && (d == |s| || s[d] !in ".eE")
    ensures ParseLevel(s, p, 0) == Ok(IntLit(s[q..d]), d)
  {
    IntPrimary(s, p);
  }

  /** The three integers of "i op j op' k", at positions 0, 4 and 8. */
  lemma ThreeInts(s: string, a: char, b: char, c: char)
    requires |s| == 9 && IsDigit(s[0]) && IsDigit(s[4]) && IsDigit(s[8])
    requires s[1] == ' ' && s[3] == ' ' && s[5] == ' ' && s[7] == ' '
    requires a == s[0] && b == s[4] && c == s[8]
    ensures ParseLevel(s, 0, 0) == Ok(IntLit([a]), 1)
    ensures ParseLevel(s, 3, 0) == Ok(IntLit([b]), 5)
    ensures ParseLevel(s, 7, 0) == Ok(IntLit([c]), 9)
  {
    assert Skip(s, 0) == 0 && DigitsEnd(s, 0) == 1 && s[0..1] == [a];
    IntOperand(s, 0, 0, 1);
    assert Skip(s, 4) == 4;
    assert Skip(s, 3) == 4;
    assert DigitsEnd(s, 5) == 5;
    assert DigitsEnd(s, 4) == 5 && s[4..5] == [b];
    IntOperand(s, 3, 4, 5);
    assert Skip(s, 8) == 8;
    assert Skip(s, 7) == 8;
    assert DigitsEnd(s, 9) == 9;
    assert DigitsEnd(s, 8) == 9 && s[8..9] == [c];
    IntOperand(s, 7, 8, 9);
  }

  /** `1 + 2 * 3`: the product is an operand of the sum. */
  lemma AddMult(s: string)
    requires s == "1 + 2 * 3"
    ensures ParseExpr(s, 0) == Ok(Op("add", [IntLit("1"), Op("mult", [IntLit("2"), IntLit("3")])]), 9)
  {
    ThreeInts(s, '1', '2', '3');
    AddMultOperators(s);
    var m := Op("mult", [IntLit("2"), IntLit("3")]);
    LastOperator(s, 3, 1, IntLit("2"), 5, 7, IntLit("3"), 2);
    OperandThrough(s, 0, IntLit("1"), 1, 2);
    LastOperator(s, 0, 3, IntLit("1"), 1, 3, m, |KnownOps|);
  }

  lemma AddMultOperators(s: string)
    requires s == "1 + 2 * 3"
    ensures KnownOps[0].name == "mult" && KnownOps[2].name == "add"
    ensures OpTok(s, 5, KnownOps[0]) == Some(7)
    ensures forall i :: 0 <= i < 2 ==> OpTok(s, 1, KnownOps[i]).None?
    ensures OpTok(s, 1, KnownOps[2]) == Some(3)
  {
    assert Skip(s, 5) == 6 && s[6..7] == "*";
    assert Skip(s, 1) == 2 && s[2..3] == "+";
  }

  /**
    `5 - 2 + 1`: every KNOWN_OPS entry is a level of its own and `+` comes
    before `-`, so the sum binds tighter and is the right operand of the difference.
   */
  lemma SubAdd(s: string)
    requires s == "5 - 2 + 1"
    ensures ParseExpr(s, 0) == Ok(Op("sub", [IntLit("5"), Op("add", [IntLit("2"), IntLit("1")])]), 9)
  {
    ThreeInts(s, '5', '2', '1');
    SubAddOperators(s);
    DifferenceOfSum(s, IntLit("5"), IntLit("2"), IntLit("1"), 1, 3, 5, 7);
  }

  /**
    Operands a, b, c with `-` after a and `+` after b, c reaching the end:
    the sum of b and c is the right operand of the difference.
   */
  lemma DifferenceOfSum(s: string, a: Expr, b: Expr, c: Expr, p1: nat, p2: nat, p3: nat, p4: nat)
    requires p1 <= |s| && p2 <= |s| && p3 <= |s| && p4 <= |s|
    requires ParseLevel(s, 0, 0) == Ok(a, p1)
    requires ParseLevel(s, p2, 0) == Ok(b, p3)
    requires ParseLevel(s, p4, 0) == Ok(c, |s|)
    requires forall i :: 0 <= i < 3 ==> OpTok(s, p1, KnownOps[i]).None?
    requires OpTok(s, p1, KnownOps[3]) == Some(p2)
    requires forall i :: 0 <= i < 2 ==> OpTok(s, p3, KnownOps[i]).None?
    requires OpTok(s, p3, KnownOps[2]) == Some(p4)
    ensures ParseExpr(s, 0) == Ok(Op(KnownOps[3].name, [a, Op(KnownOps[2].name, [b, c])]), |s|)
  {
    SumOperand(s, b, c, p2, p3, p4);
    OperandThrough(s, 0, a, p1, 3);
    Difference(s, a, Op(KnownOps[2].name, [b, c]), p1, p2);
  }

  /** Operand a, `-`, and an operand x of the levels below `-` reaching the end: their difference. */
  lemma Difference(s: string, a: Expr, x: Expr, p1: nat, p2: nat)
    requires p1 <= |s| && p2 <= |s|
    requires ParseLevel(s, 0, 3) == Ok(a, p1)
    requires OpTok(s, p1, KnownOps[3]) == Some(p2)
    requires ParseLevel(s, p2, 3) == Ok(x, |s|)
    ensures ParseExpr(s, 0) == Ok(Op(KnownOps[3].name, [a, x]), |s|)
  {
    LastOperator(s, 0, 4, a, p1, p2, x, |KnownOps|);
    assert ParseExpr(s, 0) == ParseLevel(s, 0, |KnownOps|);
  }

  /** Operand b, `+`, and operand c reaching the end: their sum, as the whole of the levels below `-`. */
  lemma SumOperand(s: string, b: Expr, c: Expr, p2: nat, p3: nat, p4: nat)
    requires p2 <= |s| && p3 <= |s| && p4 <= |s|
    requires ParseLevel(s, p2, 0) == Ok(b, p3)
    requires ParseLevel(s, p4, 0) == Ok(c, |s|)
    requires forall i :: 0 <= i < 2 ==> OpTok(s, p3, KnownOps[i]).None?
    requires OpTok(s, p3, KnownOps[2]) == Some(p4)
    ensures ParseLevel(s, p2, 3) == Ok(Op(KnownOps[2].name, [b, c]), |s|)
  {
    OperandThrough(s, p2, b, p3, 2);
    LevelsToEnd(s, p4, 0, 2, c);
    LastOperator(s, p2, 3, b, p3, p4, c, 3);
  }

  lemma SubAddOperators(s: string)
    requires s == "5 - 2 + 1"
    ensures KnownOps[2].name == "add" && KnownOps[3].name == "sub"
    ensures forall i :: 0 <= i < 2 ==> OpTok(s, 5, KnownOps[i]).None?
    ensures OpTok(s, 5, KnownOps[2]) == Some(7)
    ensures forall i :: 0 <= i < 3 ==> OpTok(s, 1, KnownOps[i]).None?
    ensures OpTok(s, 1, KnownOps[3]) == Some(3)
  {
    assert Skip(s, 5) == 6 && s[6..7] == "+";
    assert Skip(s, 1) == 2 && s[2..3] == "-";
  }
}
