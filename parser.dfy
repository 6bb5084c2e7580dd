/**
  The grammar of moz_sql_parser/sql_parser.py as a recursive-descent parser
  over the input string s. Every production is a function of the position
  it starts at; a successful match gives its node and the position after
  it, and alternatives are tried in the order the grammar lists them (the
  first one that matches wins, and a repetition stops at the first item
  that does not match, as in pyparsing).

  Termination: every successful match consumes input; a production that
  calls another at the same position calls one of lower rank (the second
  component of the decreases clauses).
 */
module Parser {
  import opened Syntax
  import opened Reserved
  import opened Lexer
  import opened Actions
  import Tabs

  datatype Res<+T> = Fail | Ok(val: T, pos: nat)

  // ---------------------------------------------------------------------
  // Terminals: whitespace and comments are skipped before each of them.

  /** `Literal(t)`: the position after t. */
  function Lit(s: string, pos: nat, t: string): (r: Option<nat>)
    requires pos <= |s| && t != []
    ensures r.Some? ==> pos < r.value <= |s|
    ensures r.Some? <==> LiteralAt(s, Skip(s, pos), t)
  {
    var q := Skip(s, pos);
    if LiteralAt(s, q, t) then Some(q + |t|) else None
  }

  /** `Keyword(k, caseless=True)`: the position after the keyword. */
  function Kw(s: string, pos: nat, k: string): (r: Option<nat>)
    requires pos <= |s| && k != []
    ensures r.Some? ==> pos < r.value <= |s|
    ensures r.Some? <==> KeywordAt(s, Skip(s, pos), k, true)
  {
    var q := Skip(s, pos);
    if KeywordAt(s, q, k, true) then Some(q + |k|) else None
  }

  /** The terminal of a KNOWN_OPS entry: a `Literal`, or a case-sensitive `Keyword`. */
  function OpTok(s: string, pos: nat, o: OpEntry): (r: Option<nat>)
    requires pos <= |s| && o.op != []
    ensures r.Some? ==> pos < r.value <= |s|
    ensures r.Some? <==> OpAt(s, Skip(s, pos), o)
  {
    var q := Skip(s, pos);
    if OpAt(s, q, o) then Some(q + |o.op|) else None
  }

  /** `ident`, after whitespace. */
  function ParseIdent(s: string, pos: nat): (r: Res<string>)
    requires pos <= |s|
    ensures r.Ok? ==> pos < r.pos <= |s|
    ensures r.Ok? && r.val != "*" ==> !ReservedAt(s, Skip(s, pos))
  {
    match ScanIdent(s, Skip(s, pos))
    case None => Fail
    case Some(t) => Ok(t.text, t.end)
  }

  // ---------------------------------------------------------------------
  // Expressions.

  /** `expr`: the loosest infix level (`or`). */
  function ParseExpr(s: string, pos: nat): (r: Res<Expr>)
    requires pos <= |s|
    ensures r.Ok? ==> pos < r.pos <= |s|
    ensures r.Ok? && r.val.Op? ==> MinLevel(r.val.name) < |KnownOps|
    decreases |s| - pos, 19
  {
    ParseLevel(s, pos, |KnownOps|)
  }

  /**
    The infix level built from the first k KNOWN_OPS entries: level k chains
    operands of level k - 1 with the operator of entry k - 1, left to right;
    level 0 is `compound`. A chain of one operand is that operand itself.
    An operator node's name is that of an entry below k, and each operand
    that is itself an operator node binds tighter than the node it is in.
   */
  function ParseLevel(s: string, pos: nat, k: nat): (r: Res<Expr>)
    requires pos <= |s| && k <= |KnownOps|
    ensures r.Ok? ==> pos < r.pos <= |s|
    ensures r.Ok? && r.val.Op? ==> MinLevel(r.val.name) < k
    ensures r.Ok? && r.val.Op? ==>
      forall a :: a in r.val.args && a.Op? ==> MinLevel(a.name) < MaxLevel(r.val.name)
    decreases |s| - pos, k + 3
  {
    if k == 0 then ParseCompound(s, pos)
    else
      match ParseLevel(s, pos, k - 1)
      case Fail => Fail
      case Ok(e0, p1) =>
        var (rest, p2) := ParseChain(s, p1, k);
        if rest == [] then Ok(e0, p1)
        else Ok(ChainExpr(k, e0, rest), p2)
  }

  /** `to_json_operator` on the tokens of a chain of level k: the node of entry k - 1 over its operands. */
  function ChainExpr(k: nat, e0: Expr, rest: seq<Expr>): (r: Expr)
    requires 0 < k <= |KnownOps| && rest != []
    requires e0.Op? ==> MinLevel(e0.name) < k - 1
    requires forall a :: a in rest && a.Op? ==> MinLevel(a.name) < k - 1
    ensures r == Op(KnownOps[k - 1].name, [e0] + rest)
    ensures MinLevel(r.name) < k
    ensures forall a :: a in r.args && a.Op? ==> MinLevel(a.name) < MaxLevel(r.name)
  {
    ChainNode(k, e0, rest);
    ToJsonOperator(ChainTokens(KnownOps[k - 1].op, e0, rest))
  }

  /**
    The node of a chain of level k: named after entry k - 1, with the
    operands in order; operands of lower levels bind tighter than it.
   */
  lemma ChainNode(k: nat, e0: Expr, rest: seq<Expr>)
    requires 0 < k <= |KnownOps| && rest != []
    requires e0.Op? ==> MinLevel(e0.name) < k - 1
    requires forall a :: a in rest && a.Op? ==> MinLevel(a.name) < k - 1
    ensures ChainShaped(ChainTokens(KnownOps[k - 1].op, e0, rest))
    ensures ToJsonOperator(ChainTokens(KnownOps[k - 1].op, e0, rest)) == Op(KnownOps[k - 1].name, [e0] + rest)
    ensures MinLevel(KnownOps[k - 1].name) < k
    ensures forall a :: a in [e0] + rest && a.Op? ==> MinLevel(a.name) < MaxLevel(KnownOps[k - 1].name)
  {
    KnownOpName(k - 1);
    ChainOperator(KnownOps[k - 1].op, e0, rest);
  }

  /** `OneOrMore(op + operand)` of level k, as zero or more operands of level k - 1. */
  function ParseChain(s: string, pos: nat, k: nat): (r: (seq<Expr>, nat))
    requires pos <= |s| && 0 < k <= |KnownOps|
    ensures pos <= r.1 <= |s|
    ensures r.0 == [] ==> r.1 == pos
    ensures forall a :: a in r.0 && a.Op? ==> MinLevel(a.name) < k - 1
    decreases |s| - pos, 0
  {
    match OpTok(s, pos, KnownOps[k - 1])
    case None => ([], pos)
    case Some(p1) =>
      match ParseLevel(s, p1, k - 1)
      case Fail => ([], pos)
      case Ok(e, p2) =>
        var (rest, p3) := ParseChain(s, p2, k);
        ([e] + rest, p3)
  }

  /**
    A chain is empty, and consumes nothing, exactly when the level's operator
    and an operand of the tighter level do not follow; otherwise that operand
    comes first.
   */
  lemma ChainFirst(s: string, pos: nat, k: nat)
    requires pos <= |s| && 0 < k <= |KnownOps|
    ensures ParseChain(s, pos, k).0 == [] <==>
      OpTok(s, pos, KnownOps[k - 1]).None? || ParseLevel(s, OpTok(s, pos, KnownOps[k - 1]).value, k - 1).Fail?
    ensures ParseChain(s, pos, k).0 != [] ==>
      OpTok(s, pos, KnownOps[k - 1]).Some? &&
      ParseChain(s, pos, k).0[0] == ParseLevel(s, OpTok(s, pos, KnownOps[k - 1]).value, k - 1).val
  {
  }

  /** `compound`: the primaries, tried in the grammar's order. */
  function ParseCompound(s: string, pos: nat): (r: Res<Expr>)
    requires pos <= |s|
    ensures r.Ok? ==> pos < r.pos <= |s|
    ensures r.Ok? ==> !r.val.Op?
    decreases |s| - pos, 2
  {
    var nested := ParseNested(s, pos);
    if nested.Ok? then nested else ParseAtom(s, pos)
  }

  /** The first six alternatives of `compound`: the prefix operators, CASE, a nested SELECT and a parenthesised list. */
  function ParseNested(s: string, pos: nat): (r: Res<Expr>)
    requires pos <= |s|
    ensures r.Ok? ==> pos < r.pos <= |s|
    ensures r.Ok? ==> r.val.Call? || r.val.Case? || r.val.Sub? || r.val.List?
    decreases |s| - pos, 1
  {
    var neg := ParseNeg(s, pos);
    if neg.Ok? then neg
    else
      var not := ParsePrefix(s, pos, "not");
      if not.Ok? then not
      else
        var distinct := ParsePrefix(s, pos, "distinct");
        if distinct.Ok? then distinct
        else
          var case_ := ParseCase(s, pos);
          if case_.Ok? then case_
          else
            match ParseSelect(s, pos)
            case Ok(query, p) => Ok(Sub(query), p)
            case Fail => ParseGroup(s, pos)
  }

  /** The last five alternatives of `compound`: the literals, a function call and an identifier. */
  function ParseAtom(s: string, pos: nat): (r: Res<Expr>)
    requires pos <= |s|
    ensures r.Ok? ==> pos < r.pos <= |s|
    ensures r.Ok? ==> r.val.RealLit? || r.val.IntLit? || r.val.Str? || r.val.Call? || r.val.Id?
    decreases |s| - pos, 1
  {
    var q := Skip(s, pos);
    match ScanReal(s, q)
    case Some(t) => Ok(RealLit(t.text), t.end)
    case None =>
      match ScanInt(s, q)
      case Some(t) => Ok(IntLit(t.text), t.end)
      case None =>
        match ScanQuoted(s, q, '\'')
        case Some(t) => Ok(Str(t.text), t.end)
        case None =>
          var call := ParseCall(s, pos);
          if call.Ok? then call
          else
            match ScanIdent(s, q)
            case Some(t) => Ok(Id(t.text), t.end)
            case None => Fail
  }

  /** `Literal("-") + expr`: the call node named "neg" over the whole expression that follows. */
  function ParseNeg(s: string, pos: nat): (r: Res<Expr>)
    requires pos <= |s|
    ensures r.Ok? ==> pos < r.pos <= |s|
    ensures r.Ok? ==> r.val.Call? && r.val.fn == "neg" && r.val.params.One?
    ensures r.Ok? <==> Lit(s, pos, "-").Some? && ParseExpr(s, Lit(s, pos, "-").value).Ok?
    ensures r.Ok? ==>
      Lit(s, pos, "-").Some? &&
      r == Ok(Call("neg", One(ParseExpr(s, Lit(s, pos, "-").value).val)), ParseExpr(s, Lit(s, pos, "-").value).pos)
    decreases |s| - pos, 0
  {
    match Lit(s, pos, "-")
    case None => Fail
    case Some(p1) =>
      match ParseExpr(s, p1)
      case Fail => Fail
      case Ok(e, p2) => Ok(ToJsonCall("neg", [e]), p2)
  }

  /** `Keyword(k, caseless=True) + expr`, for "not" and "distinct". */
  function ParsePrefix(s: string, pos: nat, k: string): (r: Res<Expr>)
    requires pos <= |s| && k != []
    ensures r.Ok? ==> pos < r.pos <= |s|
    ensures r.Ok? ==> r.val.Call? && r.val.fn == LowerStr(k) && r.val.params.One?
    ensures r.Ok? <==> Kw(s, pos, k).Some? && ParseExpr(s, Kw(s, pos, k).value).Ok?
    ensures r.Ok? ==>
      Kw(s, pos, k).Some? &&
      r == Ok(Call(LowerStr(k), One(ParseExpr(s, Kw(s, pos, k).value).val)), ParseExpr(s, Kw(s, pos, k).value).pos)
    decreases |s| - pos, 0
  {
    match Kw(s, pos, k)
    case None => Fail
    case Some(p1) =>
      match ParseExpr(s, p1)
      case Fail => Fail
      case Ok(e, p2) => Ok(ToJsonCall(k, [e]), p2)
  }

  /** `"(" delimitedList(expr) ")"`: the list of the expressions inside. */
  function ParseGroup(s: string, pos: nat): (r: Res<Expr>)
    requires pos <= |s|
    ensures r.Ok? ==> pos < r.pos <= |s|
    ensures r.Ok? ==> r.val.List? && |r.val.items| >= 1
    ensures r.Ok? ==>
      Lit(s, pos, "(").Some? && ParseExprList(s, Lit(s, pos, "(").value).Ok? &&
      r.val.items == ParseExprList(s, Lit(s, pos, "(").value).val &&
      Lit(s, ParseExprList(s, Lit(s, pos, "(").value).pos, ")") == Some(r.pos)
    decreases |s| - pos, 0
  {
    match Lit(s, pos, "(")
    case None => Fail
    case Some(p1) =>
      match ParseExprList(s, p1)
      case Fail => Fail
      case Ok(items, p2) =>
        match Lit(s, p2, ")")
        case None => Fail
        case Some(p3) => Ok(List(items), p3)
  }

  /** `Word(alphas) "(" [delimitedList(expr)] ")"`: a call node with the lower-cased name. */
  function ParseCall(s: string, pos: nat): (r: Res<Expr>)
    requires pos <= |s|
    ensures r.Ok? ==> pos < r.pos <= |s|
    ensures r.Ok? ==> r.val.Call?
    ensures r.Ok? ==>
      AlphasEnd(s, Skip(s, pos)) > Skip(s, pos) &&
      r.val.fn == LowerStr(s[Skip(s, pos)..AlphasEnd(s, Skip(s, pos))])
    ensures r.Ok? ==>
      Lit(s, AlphasEnd(s, Skip(s, pos)), "(").Some? &&
      var args := ParseExprList(s, Lit(s, AlphasEnd(s, Skip(s, pos)), "(").value);
      ParamList(r.val.params) == (if args.Ok? then args.val else [])
    decreases |s| - pos, 0
  {
    var q := Skip(s, pos);
    var e := AlphasEnd(s, q);
    if e == q then Fail
    else
      var name := s[q..e];
      match Lit(s, e, "(")
      case None => Fail
      case Some(p1) =>
        match ParseExprList(s, p1)
        case Ok(args, p2) =>
          (match Lit(s, p2, ")")
           case None => Fail
           case Some(p3) => Ok(ToJsonCall(name, args), p3))
        case Fail =>
          match Lit(s, p1, ")")
          case None => Fail
          case Some(p3) => Ok(ToJsonCall(name, []), p3)
  }

  /** `delimitedList(expr)`: one or more expressions separated by commas. */
  function ParseExprList(s: string, pos: nat): (r: Res<seq<Expr>>)
    requires pos <= |s|
    ensures r.Ok? ==> pos < r.pos <= |s| && |r.val| >= 1
    ensures r.Ok? <==> ParseExpr(s, pos).Ok?
    ensures r.Ok? ==> r.val[0] == ParseExpr(s, pos).val
    decreases |s| - pos, 20
  {
    match ParseExpr(s, pos)
    case Fail => Fail
    case Ok(e, p1) =>
      match Lit(s, p1, ",")
      case None => Ok([e], p1)
      case Some(p2) =>
        match ParseExprList(s, p2)
        case Fail => Ok([e], p1)
        case Ok(es, p3) => Ok([e] + es, p3)
  }

  /** `case`: CASE, the WHEN/THEN branches, an optional ELSE, END. */
  function ParseCase(s: string, pos: nat): (r: Res<Expr>)
    requires pos <= |s|
    ensures r.Ok? ==> pos < r.pos <= |s|
    ensures r.Ok? ==> r.val.Case?
    ensures r.Ok? ==>
      Kw(s, pos, "case").Some? &&
      var (whens, p2) := ParseWhens(s, Kw(s, pos, "case").value);
      var (elseExpr, p3) := ParseKeyedExpr(s, p2, "else");
      r.val == ToCaseCall(whens, elseExpr) && Kw(s, p3, "end") == Some(r.pos)
    decreases |s| - pos, 0
  {
    match Kw(s, pos, "case")
    case None => Fail
    case Some(p1) =>
      var (whens, p2) := ParseWhens(s, p1);
      var (elseExpr, p3) := ParseKeyedExpr(s, p2, "else");
      match Kw(s, p3, "end")
      case None => Fail
      case Some(p4) => Ok(ToCaseCall(whens, elseExpr), p4)
  }

  /** One branch of a CASE: `(WHEN + expr + THEN + expr)` with its action `to_when_call`. */
  function ParseWhen(s: string, pos: nat): (r: Res<Expr>)
    requires pos <= |s|
    ensures r.Ok? ==> pos < r.pos <= |s|
    ensures r.Ok? <==>
      Kw(s, pos, "when").Some? && ParseExpr(s, Kw(s, pos, "when").value).Ok? &&
      Kw(s, ParseExpr(s, Kw(s, pos, "when").value).pos, "then").Some? &&
      ParseExpr(s, Kw(s, ParseExpr(s, Kw(s, pos, "when").value).pos, "then").value).Ok?
    ensures r.Ok? ==>
      var c := ParseExpr(s, Kw(s, pos, "when").value);
      var t := ParseExpr(s, Kw(s, c.pos, "then").value);
      r == Ok(ToWhenCall(c.val, t.val), t.pos)
    decreases |s| - pos, 0
  {
    match Kw(s, pos, "when")
    case None => Fail
    case Some(p1) =>
      match ParseExpr(s, p1)
      case Fail => Fail
      case Ok(c, p2) =>
        match Kw(s, p2, "then")
        case None => Fail
        case Some(p3) =>
          match ParseExpr(s, p3)
          case Fail => Fail
          case Ok(t, p4) => Ok(ToWhenCall(c, t), p4)
  }

  /** `ZeroOrMore(when)`: the branch nodes in order. */
  function ParseWhens(s: string, pos: nat): (r: (seq<Expr>, nat))
    requires pos <= |s|
    ensures pos <= r.1 <= |s|
    ensures r.0 == [] <==> ParseWhen(s, pos).Fail?
    ensures r.0 == [] ==> r.1 == pos
    ensures r.0 != [] ==> r.0[0] == ParseWhen(s, pos).val
    ensures forall w :: w in r.0 ==> w.When?
    decreases |s| - pos, 1
  {
    match ParseWhen(s, pos)
    case Fail => ([], pos)
    case Ok(w, p1) =>
      var (rest, p2) := ParseWhens(s, p1);
      ([w] + rest, p2)
  }

  // ---------------------------------------------------------------------
  // Clauses.

  /** The position after an optional AS at pos. */
  function AfterAs(s: string, pos: nat): (r: nat)
    requires pos <= |s|
    ensures pos <= r <= |s|
    ensures r > pos <==> Kw(s, pos, "as").Some?
  {
    match Kw(s, pos, "as") case Some(p) => p case None => pos
  }

  /** `selectColumn`: an expression with an optional `[AS] alias`, or "*". */
  function ParseColumn(s: string, pos: nat): (r: Res<Column>)
    requires pos <= |s|
    ensures r.Ok? ==> pos < r.pos <= |s|
    ensures r.Ok? <==> ParseExpr(s, pos).Ok? || Lit(s, pos, "*").Some?
    ensures ParseExpr(s, pos).Ok? ==>
      r.Ok? && r.val.value == ParseExpr(s, pos).val &&
      var alias := ParseIdent(s, AfterAs(s, ParseExpr(s, pos).pos));
      (r.val.alias.Some? <==> alias.Ok?) &&
      (if alias.Ok? then r.val.alias.value == alias.val && r.pos == alias.pos else r.pos == ParseExpr(s, pos).pos)
    ensures ParseExpr(s, pos).Fail? && r.Ok? ==> r == Ok(Column(Id("*"), None), Lit(s, pos, "*").value)
    decreases |s| - pos, 20
  {
    match ParseExpr(s, pos)
    case Ok(e, p1) =>
      var pa := AfterAs(s, p1);
      (match ParseIdent(s, pa)
       case Ok(name, p2) => Ok(Column(e, Some(name)), p2)
       case Fail => Ok(Column(e, None), p1))
    case Fail =>
      match Lit(s, pos, "*")
      case Some(p1) => Ok(Column(Id("*"), None), p1)
      case None => Fail
  }

  /** `delimitedList(selectColumn)`: one or more columns. */
  function ParseColumns(s: string, pos: nat): (r: Res<seq<Column>>)
    requires pos <= |s|
    ensures r.Ok? ==> pos < r.pos <= |s| && |r.val| >= 1
    decreases |s| - pos, 21
  {
    match ParseColumn(s, pos)
    case Fail => Fail
    case Ok(c, p1) =>
      match Lit(s, p1, ",")
      case None => Ok([c], p1)
      case Some(p2) =>
        match ParseColumns(s, p2)
        case Fail => Ok([c], p1)
        case Ok(cs, p3) => Ok([c] + cs, p3)
  }

  /** `tableName`: an identifier with an optional `[AS] alias`. */
  function ParseTable(s: string, pos: nat): (r: Res<TableRef>)
    requires pos <= |s|
    ensures r.Ok? ==> pos < r.pos <= |s|
    ensures r.Ok? <==> ParseIdent(s, pos).Ok?
    ensures r.Ok? ==>
      r.val.table == ParseIdent(s, pos).val &&
      var alias := ParseIdent(s, AfterAs(s, ParseIdent(s, pos).pos));
      (r.val.alias.Some? <==> alias.Ok?) &&
      (if alias.Ok? then r.val.alias.value == alias.val && r.pos == alias.pos else r.pos == ParseIdent(s, pos).pos)
  {
    match ParseIdent(s, pos)
    case Fail => Fail
    case Ok(t, p1) =>
      var pa := AfterAs(s, p1);
      match ParseIdent(s, pa)
      case Ok(name, p2) => Ok(TableRef(t, Some(name)), p2)
      case Fail => Ok(TableRef(t, None), p1)
  }

  /** `delimitedList(Group(tableName))`: one or more tables. */
  function ParseTables(s: string, pos: nat): (r: Res<seq<TableRef>>)
    requires pos <= |s|
    ensures r.Ok? ==> pos < r.pos <= |s| && |r.val| >= 1
    decreases |s| - pos
  {
    match ParseTable(s, pos)
    case Fail => Fail
    case Ok(t, p1) =>
      match Lit(s, p1, ",")
      case None => Ok([t], p1)
      case Some(p2) =>
        match ParseTables(s, p2)
        case Fail => Ok([t], p1)
        case Ok(ts, p3) => Ok([t] + ts, p3)
  }

  /** `CROSSJOIN | INNERJOIN | JOIN`: the keyword matched and the position after it. */
  function JoinKeyword(s: string, pos: nat): (r: Option<(string, nat)>)
    requires pos <= |s|
    ensures r.Some? ==> pos < r.value.1 <= |s| && r.value.0 in {"cross join", "inner join", "join"}
  {
    match Kw(s, pos, "cross join")
    case Some(p) => Some(("cross join", p))
    case None =>
      match Kw(s, pos, "inner join")
      case Some(p) => Some(("inner join", p))
      case None =>
        match Kw(s, pos, "join")
        case Some(p) => Some(("join", p))
        case None => None
  }

  /** `join`: a join keyword, a table, and an optional `ON expr`. */
  function ParseJoin(s: string, pos: nat): (r: Res<Join>)
    requires pos <= |s|
    ensures r.Ok? ==> pos < r.pos <= |s|
    ensures r.Ok? ==> r.val.op in {"cross join", "inner join", "join"} && ("on" in JoinKeys(r.val) <==> r.val.on.Some?)
    ensures r.Ok? <==> JoinKeyword(s, pos).Some? && ParseTable(s, JoinKeyword(s, pos).value.1).Ok?
    ensures r.Ok? ==>
      JoinKeyword(s, pos).Some? && r.val.op == JoinKeyword(s, pos).value.0 &&
      var t := ParseTable(s, JoinKeyword(s, pos).value.1);
      t.Ok? && r.val.table == t.val &&
      (r.val.on.Some? <==> Kw(s, t.pos, "on").Some? && ParseExpr(s, Kw(s, t.pos, "on").value).Ok?) &&
      (if r.val.on.Some? then r.val.on.value == ParseExpr(s, Kw(s, t.pos, "on").value).val &&
         r.pos == ParseExpr(s, Kw(s, t.pos, "on").value).pos
       else r.pos == t.pos)
    decreases |s| - pos, 0
  {
    match JoinKeyword(s, pos)
    case None => Fail
    case Some((op, p1)) =>
      match ParseTable(s, p1)
      case Fail => Fail
      case Ok(t, p2) =>
        match Kw(s, p2, "on")
        case None => Ok(ToJoinCall(op, t, None), p2)
        case Some(p3) =>
          match ParseExpr(s, p3)
          case Fail => Ok(ToJoinCall(op, t, None), p2)
          case Ok(c, p4) => Ok(ToJoinCall(op, t, Some(c)), p4)
  }

  /** `ZeroOrMore(join)`. */
  function ParseJoins(s: string, pos: nat): (r: (seq<Join>, nat))
    requires pos <= |s|
    ensures pos <= r.1 <= |s|
    ensures r.0 == [] <==> ParseJoin(s, pos).Fail?
    ensures r.0 == [] ==> r.1 == pos
    ensures r.0 != [] ==> r.0[0] == ParseJoin(s, pos).val
    ensures forall j :: j in r.0 ==> j.op in {"cross join", "inner join", "join"} && ("on" in JoinKeys(j) <==> j.on.Some?)
    decreases |s| - pos, 1
  {
    match ParseJoin(s, pos)
    case Fail => ([], pos)
    case Ok(j, p1) =>
      var (rest, p2) := ParseJoins(s, p1);
      ([j] + rest, p2)
  }

  /** `sortColumn`: an expression, marked descending exactly when DESC follows it. */
  function ParseSort(s: string, pos: nat): (r: Res<SortColumn>)
    requires pos <= |s|
    ensures r.Ok? ==> pos < r.pos <= |s|
    ensures r.Ok? <==> ParseExpr(s, pos).Ok?
    ensures r.Ok? ==> r.val.value == ParseExpr(s, pos).val
    ensures r.Ok? ==> (r.val.desc <==> Kw(s, ParseExpr(s, pos).pos, "desc").Some?)
    decreases |s| - pos, 20
  {
    match ParseExpr(s, pos)
    case Fail => Fail
    case Ok(e, p1) =>
      match Kw(s, p1, "desc")
      case Some(p2) => Ok(SortColumn(e, true), p2)
      case None => Ok(SortColumn(e, false), p1)
  }

  /** `delimitedList(Group(sortColumn))`: one or more sort columns. */
  function ParseSorts(s: string, pos: nat): (r: Res<seq<SortColumn>>)
    requires pos <= |s|
    ensures r.Ok? ==> pos < r.pos <= |s| && |r.val| >= 1
    decreases |s| - pos, 21
  {
    match ParseSort(s, pos)
    case Fail => Fail
    case Ok(c, p1) =>
      match Lit(s, p1, ",")
      case None => Ok([c], p1)
      case Some(p2) =>
        match ParseSorts(s, p2)
        case Fail => Ok([c], p1)
        case Ok(cs, p3) => Ok([c] + cs, p3)
  }

  /** `Optional(FROM + tables + ZeroOrMore(join))`. */
  function ParseFrom(s: string, pos: nat): (r: (Option<FromClause>, nat))
    requires pos <= |s|
    ensures pos <= r.1 <= |s|
    ensures r.0.Some? ==> |r.0.value.tables| >= 1
    ensures r.0.None? ==> r.1 == pos
    ensures r.0.Some? <==> Kw(s, pos, "from").Some? && ParseTables(s, Kw(s, pos, "from").value).Ok?
    ensures r.0.Some? ==>
      Kw(s, pos, "from").Some? &&
      var tables := ParseTables(s, Kw(s, pos, "from").value);
      tables.Ok? && r == (Some(FromClause(tables.val, ParseJoins(s, tables.pos).0)), ParseJoins(s, tables.pos).1)
    decreases |s| - pos, 0
  {
    match Kw(s, pos, "from")
    case None => (None, pos)
    case Some(p1) =>
      match ParseTables(s, p1)
      case Fail => (None, pos)
      case Ok(tables, p2) =>
        var (joins, p3) := ParseJoins(s, p2);
        (Some(FromClause(tables, joins)), p3)
  }

  /** `Optional(k + expr)`, for WHERE, HAVING and the ELSE of CASE. */
  function ParseKeyedExpr(s: string, pos: nat, k: string): (r: (Option<Expr>, nat))
    requires pos <= |s| && k != []
    ensures pos <= r.1 <= |s|
    ensures r.0.None? ==> r.1 == pos
    ensures r.0.Some? <==> Kw(s, pos, k).Some? && ParseExpr(s, Kw(s, pos, k).value).Ok?
    ensures r.0.Some? ==>
      Kw(s, pos, k).Some? &&
      r == (Some(ParseExpr(s, Kw(s, pos, k).value).val), ParseExpr(s, Kw(s, pos, k).value).pos)
    decreases |s| - pos, 0
  {
    match Kw(s, pos, k)
    case None => (None, pos)
    case Some(p1) =>
      match ParseExpr(s, p1)
      case Fail => (None, pos)
      case Ok(e, p2) => (Some(e), p2)
  }

  /** `Optional(GROUPBY + delimitedList(Group(selectColumn)))`. */
  function ParseGroupBy(s: string, pos: nat): (r: (Option<seq<Column>>, nat))
    requires pos <= |s|
    ensures pos <= r.1 <= |s|
    ensures r.0.Some? ==> |r.0.value| >= 1
    ensures r.0.None? ==> r.1 == pos
    ensures r.0.Some? <==> Kw(s, pos, "group by").Some? && ParseColumns(s, Kw(s, pos, "group by").value).Ok?
    ensures r.0.Some? ==>
      Kw(s, pos, "group by").Some? &&
      r == (Some(ParseColumns(s, Kw(s, pos, "group by").value).val), ParseColumns(s, Kw(s, pos, "group by").value).pos)
    decreases |s| - pos, 0
  {
    match Kw(s, pos, "group by")
    case None => (None, pos)
    case Some(p1) =>
      match ParseColumns(s, p1)
      case Fail => (None, pos)
      case Ok(cs, p2) => (Some(cs), p2)
  }

  /** `Optional(ORDERBY + delimitedList(Group(sortColumn)))`. */
  function ParseOrderBy(s: string, pos: nat): (r: (Option<seq<SortColumn>>, nat))
    requires pos <= |s|
    ensures pos <= r.1 <= |s|
    ensures r.0.Some? ==> |r.0.value| >= 1
    ensures r.0.None? ==> r.1 == pos
    ensures r.0.Some? <==> Kw(s, pos, "order by").Some? && ParseSorts(s, Kw(s, pos, "order by").value).Ok?
    ensures r.0.Some? ==>
      Kw(s, pos, "order by").Some? &&
      r == (Some(ParseSorts(s, Kw(s, pos, "order by").value).val), ParseSorts(s, Kw(s, pos, "order by").value).pos)
    decreases |s| - pos, 0
  {
    match Kw(s, pos, "order by")
    case None => (None, pos)
    case Some(p1) =>
      match ParseSorts(s, p1)
      case Fail => (None, pos)
      case Ok(cs, p2) => (Some(cs), p2)
  }

  /**
    `selectStmt`: SELECT and one or more columns, then FROM, WHERE, GROUP BY,
    HAVING and ORDER BY, each optional, each at most once, in this order.
   */
  function ParseSelect(s: string, pos: nat): (r: Res<Select>)
    requires pos <= |s|
    ensures r.Ok? ==> pos < r.pos <= |s|
    ensures r.Ok? ==> |r.val.columns| >= 1
    ensures r.Ok? && r.val.from.Some? ==> |r.val.from.value.tables| >= 1
    ensures r.Ok? && r.val.groupBy.Some? ==> |r.val.groupBy.value| >= 1
    ensures r.Ok? && r.val.orderBy.Some? ==> |r.val.orderBy.value| >= 1
    ensures r.Ok? <==> Kw(s, pos, "select").Some? && ParseColumns(s, Kw(s, pos, "select").value).Ok?
    ensures r.Ok? ==>
      Kw(s, pos, "select").Some? && ParseColumns(s, Kw(s, pos, "select").value).Ok? &&
      var columns := ParseColumns(s, Kw(s, pos, "select").value);
      var (from, p3) := ParseFrom(s, columns.pos);
      var (where, p4) := ParseKeyedExpr(s, p3, "where");
      var (groupBy, p5) := ParseGroupBy(s, p4);
      var (having, p6) := ParseKeyedExpr(s, p5, "having");
      var (orderBy, p7) := ParseOrderBy(s, p6);
      r == Ok(Select(columns.val, from, where, groupBy, having, orderBy), p7)
    decreases |s| - pos, 0
  {
    match Kw(s, pos, "select")
    case None => Fail
    case Some(p1) =>
      match ParseColumns(s, p1)
      case Fail => Fail
      case Ok(columns, p2) =>
        var (from, p3) := ParseFrom(s, p2);
        var (where, p4) := ParseKeyedExpr(s, p3, "where");
        var (groupBy, p5) := ParseGroupBy(s, p4);
        var (having, p6) := ParseKeyedExpr(s, p5, "having");
        var (orderBy, p7) := ParseOrderBy(s, p6);
        Ok(Select(columns, from, where, groupBy, having, orderBy), p7)
  }

  /**
    `SQLParser.parseString(s)`: a SELECT statement starting at the
    beginning of s with its tabs expanded; trailing text is not examined.
   */
  function Parse(s: string): (r: Res<Select>)
    ensures r == ParseSelect(Tabs.ExpandTabs(s, 0), 0)
    ensures '\t' !in s ==> r == ParseSelect(s, 0)
    ensures r.Ok? ==> r.pos <= |Tabs.ExpandTabs(s, 0)|
  {
    Tabs.ExpandTabsNoTab(s, 0);
    ParseSelect(Tabs.ExpandTabs(s, 0), 0)
  }
}
