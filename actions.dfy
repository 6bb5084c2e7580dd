/**
  The parse actions of moz_sql_parser/sql_parser.py: pure functions from
  the tokens a production matched to the node it stands for.
 */
module Actions {
  import opened Syntax
  import opened Reserved

  /** A token of an operator chain: an operand, or the matched operator text. */
  datatype Tok = TExpr(e: Expr) | TOp(op: string)

  /**
    `to_json_operator` on the tokens e0 op e1 op ... en of one infix level:
    the single-key node named after the first KNOWN_OPS entry for the
    operator, listing the even-indexed tokens (the operands) in order.
   */
  function ToJsonOperator(tok: seq<Tok>): (r: Expr)
    requires ChainShaped(tok)
    ensures r.Op? && r.name == OpName(tok[1].op).value && NodeKeys(r) == {r.name}
    ensures |r.args| == (|tok| + 1) / 2
    ensures |tok| >= 3 ==> |r.args| >= 2
    ensures forall i :: 0 <= i < |r.args| ==> 2 * i < |tok| && tok[2 * i] == TExpr(r.args[i])
  {
    Op(OpName(tok[1].op).value, Operands(tok))
  }

  /** What to_json_operator relies on: an operand, a known operator, and operands at every even index. */
  predicate ChainShaped(tok: seq<Tok>)
  {
    |tok| >= 2 && tok[1].TOp? && OpName(tok[1].op).Some? && EvensAreOperands(tok)
  }

  predicate EvensAreOperands(tok: seq<Tok>)
  {
    forall i :: 0 <= i < |tok| && i % 2 == 0 ==> tok[i].TExpr?
  }

  lemma OperandAt(tok: seq<Tok>, i: nat)
    requires EvensAreOperands(tok) && i < (|tok| + 1) / 2
    ensures 2 * i < |tok| && tok[2 * i].TExpr?
  {
    assert (2 * i) % 2 == 0;
  }

  /** `[tok[i * 2] for i in range(int((len(tok) + 1) / 2))]` */
  function Operands(tok: seq<Tok>): (r: seq<Expr>)
    requires EvensAreOperands(tok)
    ensures |r| == (|tok| + 1) / 2
    ensures forall i :: 0 <= i < |r| ==> 2 * i < |tok| && tok[2 * i] == TExpr(r[i])
  {
    var n := (|tok| + 1) / 2;
    seq(n, i requires 0 <= i < n => OperandAt(tok, i); tok[2 * i].e)
  }

  /** The pairs (op, operand) that follow the first operand of a chain, as tokens. */
  function Interleave(op: string, rest: seq<Expr>): (r: seq<Tok>)
    ensures |r| == 2 * |rest|
  {
    if rest == [] then [] else [TOp(op), TExpr(rest[0])] + Interleave(op, rest[1..])
  }

  /** The token list the infix level hands to its action for e0 op rest[0] op rest[1] ... */
  function ChainTokens(op: string, e0: Expr, rest: seq<Expr>): (r: seq<Tok>)
  {
    [TExpr(e0)] + Interleave(op, rest)
  }

  lemma {:induction false} InterleaveAt(op: string, rest: seq<Expr>, k: nat)
    requires k < 2 * |rest|
    ensures Interleave(op, rest)[k] == if k % 2 == 0 then TOp(op) else TExpr(rest[k / 2])
    decreases |rest|
  {
    var t := Interleave(op, rest);
    assert t == [TOp(op), TExpr(rest[0])] + Interleave(op, rest[1..]);
    if k >= 2 {
      InterleaveAt(op, rest[1..], k - 2);
      assert t[k] == Interleave(op, rest[1..])[k - 2];
    }
  }

  /** The tokens of a chain alternate operand and operator, and the operands are e0, rest[0], ... in order. */
  lemma ChainTokensAt(op: string, e0: Expr, rest: seq<Expr>, k: nat)
    requires k < |ChainTokens(op, e0, rest)|
    ensures |ChainTokens(op, e0, rest)| == 2 * |rest| + 1
    ensures ChainTokens(op, e0, rest)[k] == if k % 2 == 0 then TExpr(([e0] + rest)[k / 2]) else TOp(op)
  {
    if k > 0 {
      InterleaveAt(op, rest, k - 1);
    }
  }

  lemma ChainOperandAt(op: string, e0: Expr, rest: seq<Expr>, i: nat)
    requires i <= |rest|
    ensures 2 * i < |ChainTokens(op, e0, rest)| && ChainTokens(op, e0, rest)[2 * i] == TExpr(([e0] + rest)[i])
  {
    assert (2 * i) % 2 == 0 && (2 * i) / 2 == i;
    ChainTokensAt(op, e0, rest, 2 * i);
  }

  lemma ChainTokensShaped(op: string, e0: Expr, rest: seq<Expr>)
    requires rest != [] && OpName(op).Some?
    ensures ChainShaped(ChainTokens(op, e0, rest))
  {
    var tok := ChainTokens(op, e0, rest);
    ChainTokensAt(op, e0, rest, 1);
    forall i | 0 <= i < |tok| && i % 2 == 0 ensures tok[i].TExpr? {
      ChainTokensAt(op, e0, rest, i);
    }
  }

  /** Building a chain and applying to_json_operator gives back exactly its operands, named by the operator. */
  lemma ChainOperator(op: string, e0: Expr, rest: seq<Expr>)
    requires rest != [] && OpName(op).Some?
    ensures ChainShaped(ChainTokens(op, e0, rest))
    ensures ToJsonOperator(ChainTokens(op, e0, rest)) == Op(OpName(op).value, [e0] + rest)
  {
    var tok := ChainTokens(op, e0, rest);
    ChainTokensShaped(op, e0, rest);
    ChainTokensAt(op, e0, rest, 1);
    var r := ToJsonOperator(tok);
    var all := [e0] + rest;
    assert |r.args| == |all|;
    forall i | 0 <= i < |r.args| ensures r.args[i] == all[i] {
      ChainOperandAt(op, e0, rest, i);
    }
  }

  /**
    `to_json_call`: the name lower-cased; the parameters absent when there
    are none, the single parameter itself when there is one, the list otherwise.
   */
  function ToJsonCall(op: string, params: seq<Expr>): (r: Expr)
    ensures r.Call? && r.fn == LowerStr(op) && NodeKeys(r) == {LowerStr(op)}
    ensures r.params.NoParams? <==> |params| == 0
    ensures r.params.One? <==> |params| == 1
    ensures ParamList(r.params) == params
  {
    Call(LowerStr(op),
      if |params| == 0 then NoParams
      else if |params| == 1 then One(params[0])
      else Many(params))
  }

  /** `to_when_call`: the {"when", "then"} node of one CASE branch. */
  function ToWhenCall(cond: Expr, result: Expr): (r: Expr)
    ensures NodeKeys(r) == {"when", "then"}
    ensures r.When? && r.cond == cond && r.result == result
  {
    When(cond, result)
  }

  /** `to_case_call`: the branches in order, then the else expression as the last element when there is one. */
  function ToCaseCall(whens: seq<Expr>, elseExpr: Option<Expr>): (r: Expr)
    ensures r.Case? && NodeKeys(r) == {"case"}
    ensures |r.cases| == |whens| + (if elseExpr.Some? then 1 else 0)
    ensures r.cases[..|whens|] == whens
    ensures elseExpr.Some? ==> r.cases[|whens|] == elseExpr.value
  {
    Case(if elseExpr.Some? then whens + [elseExpr.value] else whens)
  }

  /** `to_join_call`: the join keyword keyed to the table, plus an "on" key exactly when a condition was parsed. */
  function ToJoinCall(op: string, table: TableRef, on: Option<Expr>): (r: Join)
    ensures r.op == op && r.table == table && r.on == on
    ensures JoinKeys(r) == {op} + (if on.Some? then {"on"} else {})
    ensures op != "on" ==> ("on" in JoinKeys(r) <==> on.Some?)
  {
    Join(op, table, on)
  }
}
