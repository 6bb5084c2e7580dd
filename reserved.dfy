/**
  The reserved-word and operator tables of moz_sql_parser/sql_parser.py
  (`keywords`, `KNOWN_OPS`, `RESERVED`), the character classes the grammar
  uses, and the matching rules of its `Literal` and `Keyword` terminals.
  Characters are treated as ASCII: only 'A'..'Z' and 'a'..'z' change case.
 */
module Reserved {
  import opened Syntax

  /** One entry of KNOWN_OPS: the operator text, its node name, and whether it is a Keyword (else a Literal). */
  datatype OpEntry = OpEntry(op: string, name: string, keyword: bool)

  const Keywords: seq<string> := [
    "select", "from", "where", "group by", "order by", "having", "with", "as", "desc",
    "case", "when", "then", "else", "end", "on", "cross join", "inner join", "join"]

  /** In binding order: an earlier entry binds tighter. */
  const KnownOps: seq<OpEntry> := [
    OpEntry("*", "mult", false),
    OpEntry("/", "div", false),
    OpEntry("+", "add", false),
    OpEntry("-", "sub", false),
    OpEntry("=", "eq", false),
    OpEntry("==", "eq", false),
    OpEntry("!=", "neq", false),
    OpEntry("<>", "neq", false),
    OpEntry(">", "gt", false),
    OpEntry("<", "lt", false),
    OpEntry(">=", "gte", false),
    OpEntry("<=", "lte", false),
    OpEntry("in", "in", true),
    OpEntry("and", "and", true),
    OpEntry("or", "or", true)]

  predicate IsUpper(c: char) { 'A' <= c <= 'Z' }
  predicate IsLower(c: char) { 'a' <= c <= 'z' }
  predicate IsAlpha(c: char) { IsUpper(c) || IsLower(c) }
  predicate IsDigit(c: char) { '0' <= c <= '9' }

  /** pyparsing's default keyword characters: letters, digits, '_' and '$'. */
  predicate IsIdentChar(c: char) { IsAlpha(c) || IsDigit(c) || c == '_' || c == '$' }

  /** The whitespace pyparsing skips by default. */
  predicate IsWhite(c: char) { c == ' ' || c == '\t' || c == '\n' || c == '\r' }

  function ToUpper(c: char): char { if IsLower(c) then (c as int - 32) as char else c }
  function ToLower(c: char): char { if IsUpper(c) then (c as int + 32) as char else c }

  function UpperStr(s: string): (r: string)
    ensures |r| == |s| && forall i :: 0 <= i < |s| ==> r[i] == ToUpper(s[i])
  {
    if s == [] then [] else [ToUpper(s[0])] + UpperStr(s[1..])
  }

  function LowerStr(s: string): (r: string)
    ensures |r| == |s| && forall i :: 0 <= i < |s| ==> r[i] == ToLower(s[i])
  {
    if s == [] then [] else [ToLower(s[0])] + LowerStr(s[1..])
  }

  /** A `Literal(t)` matches at p when the input continues with exactly t. */
  predicate LiteralAt(s: string, p: nat, t: string)
  {
    p + |t| <= |s| && s[p..p + |t|] == t
  }

  /**
    A `Keyword(k)` matches at p when the input continues with k (compared in
    upper case when caseless) and neither the character after the match nor
    the character before p is a keyword character.
   */
  predicate KeywordAt(s: string, p: nat, k: string, caseless: bool)
  {
    && p + |k| <= |s|
    && (if caseless then UpperStr(s[p..p + |k|]) == UpperStr(k) else s[p..p + |k|] == k)
    && (p + |k| == |s| || !IsIdentChar(s[p + |k|]))
    && (p == 0 || !IsIdentChar(s[p - 1]))
  }

  /** The terminal a KNOWN_OPS entry stands for matches at p. */
  predicate OpAt(s: string, p: nat, o: OpEntry)
  {
    if o.keyword then KeywordAt(s, p, o.op, false) else LiteralAt(s, p, o.op)
  }

  /** `RESERVED`: some caseless keyword or some operator terminal matches at p. */
  predicate ReservedAt(s: string, p: nat)
  {
    || (exists i :: 0 <= i < |Keywords| && KeywordAt(s, p, Keywords[i], true))
    || (exists i :: 0 <= i < |KnownOps| && OpAt(s, p, KnownOps[i]))
  }

  /** The name of the first KNOWN_OPS entry whose operator text is op. */
  function OpName(op: string): Option<string>
  {
    FirstName(op, 0)
  }

  function FirstName(op: string, from: nat): Option<string>
    requires from <= |KnownOps|
    decreases |KnownOps| - from
  {
    if from == |KnownOps| then None
    else if KnownOps[from].op == op then Some(KnownOps[from].name)
    else FirstName(op, from + 1)
  }

  /** The first index of KNOWN_OPS whose node name is name (the tightest level that builds such a node). */
  function MinLevel(name: string): (r: nat)
    ensures r <= |KnownOps|
    ensures r < |KnownOps| ==> KnownOps[r].name == name
    ensures forall i :: 0 <= i < r ==> KnownOps[i].name != name
  {
    FirstLevel(name, 0)
  }

  function FirstLevel(name: string, from: nat): (r: nat)
    requires from <= |KnownOps|
    ensures from <= r <= |KnownOps|
    ensures r < |KnownOps| ==> KnownOps[r].name == name
    ensures forall i :: from <= i < r ==> KnownOps[i].name != name
    decreases |KnownOps| - from
  {
    if from == |KnownOps| then from
    else if KnownOps[from].name == name then from
    else FirstLevel(name, from + 1)
  }

  /** The last index of KNOWN_OPS whose node name is name, or -1 when there is none. */
  function MaxLevel(name: string): (r: int)
    ensures -1 <= r < |KnownOps|
    ensures r >= 0 ==> KnownOps[r].name == name
    ensures forall i :: r < i < |KnownOps| ==> KnownOps[i].name != name
  {
    LastLevel(name, |KnownOps|)
  }

  function LastLevel(name: string, upto: nat): (r: int)
    requires upto <= |KnownOps|
    ensures -1 <= r < upto
    ensures r >= 0 ==> KnownOps[r].name == name
    ensures forall i :: r < i < upto ==> KnownOps[i].name != name
  {
    if upto == 0 then -1
    else if KnownOps[upto - 1].name == name then upto - 1
    else LastLevel(name, upto - 1)
  }

  /** Entries lo..hi - 1 with another operator text do not change the lookup. */
  lemma {:induction false} FirstNameSkips(op: string, lo: nat, hi: nat)
    requires lo <= hi <= |KnownOps|
    requires forall i :: lo <= i < hi ==> KnownOps[i].op != op
    ensures FirstName(op, lo) == FirstName(op, hi)
    decreases hi - lo
  {
    if lo < hi {
      FirstNameSkips(op, lo + 1, hi);
    }
  }

  /** Each operator text occurs once in KNOWN_OPS, so its lookup finds its own entry. */
  lemma KnownOpName(j: nat)
    requires j < |KnownOps|
    ensures KnownOps[j].op != []
    ensures OpName(KnownOps[j].op) == Some(KnownOps[j].name)
  {
    FirstNameSkips(KnownOps[j].op, 0, j);
  }
}
