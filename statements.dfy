/**
  Whole clauses and statements: one-letter names between upper-case
  keywords, the clause productions over them, and a worked SELECT with a
  join and a descending sort column.
 */
module Statements {
  import opened Syntax
  import opened Reserved
  import opened Lexer
  import opened Actions
  import opened Parser
  import opened Properties
  import opened StatementText

  // ---------------------------------------------------------------------
  // One-letter names.

  /** A keyword whose second character is a letter does not match a one-letter word. */
  lemma OneLetterNoKeyword(s: string, q: nat, k: string, caseless: bool)
    requires q < |s| && (q + 1 == |s| || !IsAlpha(s[q + 1]))
    requires |k| >= 2 && IsAlpha(k[1])
    ensures !KeywordAt(s, q, k, caseless)
  {
    if q + |k| <= |s| {
      assert UpperStr(s[q..q + |k|])[1] == ToUpper(s[q + 1]);
      assert s[q..q + |k|][1] == s[q + 1];
    }
  }

  /** No keyword and no operator starts a one-letter word. */
  lemma OneLetterNotReserved(s: string, q: nat)
    requires q < |s| && IsAlpha(s[q]) && (q + 1 == |s| || !IsAlpha(s[q + 1]))
    ensures !ReservedAt(s, q)
  {
    forall i | 0 <= i < |Keywords| ensures !KeywordAt(s, q, Keywords[i], true) {
      OneLetterNoKeyword(s, q, Keywords[i], true);
    }
    forall i | 0 <= i < |KnownOps| ensures !OpAt(s, q, KnownOps[i]) {
      if KnownOps[i].keyword {
        OneLetterNoKeyword(s, q, KnownOps[i].op, false);
      } else if q + |KnownOps[i].op| <= |s| {
        assert s[q..q + |KnownOps[i].op|][0] == s[q];
      }
    }
  }

  /** No operator starts at an upper-case letter or at the end of the input: `in`, `and` and `or` are lower case. */
  lemma NoOperatorAt(s: string, p: nat)
    requires p <= |s| && (Skip(s, p) == |s| || IsUpper(s[Skip(s, p)]))
    ensures forall i :: 0 <= i < |KnownOps| ==> OpTok(s, p, KnownOps[i]).None?
  {
    var q := Skip(s, p);
    forall i | 0 <= i < |KnownOps| ensures !OpAt(s, q, KnownOps[i]) {
      if q + |KnownOps[i].op| <= |s| {
        assert s[q..q + |KnownOps[i].op|][0] == s[q];
      }
    }
  }

  /** A letter followed by whitespace is the identifier of that letter. */
  lemma LetterScan(s: string, q: nat)
    requires q + 1 < |s| && IsAlpha(s[q]) && IsWhite(s[q + 1])
    ensures ScanIdent(s, q) == Some(Token([s[q]], q + 1))
  {
    OneLetterNotReserved(s, q);
    assert IdentCharsEnd(s, q + 1) == q + 1;
    assert s[q..q + 1] == [s[q]];
  }

  lemma LetterIdent(s: string, p: nat, q: nat)
    requires p <= |s| && q == Skip(s, p) && q + 1 < |s| && IsAlpha(s[q]) && IsWhite(s[q + 1])
    ensures ParseIdent(s, p) == Ok([s[q]], q + 1)
  {
    LetterScan(s, q);
  }

  /** A one-letter word starts none of the nested alternatives. */
  lemma LetterNotNested(s: string, p: nat, q: nat)
    requires p <= |s| && q == Skip(s, p) && q + 1 < |s| && IsAlpha(s[q]) && IsWhite(s[q + 1])
    ensures ParseNested(s, p).Fail?
  {
    OneLetterNoKeyword(s, q, "not", true);
    OneLetterNoKeyword(s, q, "distinct", true);
    OneLetterNoKeyword(s, q, "case", true);
    OneLetterNoKeyword(s, q, "select", true);
    WordNotNested(s, p, q);
  }

  /** A one-letter word followed by an upper-case word is an identifier atom, not a call. */
  lemma LetterAtom(s: string, p: nat, q: nat)
    requires p <= |s| && q == Skip(s, p) && q + 1 < |s| && IsAlpha(s[q]) && IsWhite(s[q + 1])
    requires Skip(s, q + 1) < |s| && IsUpper(s[Skip(s, q + 1)])
    ensures ParseAtom(s, p) == Ok(Id([s[q]]), q + 1)
  {
    NoNumberAt(s, q);
    LetterScan(s, q);
    assert AlphasEnd(s, q) == q + 1;
    assert !LiteralAt(s, Skip(s, q + 1), "(");
  }

  /**
    A one-letter name followed by whitespace and an upper-case word is a
    whole expression: the identifier of that letter, with no operator after it.
   */
  lemma LetterExpr(s: string, p: nat, q: nat)
    requires p <= |s| && q == Skip(s, p) && q + 1 < |s| && IsAlpha(s[q]) && IsWhite(s[q + 1])
    requires Skip(s, q + 1) < |s| && IsUpper(s[Skip(s, q + 1)])
    ensures ParseExpr(s, p) == Ok(Id([s[q]]), q + 1)
  {
    LetterPrimary(s, p, q);
    NoOperatorAt(s, q + 1);
    OperandThrough(s, p, Id([s[q]]), q + 1, |KnownOps|);
  }

  lemma LetterPrimary(s: string, p: nat, q: nat)
    requires p <= |s| && q == Skip(s, p) && q + 1 < |s| && IsAlpha(s[q]) && IsWhite(s[q + 1])
    requires Skip(s, q + 1) < |s| && IsUpper(s[Skip(s, q + 1)])
    ensures ParseLevel(s, p, 0) == Ok(Id([s[q]]), q + 1)
  {
    LetterNotNested(s, p, q);
    LetterAtom(s, p, q);
  }

  // ---------------------------------------------------------------------
  // Clauses.

  /**
    An upper-case keyword whose first letter is not A, where an alias could
    start: there is no alias, AS is not there, and neither is a comma.
   */
  lemma NoAliasBeforeKeyword(s: string, p: nat, i: nat)
    requires p <= |s| && i < |Keywords| && KeywordAt(s, Skip(s, p), Keywords[i], true)
    requires Skip(s, p) < |s| && IsUpper(s[Skip(s, p)]) && s[Skip(s, p)] != 'A'
    ensures AfterAs(s, p) == p && ParseIdent(s, p).Fail?
    ensures Lit(s, p, ",").None?
  {
    KeywordIsNotIdent(s, p, i);
    NoAsAt(s, p);
  }

  /** Where the next token starts with an upper-case letter other than A, there is neither AS nor a comma. */
  lemma NoAsAt(s: string, p: nat)
    requires p <= |s| && Skip(s, p) < |s| && IsUpper(s[Skip(s, p)]) && s[Skip(s, p)] != 'A'
    ensures AfterAs(s, p) == p && Lit(s, p, ",").None?
  {
    OtherFirstLetter(s, Skip(s, p), "as");
    assert !LiteralAt(s, Skip(s, p), ",");
  }

  /** An expression with no alias and no comma after it is the whole column list: one column, unnamed. */
  lemma ColumnList(s: string, p: nat, e: Expr, p1: nat)
    requires p <= |s| && ParseExpr(s, p) == Ok(e, p1)
    requires ParseIdent(s, AfterAs(s, p1)).Fail? && Lit(s, p1, ",").None?
    ensures ParseColumns(s, p) == Ok([Column(e, None)], p1)
  {
    assert ParseColumn(s, p) == Ok(Column(e, None), p1);
  }

  /** A name with no alias and no comma after it is the whole table list: one table, unnamed. */
  lemma TableList(s: string, p: nat, t: string, p1: nat)
    requires p <= |s| && ParseIdent(s, p) == Ok(t, p1)
    requires ParseIdent(s, AfterAs(s, p1)).Fail? && Lit(s, p1, ",").None?
    ensures ParseTable(s, p) == Ok(TableRef(t, None), p1)
    ensures ParseTables(s, p) == Ok([TableRef(t, None)], p1)
  {
  }

  /** A join keyword, a table, ON and an expression: a join with that condition. */
  lemma JoinWithOn(s: string, p: nat, op: string, p1: nat, t: TableRef, p2: nat, p3: nat, c: Expr, p4: nat)
    requires p <= |s| && JoinKeyword(s, p) == Some((op, p1))
    requires ParseTable(s, p1) == Ok(t, p2) && Kw(s, p2, "on") == Some(p3) && ParseExpr(s, p3) == Ok(c, p4)
    ensures ParseJoin(s, p) == Ok(Join(op, t, Some(c)), p4)
  {
  }

  /** A join after which no join keyword follows is the only join. */
  lemma SingleJoin(s: string, p: nat, j: Join, p1: nat)
    requires p <= |s| && ParseJoin(s, p) == Ok(j, p1) && JoinKeyword(s, p1).None?
    ensures ParseJoins(s, p) == ([j], p1)
  {
    assert ParseJoin(s, p1).Fail?;
    assert ParseJoins(s, p).0 == [j] && ParseJoins(s, p).1 == p1;
  }

  /** An expression followed by DESC and no comma is the whole sort list: one column, descending. */
  lemma SortList(s: string, p: nat, e: Expr, p1: nat, p2: nat)
    requires p <= |s| && ParseExpr(s, p) == Ok(e, p1)
    requires Kw(s, p1, "desc") == Some(p2) && Lit(s, p2, ",").None?
    ensures ParseSorts(s, p) == Ok([SortColumn(e, true)], p2)
  {
    assert ParseSort(s, p) == Ok(SortColumn(e, true), p2);
  }

  // ---------------------------------------------------------------------
  // A worked statement.

  /**
    SELECT a FROM t JOIN u ON b ORDER BY c DESC: one column without an
    alias, one table and one join with its condition, no WHERE, GROUP BY
    or HAVING, and one descending sort column; all of the text is consumed.
   */
  lemma JoinStatement(s: string)
    requires s == "SELECT a FROM t JOIN u ON b ORDER BY c DESC"
    ensures Parse(s) == Ok(Select([Column(Id("a"), None)],
                                  Some(FromClause([TableRef("t", None)], [Join("join", TableRef("u", None), Some(Id("b")))])),
                                  None, None, None, Some([SortColumn(Id("c"), true)])), 43)
  {
    JoinStatementText(s);
    JoinStatementSelect(s);
  }

  lemma JoinStatementSelect(s: string)
    requires JoinStatementShape(s)
    ensures ParseSelect(s, 0) == Ok(Select([Column(Id("a"), None)],
                                           Some(FromClause([TableRef("t", None)], [Join("join", TableRef("u", None), Some(Id("b")))])),
                                           None, None, None, Some([SortColumn(Id("c"), true)])), 43)
  {
    JoinStatementColumns(s);
    JoinStatementFrom(s);
    JoinStatementTail(s);
  }

  /** Where FROM follows the column, no alias and no comma does. */
  lemma JoinStatementNoAlias(s: string)
    requires JoinStatementShape(s)
    ensures AfterAs(s, 8) == 8 && ParseIdent(s, 8).Fail? && Lit(s, 8, ",").None?
  {
    JoinStatementKeywordSkips(s);
    assert Keywords[1] == "from";
    NoAliasBeforeKeyword(s, 8, 1);
  }

  /** Where JOIN follows the first table, no alias and no comma does. */
  lemma JoinStatementNoTableAlias(s: string)
    requires JoinStatementShape(s)
    ensures AfterAs(s, 15) == 15 && ParseIdent(s, 15).Fail? && Lit(s, 15, ",").None?
  {
    JoinStatementKeywordSkips(s);
    assert Keywords[17] == "join";
    NoAliasBeforeKeyword(s, 15, 17);
  }

  /** Where ON follows the joined table, no alias and no comma does. */
  lemma JoinStatementNoJoinAlias(s: string)
    requires JoinStatementShape(s)
    ensures AfterAs(s, 22) == 22 && ParseIdent(s, 22).Fail? && Lit(s, 22, ",").None?
  {
    JoinStatementKeywordSkips(s);
    assert Keywords[14] == "on";
    NoAliasBeforeKeyword(s, 22, 14);
  }

  /** The names a, b and c, each an identifier followed by an upper-case word. */
  lemma JoinStatementNames(s: string)
    requires JoinStatementShape(s)
    ensures ParseExpr(s, 6) == Ok(Id("a"), 8)
    ensures ParseExpr(s, 25) == Ok(Id("b"), 27)
    ensures ParseExpr(s, 36) == Ok(Id("c"), 38)
  {
    JoinStatementSkips(s);
    LetterExpr(s, 6, 7);
    LetterExpr(s, 25, 26);
    LetterExpr(s, 36, 37);
  }

  /** The tables t and u, each an identifier followed by whitespace. */
  lemma JoinStatementTableNames(s: string)
    requires JoinStatementShape(s)
    ensures ParseIdent(s, 13) == Ok("t", 15) && ParseIdent(s, 20) == Ok("u", 22)
  {
    JoinStatementSkips(s);
    LetterIdent(s, 13, 14);
    LetterIdent(s, 20, 21);
  }

  lemma JoinStatementColumns(s: string)
    requires JoinStatementShape(s)
    ensures Kw(s, 0, "select") == Some(6)
    ensures ParseColumns(s, 6) == Ok([Column(Id("a"), None)], 8)
  {
    JoinStatementKeywords(s);
    JoinStatementColumnList(s);
    assert Skip(s, 0) == 0 by { JoinStatementSkips(s); }
  }

  lemma JoinStatementColumnList(s: string)
    requires JoinStatementShape(s)
    ensures ParseColumns(s, 6) == Ok([Column(Id("a"), None)], 8)
  {
    JoinStatementNames(s);
    JoinStatementNoAlias(s);
    ColumnList(s, 6, Id("a"), 8);
  }

  lemma JoinStatementTables(s: string)
    requires JoinStatementShape(s)
    ensures Kw(s, 8, "from") == Some(13)
    ensures ParseTables(s, 13) == Ok([TableRef("t", None)], 15)
  {
    JoinStatementKeywordSkips(s);
    JoinStatementFirstTable(s);
  }

  lemma JoinStatementFirstTable(s: string)
    requires JoinStatementShape(s)
    ensures ParseTables(s, 13) == Ok([TableRef("t", None)], 15)
  {
    JoinStatementTableNames(s);
    JoinStatementNoTableAlias(s);
    TableList(s, 13, "t", 15);
  }

  lemma JoinStatementJoinTable(s: string)
    requires JoinStatementShape(s)
    ensures ParseTable(s, 20) == Ok(TableRef("u", None), 22)
  {
    JoinStatementTableNames(s);
    JoinStatementNoJoinAlias(s);
    TableList(s, 20, "u", 22);
  }

  lemma JoinStatementJoinKeywords(s: string)
    requires JoinStatementShape(s)
    ensures JoinKeyword(s, 15) == Some(("join", 20))
    ensures JoinKeyword(s, 27).None?
    ensures Kw(s, 22, "on") == Some(25)
  {
    JoinStatementSkips(s);
    JoinStatementKeywords(s);
    OtherFirstLetter(s, 16, "cross join");
    OtherFirstLetter(s, 16, "inner join");
    OtherFirstLetter(s, 28, "cross join");
    OtherFirstLetter(s, 28, "inner join");
    OtherFirstLetter(s, 28, "join");
  }

  lemma JoinStatementJoins(s: string)
    requires JoinStatementShape(s)
    ensures ParseJoins(s, 15) == ([Join("join", TableRef("u", None), Some(Id("b")))], 27)
  {
    JoinStatementJoinKeywords(s);
    JoinStatementJoinTable(s);
    JoinStatementNames(s);
    JoinWithOn(s, 15, "join", 20, TableRef("u", None), 22, 25, Id("b"), 27);
    SingleJoin(s, 15, Join("join", TableRef("u", None), Some(Id("b"))), 27);
  }

  lemma JoinStatementFrom(s: string)
    requires JoinStatementShape(s)
    ensures ParseFrom(s, 8) == (Some(FromClause([TableRef("t", None)], [Join("join", TableRef("u", None), Some(Id("b")))])), 27)
  {
    JoinStatementTables(s);
    JoinStatementJoins(s);
    var r := ParseFrom(s, 8);
    assert r.0 == Some(FromClause([TableRef("t", None)], [Join("join", TableRef("u", None), Some(Id("b")))]));
    assert r.1 == 27;
  }

  lemma JoinStatementSort(s: string)
    requires JoinStatementShape(s)
    ensures Kw(s, 27, "order by") == Some(36)
    ensures ParseSorts(s, 36) == Ok([SortColumn(Id("c"), true)], 43)
  {
    JoinStatementSkips(s);
    JoinStatementKeywords(s);
    JoinStatementNames(s);
    SortList(s, 36, Id("c"), 38, 43);
  }

  lemma JoinStatementTail(s: string)
    requires JoinStatementShape(s)
    ensures ParseKeyedExpr(s, 27, "where").0.None? && ParseGroupBy(s, 27).0.None?
    ensures ParseKeyedExpr(s, 27, "having").0.None?
    ensures ParseOrderBy(s, 27).0 == Some([SortColumn(Id("c"), true)]) && ParseOrderBy(s, 27).1 == 43
  {
    JoinStatementSkips(s);
    OtherFirstLetter(s, 28, "where");
    OtherFirstLetter(s, 28, "group by");
    OtherFirstLetter(s, 28, "having");
    JoinStatementSort(s);
  }
}
