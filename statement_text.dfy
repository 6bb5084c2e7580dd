/**
  The text of a worked statement, character by character: where it skips
  layout and where its keywords match.
 */
module StatementText {
  import opened Reserved
  import opened Lexer

  lemma SkipAtLetter(s: string, p: nat)
    requires p < |s| && IsAlpha(s[p])
    ensures Skip(s, p) == p
  {
  }

  lemma SkipSpace(s: string, p: nat)
    requires p + 1 < |s| && s[p] == ' ' && IsAlpha(s[p + 1])
    ensures Skip(s, p) == p + 1
  {
    SkipAtLetter(s, p + 1);
  }

  /** The upper-case spelling of a keyword, between spaces or the ends of the input, matches it. */
  lemma UpperKeyword(s: string, q: nat, k: string)
    requires q + |k| <= |s| && s[q..q + |k|] == UpperStr(k)
    requires (q + |k| == |s| || s[q + |k|] == ' ') && (q == 0 || s[q - 1] == ' ')
    ensures KeywordAt(s, q, k, true)
  {
    assert UpperStr(UpperStr(k)) == UpperStr(k);
  }

  /** The words of SELECT a FROM t JOIN u ON b ORDER BY c DESC and the single spaces between them. */
  ghost predicate JoinStatementShape(s: string)
  {
    && |s| == 43
    && s[0..6] == "SELECT" && s[9..13] == "FROM" && s[16..20] == "JOIN" && s[23..25] == "ON"
    && s[28..36] == "ORDER BY" && s[39..43] == "DESC"
    && s[7] == 'a' && s[14] == 't' && s[21] == 'u' && s[26] == 'b' && s[37] == 'c'
    && s[6] == ' ' && s[8] == ' ' && s[13] == ' ' && s[15] == ' ' && s[20] == ' '
    && s[22] == ' ' && s[25] == ' ' && s[27] == ' ' && s[36] == ' ' && s[38] == ' '
  }

  lemma JoinStatementText(s: string)
    requires s == "SELECT a FROM t JOIN u ON b ORDER BY c DESC"
    ensures JoinStatementShape(s) && '\t' !in s
  {
    JoinStatementPieces(s);
    JoinStatementWords(s, "SELECT a ", "FROM t ", "JOIN u ON b ", "ORDER BY c DESC");
    JoinStatementGaps(s, "SELECT a ", "FROM t ", "JOIN u ON b ", "ORDER BY c DESC");
  }

  lemma JoinStatementPieces(s: string)
    requires s == "SELECT a FROM t JOIN u ON b ORDER BY c DESC"
    ensures s == "SELECT a " + "FROM t " + "JOIN u ON b " + "ORDER BY c DESC"
  {
  }

  lemma JoinStatementWords(s: string, a: string, b: string, c: string, d: string)
    requires a == "SELECT a " && b == "FROM t " && c == "JOIN u ON b " && d == "ORDER BY c DESC"
    requires s == a + b + c + d
    ensures |s| == 43
    ensures s[0..6] == "SELECT" && s[9..13] == "FROM" && s[16..20] == "JOIN" && s[23..25] == "ON"
    ensures s[28..36] == "ORDER BY" && s[39..43] == "DESC"
  {
    assert s[..9] == a && s[9..16] == b && s[16..28] == c && s[28..] == d;
    assert s[0..6] == a[0..6] && s[9..13] == b[0..4] && s[16..20] == c[0..4] && s[23..25] == c[7..9];
    assert s[28..36] == d[0..8] && s[39..43] == d[11..15];
  }

  lemma JoinStatementGaps(s: string, a: string, b: string, c: string, d: string)
    requires a == "SELECT a " && b == "FROM t " && c == "JOIN u ON b " && d == "ORDER BY c DESC"
    requires s == a + b + c + d
    ensures s[7] == 'a' && s[14] == 't' && s[21] == 'u' && s[26] == 'b' && s[37] == 'c'
    ensures s[6] == ' ' && s[8] == ' ' && s[13] == ' ' && s[15] == ' ' && s[20] == ' '
    ensures s[22] == ' ' && s[25] == ' ' && s[27] == ' ' && s[36] == ' ' && s[38] == ' '
    ensures '\t' !in s
  {
    assert s[..9] == a && s[9..16] == b && s[16..28] == c && s[28..] == d;
    assert '\t' !in a && '\t' !in b && '\t' !in c && '\t' !in d;
  }

  /** The upper-case spellings of the statement's keywords. */
  lemma UpperKeywords()
    ensures UpperStr("select") == "SELECT" && UpperStr("from") == "FROM" && UpperStr("join") == "JOIN"
  {
  }

  lemma UpperShortKeywords()
    ensures UpperStr("on") == "ON" && UpperStr("desc") == "DESC"
  {
  }

  lemma UpperOrderBy()
    ensures UpperStr("order by") == "ORDER BY"
  {
  }

  lemma JoinStatementKeywords(s: string)
    requires JoinStatementShape(s)
    ensures KeywordAt(s, 0, "select", true) && KeywordAt(s, 9, "from", true)
    ensures KeywordAt(s, 16, "join", true) && KeywordAt(s, 23, "on", true)
    ensures KeywordAt(s, 28, "order by", true) && KeywordAt(s, 39, "desc", true)
  {
    UpperKeywords();
    UpperShortKeywords();
    UpperOrderBy();
    UpperKeyword(s, 0, "select");
    UpperKeyword(s, 9, "from");
    UpperKeyword(s, 16, "join");
    UpperKeyword(s, 23, "on");
    UpperKeyword(s, 28, "order by");
    UpperKeyword(s, 39, "desc");
  }

  lemma JoinStatementSkips(s: string)
    requires JoinStatementShape(s)
    ensures s[9] == 'F' && s[16] == 'J' && s[23] == 'O' && s[28] == 'O' && s[39] == 'D'
    ensures Skip(s, 0) == 0 && Skip(s, 6) == 7 && Skip(s, 8) == 9 && Skip(s, 13) == 14
    ensures Skip(s, 15) == 16 && Skip(s, 20) == 21 && Skip(s, 22) == 23 && Skip(s, 25) == 26
    ensures Skip(s, 27) == 28 && Skip(s, 36) == 37 && Skip(s, 38) == 39 && Skip(s, 43) == 43
  {
    assert s[0] == s[0..6][0] && s[9] == s[9..13][0] && s[16] == s[16..20][0];
    assert s[23] == s[23..25][0] && s[28] == s[28..36][0] && s[39] == s[39..43][0];
    SkipAtLetter(s, 0);
    SkipSpace(s, 6);
    SkipSpace(s, 8);
    SkipSpace(s, 13);
    SkipSpace(s, 15);
    SkipSpace(s, 20);
    SkipSpace(s, 22);
    SkipSpace(s, 25);
    SkipSpace(s, 27);
    SkipSpace(s, 36);
    SkipSpace(s, 38);
  }

  /** The layout before FROM, JOIN and ON, and these keywords, each starting with a letter other than A. */
  lemma JoinStatementKeywordSkips(s: string)
    requires JoinStatementShape(s)
    ensures Skip(s, 8) == 9 && Skip(s, 15) == 16 && Skip(s, 22) == 23
    ensures s[9] == 'F' && s[16] == 'J' && s[23] == 'O'
    ensures KeywordAt(s, 9, "from", true) && KeywordAt(s, 16, "join", true) && KeywordAt(s, 23, "on", true)
  {
    assert s[9] == s[9..13][0] && s[16] == s[16..20][0] && s[23] == s[23..25][0];
    SkipSpace(s, 8);
    SkipSpace(s, 15);
    SkipSpace(s, 22);
    UpperKeywords();
    UpperShortKeywords();
    UpperKeyword(s, 9, "from");
    UpperKeyword(s, 16, "join");
    UpperKeyword(s, 23, "on");
  }
}
