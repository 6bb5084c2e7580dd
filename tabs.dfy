/**
  The tab expansion `parseString` applies to its input before the grammar
  of moz_sql_parser/sql_parser.py sees it: Python's `str.expandtabs()` with
  tab stops every 8 columns, where a line feed or carriage return starts
  column 0 again.
 */
module Tabs {

  /** n spaces. */
  function Spaces(n: nat): (r: string)
    ensures |r| == n && forall k :: 0 <= k < n ==> r[k] == ' '
  {
    seq(n, _ => ' ')
  }

  /**
    `str.expandtabs()`, which `parseString` applies to its input first: a
    tab becomes the spaces up to the next multiple of 8 columns. col is the
    column of s[0]; a line break or carriage return starts column 0 again.
   */
  function ExpandTabs(s: string, col: nat): (r: string)
    ensures '\t' !in r
    ensures |r| >= |s|
    decreases |s|
  {
    if s == [] then []
    else ExpandChar(s[0], col) + ExpandTabs(s[1..], NextColumn(s[0], col))
  }

  /** Text without tabs is left as it is. */
  lemma {:induction false} ExpandTabsNoTab(s: string, col: nat)
    ensures '\t' !in s ==> ExpandTabs(s, col) == s
    decreases |s|
  {
    if s != [] && '\t' !in s {
      assert s[0] in s;
      assert forall k :: 0 <= k < |s| - 1 ==> s[1..][k] == s[k + 1];
      ExpandTabsNoTab(s[1..], NextColumn(s[0], col));
    }
  }

  /** What one character at column col expands to. */
  function ExpandChar(ch: char, col: nat): (r: string)
    ensures ch != '\t' ==> r == [ch]
    ensures ch == '\t' ==> 1 <= |r| <= 8 && forall k :: 0 <= k < |r| ==> r[k] == ' '
  {
    if ch == '\t' then Spaces(8 - col % 8) else [ch]
  }

  /** The column after ch at column col, in the expanded text. */
  function NextColumn(ch: char, col: nat): (c: nat)
    ensures ch == '\t' ==> c % 8 == 0 && col < c <= col + 8
    ensures ch != '\t' ==> c == if ch == '\n' || ch == '\r' then 0 else col + 1
  {
    if ch == '\t' then col + (8 - col % 8)
    else if ch == '\n' || ch == '\r' then 0 else col + 1
  }

  /** The column after text t when its first character is at column col. */
  function EndColumn(col: nat, t: string): nat
    decreases |t|
  {
    if t == [] then col
    else EndColumn(if t[0] == '\n' || t[0] == '\r' then 0 else col + 1, t[1..])
  }

  /** On one line the column advances by one per character. */
  lemma {:induction false} EndColumnOnLine(col: nat, t: string)
    requires '\n' !in t && '\r' !in t
    ensures EndColumn(col, t) == col + |t|
    decreases |t|
  {
    if t != [] {
      assert t[0] in t;
      assert forall k :: 0 <= k < |t| - 1 ==> t[1..][k] == t[k + 1];
      EndColumnOnLine(col + 1, t[1..]);
    }
  }

  lemma {:induction false} EndColumnAppend(col: nat, a: string, b: string)
    ensures EndColumn(col, a + b) == EndColumn(EndColumn(col, a), b)
    decreases |a|
  {
    if a == [] {
      assert a + b == b;
    } else {
      assert (a + b)[0] == a[0] && (a + b)[1..] == a[1..] + b;
      EndColumnAppend(if a[0] == '\n' || a[0] == '\r' then 0 else col + 1, a[1..], b);
    }
  }

  lemma {:induction false} SpacesEndColumn(n: nat, col: nat)
    ensures EndColumn(col, Spaces(n)) == col + n
  {
    assert '\n' !in Spaces(n) && '\r' !in Spaces(n) by {
      assert forall k :: 0 <= k < n ==> Spaces(n)[k] == ' ';
    }
    EndColumnOnLine(col, Spaces(n));
  }

  /**
    Expanding s + t is expanding s, then expanding t from the column the
    expanded s ends at.
   */
  lemma {:induction false} ExpandTabsAppend(s: string, t: string, col: nat)
    ensures ExpandTabs(s + t, col) == ExpandTabs(s, col) + ExpandTabs(t, EndColumn(col, ExpandTabs(s, col)))
    decreases |s|
  {
    if s == [] {
      assert s + t == t;
    } else {
      assert (s + t)[0] == s[0] && (s + t)[1..] == s[1..] + t;
      var h := ExpandChar(s[0], col);
      var c := NextColumn(s[0], col);
      var e1 := ExpandTabs(s[1..], c);
      assert ExpandTabs(s, col) == h + e1;
      assert ExpandTabs(s + t, col) == h + ExpandTabs(s[1..] + t, c);
      ExpandCharEndColumn(s[0], col);
      ExpandTabsAppend(s[1..], t, c);
      EndColumnAppend(col, h, e1);
      assert h + (e1 + ExpandTabs(t, EndColumn(c, e1))) == (h + e1) + ExpandTabs(t, EndColumn(c, e1));
    }
  }

  /** The column after one expanded character is NextColumn. */
  lemma ExpandCharEndColumn(ch: char, col: nat)
    ensures EndColumn(col, ExpandChar(ch, col)) == NextColumn(ch, col)
  {
    if ch == '\t' {
      SpacesEndColumn(8 - col % 8, col);
    } else {
      assert [ch][1..] == [];
    }
  }

  /**
    Read from the left: a tab after s becomes the spaces from the column
    the expanded s ends at up to the next multiple of 8, landing on a tab
    stop, and any other character is kept as it is.
   */
  lemma {:induction false} ExpandTabsSnoc(s: string, ch: char, col: nat)
    ensures var c := EndColumn(col, ExpandTabs(s, col));
      ExpandTabs(s + [ch], col) ==
        ExpandTabs(s, col) + (if ch == '\t' then Spaces(8 - c % 8) else [ch])
    ensures ch == '\t' ==> EndColumn(col, ExpandTabs(s + [ch], col)) % 8 == 0
  {
    var e := ExpandTabs(s, col);
    var c := EndColumn(col, e);
    ExpandTabsAppend(s, [ch], col);
    assert ExpandTabs([ch], c) == ExpandChar(ch, c) + ExpandTabs([], NextColumn(ch, c));
    if ch == '\t' {
      EndColumnAppend(col, e, ExpandChar(ch, c));
      ExpandCharEndColumn(ch, c);
    }
  }

  /** On a single line, text ending in a tab expands to a multiple of 8 columns from col. */
  lemma {:induction false} TabStop(s: string, col: nat)
    requires s != [] && s[|s| - 1] == '\t'
    ensures '\n' !in s && '\r' !in s ==> (col + |ExpandTabs(s, col)|) % 8 == 0
    ensures EndColumn(col, ExpandTabs(s, col)) % 8 == 0
  {
    var init := s[..|s| - 1];
    assert s == init + ['\t'];
    ExpandTabsSnoc(init, '\t', col);
    if '\n' !in s && '\r' !in s {
      ExpandTabsNoBreak(s, col);
      EndColumnOnLine(col, ExpandTabs(s, col));
    }
  }

  lemma {:induction false} ExpandTabsNoBreak(s: string, col: nat)
    requires '\n' !in s && '\r' !in s
    ensures '\n' !in ExpandTabs(s, col) && '\r' !in ExpandTabs(s, col)
    decreases |s|
  {
    if s != [] {
      assert s[0] in s;
      assert forall k :: 0 <= k < |s| - 1 ==> s[1..][k] == s[k + 1];
      ExpandTabsNoBreak(s[1..], NextColumn(s[0], col));
    }
  }

  /** s without its spaces and tabs. */
  function Ink(s: string): (r: string)
    ensures |r| <= |s|
    ensures ' ' !in r && '\t' !in r
    decreases |s|
  {
    if s == [] then []
    else if s[0] == ' ' || s[0] == '\t' then Ink(s[1..])
    else [s[0]] + Ink(s[1..])
  }

  lemma {:induction false} InkSpaces(n: nat, t: string)
    ensures Ink(Spaces(n) + t) == Ink(t)
  {
    if n == 0 {
      assert Spaces(n) + t == t;
    } else {
      assert (Spaces(n) + t)[0] == ' ';
      assert (Spaces(n) + t)[1..] == Spaces(n - 1) + t;
      InkSpaces(n - 1, t);
    }
  }

  /** Tab expansion keeps every character other than spaces and tabs, in order. */
  lemma {:induction false} ExpandTabsInk(s: string, col: nat)
    ensures Ink(ExpandTabs(s, col)) == Ink(s)
    decreases |s|
  {
    if s != [] {
      var c := NextColumn(s[0], col);
      var e1 := ExpandTabs(s[1..], c);
      ExpandTabsInk(s[1..], c);
      if s[0] == '\t' {
        InkSpaces(8 - col % 8, e1);
      } else {
        var r := [s[0]] + e1;
        assert r[0] == s[0] && r[1..] == e1;
      }
    }
  }
}
