/**
  Lexical rules of moz_sql_parser/sql_parser.py: whitespace and comment
  skipping, the numeric literals `realNum` and `intNum`, the quoted tokens
  `sqlString` and `identString` with the `unquote` action, and the
  unquoted/dotted identifier of `ident`.

  Every scanner here starts exactly at its position (the caller has skipped
  whitespace), like the pieces of a pyparsing `Combine`, and returns the
  token's value and the position just after it.
 */
module Lexer {
  import opened Syntax
  import opened Reserved

  datatype Token = Token(text: string, end: nat)

  /** A `--` or `#` comment starts at p. */
  predicate CommentAt(s: string, p: nat)
  {
    p < |s| && (s[p] == '#' || (p + 1 < |s| && s[p] == '-' && s[p + 1] == '-'))
  }

  /** The position of the first line break at or after p (or the end): `restOfLine`. */
  function LineEnd(s: string, p: nat): (r: nat)
    requires p <= |s|
    ensures p <= r <= |s|
    ensures r < |s| ==> s[r] == '\n'
    ensures forall k :: p <= k < r ==> s[k] != '\n'
    decreases |s| - p
  {
    if p == |s| || s[p] == '\n' then p else LineEnd(s, p + 1)
  }

  /** Whitespace and comments, skipped before every token of the grammar. */
  function Skip(s: string, p: nat): (r: nat)
    requires p <= |s|
    ensures p <= r <= |s|
    ensures r < |s| ==> !IsWhite(s[r])
    ensures !CommentAt(s, r)
    decreases |s| - p
  {
    if p < |s| && IsWhite(s[p]) then Skip(s, p + 1)
    else if CommentAt(s, p) then Skip(s, LineEnd(s, p))
    else p
  }

  /** Position k, at or after p, lies inside a comment that starts at or after p. */
  ghost predicate InComment(s: string, p: nat, k: nat)
  {
    exists c :: p <= c <= k && CommentAt(s, c) && k < LineEnd(s, c)
  }

  /** Every position of a line, up to its line break, has the same line end. */
  lemma {:induction false} SameLineEnd(s: string, p: nat, c: nat)
    requires p <= |s| && p <= c <= LineEnd(s, p)
    ensures LineEnd(s, c) == LineEnd(s, p)
    decreases c - p
  {
    if c > p {
      SameLineEnd(s, p + 1, c);
    }
  }

  /**
    What Skip passes over is layout and nothing else: every character it
    skips is whitespace or lies inside a comment, and a comment that starts
    in the skipped text runs to its line end before Skip stops.
   */
  lemma {:induction false} SkipOnlyLayout(s: string, p: nat)
    requires p <= |s|
    ensures forall k :: p <= k < Skip(s, p) ==> IsWhite(s[k]) || InComment(s, p, k)
    ensures forall c :: p <= c < Skip(s, p) && CommentAt(s, c) ==> LineEnd(s, c) <= Skip(s, p)
    decreases |s| - p
  {
    var r := Skip(s, p);
    if p < |s| && IsWhite(s[p]) {
      SkipOnlyLayout(s, p + 1);
      forall k | p <= k < r && !IsWhite(s[k]) ensures InComment(s, p, k) {
        assert InComment(s, p + 1, k);
        var c :| p + 1 <= c <= k && CommentAt(s, c) && k < LineEnd(s, c);
        assert p <= c;
      }
    } else if CommentAt(s, p) {
      var l := LineEnd(s, p);
      SkipOnlyLayout(s, l);
      forall k | p <= k < r && !IsWhite(s[k]) ensures InComment(s, p, k) {
        if k < l {
          assert p <= p <= k && CommentAt(s, p) && k < LineEnd(s, p);
        } else {
          assert InComment(s, l, k);
          var c :| l <= c <= k && CommentAt(s, c) && k < LineEnd(s, c);
          assert p <= c;
        }
      }
      forall c | p <= c < r && CommentAt(s, c) ensures LineEnd(s, c) <= r {
        if c < l {
          SameLineEnd(s, p, c);
        }
      }
    }
  }

  /** The end of the run of characters satisfying `Digit` that starts at i. */
  function DigitsEnd(s: string, i: nat): (r: nat)
    requires i <= |s|
    ensures i <= r <= |s|
    ensures forall k :: i <= k < r ==> IsDigit(s[k])
    ensures r < |s| ==> !IsDigit(s[r])
    decreases |s| - i
  {
    if i < |s| && IsDigit(s[i]) then DigitsEnd(s, i + 1) else i
  }

  /** The end of the run of keyword characters (letters, digits, '_', '$') that starts at i. */
  function IdentCharsEnd(s: string, i: nat): (r: nat)
    requires i <= |s|
    ensures i <= r <= |s|
    ensures forall k :: i <= k < r ==> IsIdentChar(s[k])
    ensures r < |s| ==> !IsIdentChar(s[r])
    decreases |s| - i
  {
    if i < |s| && IsIdentChar(s[i]) then IdentCharsEnd(s, i + 1) else i
  }

  /** The end of the run of letters that starts at i: `Word(alphas)` when it is past i. */
  function AlphasEnd(s: string, i: nat): (r: nat)
    requires i <= |s|
    ensures i <= r <= |s|
    ensures forall k :: i <= k < r ==> IsAlpha(s[k])
    ensures r < |s| ==> !IsAlpha(s[r])
    decreases |s| - i
  {
    if i < |s| && IsAlpha(s[i]) then AlphasEnd(s, i + 1) else i
  }

  predicate IsSign(c: char) { c == '+' || c == '-' }

  /**
    A complete exponent starts at m: 'e' or 'E', then a digit, or an allowed
    sign and a digit. `minus` says whether '-' is an allowed sign (it is in
    realNum, not in intNum).
   */
  predicate ExponentAt(s: string, m: nat, minus: bool)
  {
    m + 1 < |s| && (s[m] == 'e' || s[m] == 'E') &&
    (IsDigit(s[m + 1]) || (m + 2 < |s| && (s[m + 1] == '+' || (minus && s[m + 1] == '-')) && IsDigit(s[m + 2])))
  }

  /**
    `Optional(E + Optional(sign) + Word(nums))` at m: the end of the exponent
    part if there is a complete one, else m. A complete exponent is always
    taken, with all the digits that follow it.
   */
  function ExponentEnd(s: string, m: nat, minus: bool): (r: nat)
    requires m <= |s|
    ensures m <= r <= |s|
    ensures r > m <==> ExponentAt(s, m, minus)
    ensures r > m ==> r >= m + 2 && (s[m] == 'e' || s[m] == 'E') && IsDigit(s[r - 1])
    ensures r > m ==> (forall k :: m + 2 <= k < r ==> IsDigit(s[k])) && (r == |s| || !IsDigit(s[r]))
  {
    if m < |s| && (s[m] == 'e' || s[m] == 'E') then
      var b := if m + 1 < |s| && (s[m + 1] == '+' || (minus && s[m + 1] == '-')) then m + 2 else m + 1;
      var d := DigitsEnd(s, b);
      if d > b then d else m
    else m
  }

  /** The position after an optional `arithSign` at p. */
  function SignEnd(s: string, p: nat): (r: nat)
    requires p <= |s|
    ensures r == p || (r == p + 1 && p < |s| && IsSign(s[p]))
    ensures r == p ==> p == |s| || !IsSign(s[p])
  {
    if p < |s| && IsSign(s[p]) then p + 1 else p
  }

  /** The mantissa of a real starts at p: sign? then digits followed by '.', or '.' followed by a digit. */
  predicate RealAt(s: string, p: nat)
    requires p <= |s|
  {
    var a := SignEnd(s, p);
    (DigitsEnd(s, a) > a && DigitsEnd(s, a) < |s| && s[DigitsEnd(s, a)] == '.') ||
    (a + 1 < |s| && s[a] == '.' && IsDigit(s[a + 1]))
  }

  /** The position of the '.' of a real whose mantissa starts at p. */
  function RealDot(s: string, p: nat): (r: nat)
    requires p <= |s| && RealAt(s, p)
    ensures SignEnd(s, p) <= r < |s| && s[r] == '.'
    ensures forall k :: SignEnd(s, p) <= k < r ==> IsDigit(s[k])
  {
    var a := SignEnd(s, p);
    if DigitsEnd(s, a) > a then DigitsEnd(s, a) else a
  }

  /**
    `realNum`: sign? (digits "." digits? | "." digits) exponent?. The text is
    what `Combine` joins, where the exponent letter is always 'E'.
   */
  function ScanReal(s: string, p: nat): (r: Option<Token>)
    requires p <= |s|
    ensures r.Some? <==> RealAt(s, p)
    ensures r.Some? ==> r.value.end == ExponentEnd(s, DigitsEnd(s, RealDot(s, p) + 1), true)
    ensures r.Some? ==> p < r.value.end <= |s| && r.value.text == UpperStr(s[p..r.value.end])
    ensures r.Some? ==> '.' in s[p..r.value.end]
  {
    if RealAt(s, p) then
      var dot := RealDot(s, p);
      var e := ExponentEnd(s, DigitsEnd(s, dot + 1), true);
      assert s[p..e][dot - p] == '.';
      Some(Token(UpperStr(s[p..e]), e))
    else None
  }

  /** `intNum`: sign? digits ("E" "+"? digits)?. */
  function ScanInt(s: string, p: nat): (r: Option<Token>)
    requires p <= |s|
    ensures r.Some? <==> DigitsEnd(s, SignEnd(s, p)) > SignEnd(s, p)
    ensures r.Some? ==> r.value.end == ExponentEnd(s, DigitsEnd(s, SignEnd(s, p)), false)
    ensures r.Some? ==> p < r.value.end <= |s| && r.value.text == UpperStr(s[p..r.value.end])
    ensures r.Some? ==> '.' !in s[p..r.value.end]
  {
    var a := SignEnd(s, p);
    var d := DigitsEnd(s, a);
    if d == a then None
    else
      var e := ExponentEnd(s, d, false);
      assert forall k :: p <= k < e ==> s[k] != '.';
      Some(Token(UpperStr(s[p..e]), e))
  }

  /**
    The backtracking match of the body of `'(''|\\.|[^'])*'` (q the quote
    character) from i, just past the opening quote: the alternatives are
    tried in order and the repetition stops last, so the first complete
    match in that order wins. The result is the position after the closing quote.
   */
  function QuotedEnd(s: string, i: nat, q: char): (r: Option<nat>)
    requires i <= |s|
    ensures r.Some? ==> i < r.value <= |s| && s[r.value - 1] == q
    decreases |s| - i
  {
    var doubled := if i + 1 < |s| && s[i] == q && s[i + 1] == q then QuotedEnd(s, i + 2, q) else None;
    if doubled.Some? then doubled
    else
      var escaped := if i + 1 < |s| && s[i] == '\\' && s[i + 1] != '\n' then QuotedEnd(s, i + 2, q) else None;
      if escaped.Some? then escaped
      else
        var other := if i < |s| && s[i] != q then QuotedEnd(s, i + 1, q) else None;
        if other.Some? then other
        else if i < |s| && s[i] == q then Some(i + 1)
        else None
  }

  /** `str.replace(qq, "\\" + q)`: every doubled quote, left to right, becomes an escaped quote. */
  function ReplaceDoubled(t: string, q: char): (r: string)
    ensures |r| == |t|
    decreases |t|
  {
    if |t| >= 2 && t[0] == q && t[1] == q then ['\\', q] + ReplaceDoubled(t[2..], q)
    else if t == [] then []
    else [t[0]] + ReplaceDoubled(t[1..], q)
  }

  /** The text a backslash followed by c stands for; an unknown escape keeps its backslash. */
  function EscapeChar(c: char): string
  {
    match c
    case '\\' => "\\"
    case '\'' => "'"
    case '"' => "\""
    case 'n' => "\n"
    case 't' => "\t"
    case 'r' => "\r"
    case 'a' => [7 as char]
    case 'b' => [8 as char]
    case 'f' => [12 as char]
    case 'v' => [11 as char]
    case _ => ['\\', c]
  }

  /**
    The value of the string literal q + t + q (`ast.literal_eval`): None when
    that text is malformed (a line break inside a literal, a final backslash
    that escapes the closing quote, or an unescaped q followed by anything
    but the opening q of another literal). An unescaped q ends one literal,
    and a literal that follows at once is joined to it, as Python joins
    adjacent string literals; a triple quote counts as malformed.
   */
  function Decode(t: string, q: char): (r: Option<string>)
    ensures r.Some? ==> |r.value| <= |t|
    decreases |t|
  {
    if t == [] then Some([])
    else if t[0] == '\\' then
      if |t| == 1 then None
      else
        match Decode(t[2..], q)
        case None => None
        case Some(rest) => Some((if t[1] == '\n' then [] else EscapeChar(t[1])) + rest)
    else if t[0] == '\n' then None
    else if t[0] == q then
      if |t| >= 2 && t[1] == q && !(|t| >= 3 && t[2] == q && (|t| == 3 || t[3] == q)) then Decode(t[2..], q)
      else None
    else
      match Decode(t[1..], q)
      case None => None
      case Some(rest) => Some([t[0]] + rest)
  }

  /** `unquote` on the body t of a token quoted by q. */
  function Unquote(t: string, q: char): (r: Option<string>)
    ensures r.Some? ==> |r.value| <= |t|
  {
    Decode(ReplaceDoubled(t, q), q)
  }

  /** A quoted token (`sqlString` for q = ', `identString` for q = ") starting at p, with its unquoted value. */
  function ScanQuoted(s: string, p: nat, q: char): (r: Option<Token>)
    requires p <= |s|
    ensures r.Some? ==> p + 2 <= r.value.end <= |s| && s[p] == q && s[r.value.end - 1] == q
    ensures r.Some? ==> Unquote(s[p + 1..r.value.end - 1], q) == Some(r.value.text)
  {
    if p < |s| && s[p] == q then
      match QuotedEnd(s, p + 1, q)
      case None => None
      case Some(e) =>
        match Unquote(s[p + 1..e - 1], q)
        case None => None
        case Some(v) => Some(Token(v, e))
    else None
  }

  /** One segment of an identifier path: `Word(alphas, alphanums + "_$") | identString`. */
  function Segment(s: string, i: nat): (r: Option<Token>)
    requires i <= |s|
    ensures r.Some? ==> i < r.value.end <= |s|
  {
    if i < |s| && IsAlpha(s[i]) then
      var e := IdentCharsEnd(s, i + 1);
      Some(Token(s[i..e], e))
    else ScanQuoted(s, i, '"')
  }

  /** `delimitedList(segment, ".", combine=True)`: segments joined by '.', with no space in between. */
  function DottedPath(s: string, i: nat): (r: Option<Token>)
    requires i <= |s|
    ensures r.Some? ==> i < r.value.end <= |s|
    decreases |s| - i
  {
    match Segment(s, i)
    case None => None
    case Some(t) =>
      if t.end < |s| && s[t.end] == '.' then
        match DottedPath(s, t.end + 1)
        case Some(u) => Some(Token(t.text + "." + u.text, u.end))
        case None => Some(t)
      else Some(t)
  }

  /** `ident` at p: the wildcard "*", or a dotted path whose start is not a reserved word or operator. */
  function ScanIdent(s: string, p: nat): (r: Option<Token>)
    requires p <= |s|
    ensures r.Some? ==> p < r.value.end <= |s|
    ensures r.Some? && r.value.text != "*" ==> !ReservedAt(s, p)
  {
    if LiteralAt(s, p, "*") then Some(Token("*", p + 1))
    else if ReservedAt(s, p) then None
    else DottedPath(s, p)
  }

  // ---------------------------------------------------------------------
  // Quoting, and the round trip of scanning and unquoting.

  /** The body of a quoted token whose value is x: every quote character doubled. */
  function DoubleQuotes(x: string, q: char): (r: string)
    ensures |r| >= |x|
  {
    if x == [] then [] else (if x[0] == q then [q, q] else [x[0]]) + DoubleQuotes(x[1..], q)
  }

  /** x with every quote character escaped by a backslash. */
  function EscapeQuotes(x: string, q: char): string
  {
    if x == [] then [] else (if x[0] == q then ['\\', q] else [x[0]]) + EscapeQuotes(x[1..], q)
  }

  predicate Plain(x: string)
  {
    forall k :: 0 <= k < |x| ==> x[k] != '\\' && x[k] != '\n'
  }

  /** Text without the quote character is left as it is by the replace step. */
  lemma {:induction false} ReplaceDoubledPlain(t: string, q: char)
    requires q !in t
    ensures ReplaceDoubled(t, q) == t
    decreases |t|
  {
    if t != [] {
      ReplaceDoubledPlain(t[1..], q);
      assert t == [t[0]] + t[1..];
    }
  }

  /** Text without quotes, backslashes or line breaks decodes to itself. */
  lemma {:induction false} DecodePlain(t: string, q: char)
    requires Plain(t) && q !in t
    ensures Decode(t, q) == Some(t)
    decreases |t|
  {
    if t != [] {
      assert Plain(t[1..]) by {
        forall k | 0 <= k < |t[1..]| ensures t[1..][k] != '\\' && t[1..][k] != '\n' {
          assert t[1..][k] == t[k + 1];
        }
      }
      DecodePlain(t[1..], q);
      assert t == [t[0]] + t[1..];
    }
  }

  /** A body without quotes, backslashes or line breaks is its own value. */
  lemma UnquotePlain(t: string, q: char)
    requires Plain(t) && q !in t
    ensures Unquote(t, q) == Some(t)
  {
    ReplaceDoubledPlain(t, q);
    DecodePlain(t, q);
  }

  lemma {:induction false} ReplaceDoubledQuotes(x: string, q: char)
    requires forall k :: 0 <= k < |x| ==> x[k] != '\\'
    ensures ReplaceDoubled(DoubleQuotes(x, q), q) == EscapeQuotes(x, q)
    decreases |x|
  {
    if x != [] {
      ReplaceDoubledQuotes(x[1..], q);
      if x[0] == q {
        assert DoubleQuotes(x, q) == [q, q] + DoubleQuotes(x[1..], q);
        assert DoubleQuotes(x, q)[2..] == DoubleQuotes(x[1..], q);
      } else {
        assert DoubleQuotes(x, q) == [x[0]] + DoubleQuotes(x[1..], q);
        assert DoubleQuotes(x, q)[1..] == DoubleQuotes(x[1..], q);
      }
    }
  }

  lemma {:induction false} DecodeEscapedQuotes(x: string, q: char)
    requires q == '\'' || q == '"'
    requires Plain(x)
    ensures Decode(EscapeQuotes(x, q), q) == Some(x)
    decreases |x|
  {
    if x != [] {
      DecodeEscapedQuotes(x[1..], q);
      var t := EscapeQuotes(x, q);
      if x[0] == q {
        assert t == ['\\', q] + EscapeQuotes(x[1..], q);
        assert t[2..] == EscapeQuotes(x[1..], q);
        assert EscapeChar(q) == [q];
        assert x == [q] + x[1..];
      } else {
        assert t == [x[0]] + EscapeQuotes(x[1..], q);
        assert t[1..] == EscapeQuotes(x[1..], q);
        assert t[0] != '\\' && t[0] != '\n' && t[0] != q;
        assert x == [x[0]] + x[1..];
      }
    }
  }

  /** `unquote` undoes quote doubling: 'it''s' stands for it's, "a""b" for a"b. */
  lemma UnquoteDoubled(x: string, q: char)
    requires q == '\'' || q == '"'
    requires Plain(x)
    ensures Unquote(DoubleQuotes(x, q), q) == Some(x)
  {
    ReplaceDoubledQuotes(x, q);
    DecodeEscapedQuotes(x, q);
  }

  /**
    The quoted-token match ends at the quote that closes a doubled body, as
    long as the character after it is not another quote.
   */
  lemma {:induction false} QuotedEndDoubled(s: string, i: nat, x: string, q: char)
    requires q == '\'' || q == '"'
    requires forall k :: 0 <= k < |x| ==> x[k] != '\\'
    requires i + |DoubleQuotes(x, q)| < |s|
    requires s[i..i + |DoubleQuotes(x, q)|] == DoubleQuotes(x, q)
    requires s[i + |DoubleQuotes(x, q)|] == q
    requires i + |DoubleQuotes(x, q)| + 1 == |s| || s[i + |DoubleQuotes(x, q)| + 1] != q
    ensures QuotedEnd(s, i, q) == Some(i + |DoubleQuotes(x, q)| + 1)
    decreases |x|
  {
    var d := DoubleQuotes(x, q);
    if x == [] {
    } else if x[0] == q {
      var d' := DoubleQuotes(x[1..], q);
      assert d == [q, q] + d';
      assert s[i] == d[0] && s[i + 1] == d[1];
      assert s[i + 2..i + 2 + |d'|] == d[2..];
      QuotedEndDoubled(s, i + 2, x[1..], q);
    } else {
      var d' := DoubleQuotes(x[1..], q);
      assert d == [x[0]] + d';
      assert s[i] == d[0];
      assert s[i + 1..i + 1 + |d'|] == d[1..];
      QuotedEndDoubled(s, i + 1, x[1..], q);
    }
  }

  /** Scanning q + DoubleQuotes(x) + q yields x and stops right after the closing quote. */
  lemma ScanQuotedDoubled(s: string, p: nat, x: string, q: char)
    requires q == '\'' || q == '"'
    requires Plain(x)
    requires p + |DoubleQuotes(x, q)| + 1 < |s|
    requires s[p] == q
    requires s[p + 1..p + 1 + |DoubleQuotes(x, q)|] == DoubleQuotes(x, q)
    requires s[p + 1 + |DoubleQuotes(x, q)|] == q
    requires p + |DoubleQuotes(x, q)| + 2 == |s| || s[p + |DoubleQuotes(x, q)| + 2] != q
    ensures ScanQuoted(s, p, q) == Some(Token(x, p + |DoubleQuotes(x, q)| + 2))
  {
    var d := DoubleQuotes(x, q);
    var e := p + |d| + 2;
    QuotedEndDoubled(s, p + 1, x, q);
    assert QuotedEnd(s, p + 1, q) == Some(e);
    UnquoteDoubled(x, q);
    assert s[p + 1..e - 1] == d;
    assert Unquote(s[p + 1..e - 1], q) == Some(x);
    ScanQuotedEnd(s, p, q, e, x);
  }

  lemma ScanQuotedEnd(s: string, p: nat, q: char, e: nat, x: string)
    requires p < e <= |s| && s[p] == q
    requires QuotedEnd(s, p + 1, q) == Some(e)
    requires Unquote(s[p + 1..e - 1], q) == Some(x)
    ensures ScanQuoted(s, p, q) == Some(Token(x, e))
  {
  }
}
