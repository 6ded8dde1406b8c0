/** `pg_params` (_remote.py): placeholders filled in one after another, each by a text
    replacement over the whole statement, compared with filling them all at once. */
module SqlParams {
  import opened Js

  const QUOTE := '\''

  /** The number in decimal. */
  function Decimal(n: nat): (s: string)
    ensures s != "" && forall i :: 0 <= i < |s| ==> '0' <= s[i] <= '9'
  {
    if n < 10 then [Digit(n)] else Decimal(n / 10) + [Digit(n % 10)]
  }

  function Placeholder(k: nat): string {
    ['$'] + Decimal(k)
  }

  function Digit(k: nat): char
    requires k <= 9
  {
    ('0' as int + k) as char
  }

  /** A quoted SQL literal: inner quotes doubled. */
  function DoubleQuotes(s: string): string {
    if s == "" then "" else (if s[0] == QUOTE then "''" else [s[0]]) + DoubleQuotes(s[1..])
  }

  function Literal(s: string): string {
    "'" + DoubleQuotes(s) + "'"
  }

  /** `s.replace(pattern, by)`. */
  function ReplaceAll(s: string, pattern: string, put: string): string
    requires |pattern| > 0
  {
    if |s| < |pattern| then s
    else if s[..|pattern|] == pattern then put + ReplaceAll(s[|pattern|..], pattern, put)
    else [s[0]] + ReplaceAll(s[1..], pattern, put)
  }

  predicate Contains(s: string, pattern: string) {
    |s| >= |pattern| && (s[..|pattern|] == pattern || (s != "" && Contains(s[1..], pattern)))
  }

  // ---- both substitutions --------------------------------------------------

  /** Replacements first..last, in turn, by the literals of those parameters. */
  function Chain(s: string, literals: seq<string>, first: nat, last: nat): string
    requires 1 <= first && last <= |literals|
    decreases last
  {
    if last < first then s
    else ReplaceAll(Chain(s, literals, first, last - 1), Placeholder(last), literals[last - 1])
  }

  /** Which parameter a placeholder at the front of the text names, if it is one of n. */
  function Named(s: string, n: nat): (k: nat)
    requires n <= 9
    ensures k <= n
    ensures k > 0 <==> exists j :: 1 <= j <= n && |s| >= 2 && s[..2] == Placeholder(j)
    ensures k > 0 ==> |s| >= 2 && s[..2] == Placeholder(k)
  {
    if |s| >= 2 && s[0] == '$' && '1' <= s[1] <= '9' && (s[1] as int - '0' as int) <= n then
      assert s[..2] == Placeholder(s[1] as int - '0' as int);
      s[1] as int - '0' as int
    else 0
  }

  /** All placeholders at once: each is replaced by its own piece, and no piece is read again. */
  function Substitute(sql: string, pieces: seq<string>): string
    requires |pieces| <= 9
  {
    if sql == "" then "" else
    var k := Named(sql, |pieces|);
    if k > 0 then pieces[k - 1] + Substitute(sql[2..], pieces) else [sql[0]] + Substitute(sql[1..], pieces)
  }

  function Literals(params: seq<string>): seq<string> {
    seq(|params|, i requires 0 <= i < |params| => Literal(params[i]))
  }

  datatype Statement = Ready(sql: string) | ValueError(index: nat)

  /** The loop: a missing parameter raises, any other rewrites the statement. An empty one is
      accepted. */
  method PgParams(sql: string, params: seq<Option<string>>) returns (r: Statement)
    ensures r.ValueError? ==> 1 <= r.index <= |params| && params[r.index - 1].None? && forall i :: 0 <= i < r.index - 1 ==> params[i].Some?
    ensures r.Ready? ==>
      && (forall i :: 0 <= i < |params| ==> params[i].Some?)
      && r.sql == Chain(sql, Literals(seq(|params|, i requires 0 <= i < |params| => params[i].GetOr(""))), 1, |params|)
  {
    var text := sql;
    ghost var given := seq(|params|, i requires 0 <= i < |params| => params[i].GetOr(""));
    for i := 0 to |params|
      invariant forall j :: 0 <= j < i ==> params[j].Some?
      invariant text == Chain(sql, Literals(given), 1, i)
    {
      if params[i].None? {
        return ValueError(i + 1);
      }
      text := ReplaceAll(text, Placeholder(i + 1), Literal(params[i].value));
    }
    r := Ready(text);
  }

  // ---- a literal reads back ------------------------------------------------

  /** A standard SQL string literal at the front of the text: its value and what follows. */
  function ReadLiteral(s: string, value: string): Option<(string, string)> {
    if s == "" then None
    else if s[0] != QUOTE then ReadLiteral(s[1..], value + [s[0]])
    else if |s| > 1 && s[1] == QUOTE then ReadLiteral(s[2..], value + [QUOTE])
    else Some((value, s[1..]))
  }

  lemma {:induction false} ReadingShrinks(s: string, value: string)
    ensures var r := ReadLiteral(s, value); r.Some? ==> value <= r.value.0 && |r.value.1| < |s|
  {
    if s != "" && s[0] != QUOTE {
      ReadingShrinks(s[1..], value + [s[0]]);
    } else if |s| > 1 && s[1] == QUOTE {
      ReadingShrinks(s[2..], value + [QUOTE]);
    }
  }

  /** Behind its opening quote a literal reads back as its parameter if and only if no quote
      follows it: a quote would double the closing one, and the literal would go on. */
  lemma {:induction false} LiteralRoundTrip(p: string, rest: string, value: string)
    ensures ReadLiteral(DoubleQuotes(p) + "'" + rest, value) == Some((value + p, rest)) <==> rest == "" || rest[0] != QUOTE
  {
    var text := DoubleQuotes(p) + "'" + rest;
    if p == "" {
      assert text == "'" + rest && text[1..] == rest && value + p == value;
      if rest != "" && rest[0] == QUOTE {
        assert text[2..] == rest[1..];
        ReadingShrinks(rest[1..], value + [QUOTE]);
      }
    } else {
      var tail := DoubleQuotes(p[1..]) + "'" + rest;
      LiteralRoundTrip(p[1..], rest, value + [p[0]]);
      assert value + [p[0]] + p[1..] == value + p;
      if p[0] == QUOTE {
        assert text == "''" + tail && text[2..] == tail;
      } else {
        assert text == [p[0]] + tail && text[1..] == tail;
      }
    }
  }

  // ---- replacement over pieces ---------------------------------------------

  lemma ReplaceStep(s: string, k: nat, put: string)
    requires 1 <= k <= 9
    ensures Placeholder(k) == ['$', Digit(k)]
    ensures |s| < 2 ==> ReplaceAll(s, Placeholder(k), put) == s
    ensures |s| >= 2 && s[0] == '$' && s[1] == Digit(k) ==>
      ReplaceAll(s, Placeholder(k), put) == put + ReplaceAll(s[2..], Placeholder(k), put)
    ensures s != "" && !(|s| >= 2 && s[0] == '$' && s[1] == Digit(k)) ==>
      ReplaceAll(s, Placeholder(k), put) == [s[0]] + ReplaceAll(s[1..], Placeholder(k), put)
  {
    if |s| >= 2 {
      assert s[..2] == [s[0], s[1]];
    }
  }

  lemma {:induction false} ReplaceSplits(a: string, b: string, k: nat, put: string)
    requires 1 <= k <= 9
    requires a == "" || b == "" || a[|a| - 1] != '$' || b[0] != Digit(k)
    ensures ReplaceAll(a + b, Placeholder(k), put) == ReplaceAll(a, Placeholder(k), put) + ReplaceAll(b, Placeholder(k), put)
  {
    hide ReplaceAll, Placeholder;
    ReplaceStep(a, k, put);
    ReplaceStep(a + b, k, put);
    if a == "" {
      assert a + b == b;
    } else if |a| >= 2 && a[0] == '$' && a[1] == Digit(k) {
      assert (a + b)[2..] == a[2..] + b;
      ReplaceSplits(a[2..], b, k, put);
    } else {
      assert (a + b)[1..] == a[1..] + b;
      ReplaceSplits(a[1..], b, k, put);
    }
  }

  /** A piece that replacements cannot join to its neighbours: it starts with no digit and
      ends with no dollar. Placeholders and quoted literals are such pieces. */
  predicate Closed(piece: string) {
    |piece| >= 2 && !('0' <= piece[0] <= '9') && piece[|piece| - 1] != '$'
  }

  predicate AllClosed(pieces: seq<string>) {
    forall k :: 0 <= k < |pieces| ==> Closed(pieces[k])
  }

  lemma {:induction false} ReplaceKeepsEnds(s: string, k: nat, put: string)
    requires 1 <= k <= 9 && s != "" && s[|s| - 1] != '$' && Closed(put)
    ensures var t := ReplaceAll(s, Placeholder(k), put);
      && |t| >= |s| && t[|t| - 1] != '$'
      && (t[0] == s[0] || t[0] == put[0])
  {
    hide ReplaceAll, Placeholder;
    ReplaceStep(s, k, put);
    if |s| >= 2 && s[0] == '$' && s[1] == Digit(k) {
      if |s| == 2 {
        ReplaceStep(s[2..], k, put);
      } else {
        ReplaceKeepsEnds(s[2..], k, put);
      }
    } else if |s| >= 2 {
      ReplaceKeepsEnds(s[1..], k, put);
    }
  }

  lemma ReplaceKeepsClosed(s: string, k: nat, put: string)
    requires 1 <= k <= 9 && Closed(s) && Closed(put)
    ensures Closed(ReplaceAll(s, Placeholder(k), put))
  {
    ReplaceKeepsEnds(s, k, put);
  }

  function MapReplace(pieces: seq<string>, k: nat, put: string): seq<string>
    requires 1 <= k <= 9
  {
    seq(|pieces|, i requires 0 <= i < |pieces| => ReplaceAll(pieces[i], Placeholder(k), put))
  }

  /** Replacing over a statement with its pieces in place is replacing inside each piece: no
      placeholder forms across the boundary of a literal. */
  lemma {:induction false} ReplaceInPieces(sql: string, pieces: seq<string>, k: nat, put: string)
    requires 1 <= k <= |pieces| <= 9 && AllClosed(pieces) && Closed(put)
    ensures ReplaceAll(Substitute(sql, pieces), Placeholder(k), put) == Substitute(sql, MapReplace(pieces, k, put))
  {
    if sql != "" {
      var named := Named(sql, |pieces|);
      if named > 0 {
        ReplaceInPieces(sql[2..], pieces, k, put);
        ReplaceSplits(pieces[named - 1], Substitute(sql[2..], pieces), k, put);
      } else {
        var rest := Substitute(sql[1..], pieces);
        ReplaceInPieces(sql[1..], pieces, k, put);
        NoPlaceholderForms(sql, pieces, k);
        ReplaceSplits([sql[0]], rest, k, put);
        assert ReplaceAll([sql[0]], Placeholder(k), put) == [sql[0]];
      }
    }
  }

  /** A dollar left in the text is not followed by a digit that would make it a placeholder. */
  lemma NoPlaceholderForms(sql: string, pieces: seq<string>, k: nat)
    requires 1 <= k <= |pieces| <= 9 && AllClosed(pieces) && sql != "" && Named(sql, |pieces|) == 0
    ensures var rest := Substitute(sql[1..], pieces);
      sql[0] == '$' && rest != "" ==> rest[0] != Digit(k)
  {
    if |sql| > 1 {
      assert sql[..2] == [sql[0], sql[1]];
      assert sql[..2] != Placeholder(k);
      assert sql[1..][0] == sql[1];
    }
  }

  // ---- sequential replacement, piece by piece --------------------------------

  /** The pieces after the first m replacements. */
  function ChainedPieces(literals: seq<string>, m: nat): seq<string>
    requires m <= |literals| <= 9
  {
    seq(|literals|, i requires 0 <= i < |literals| => Chain(Placeholder(i + 1), literals, 1, m))
  }

  lemma UnchainedPieces(literals: seq<string>)
    requires |literals| <= 9
    ensures |ChainedPieces(literals, 0)| == |literals|
    ensures forall k :: 1 <= k <= |literals| ==> ChainedPieces(literals, 0)[k - 1] == Placeholder(k)
  {
    hide Placeholder;
  }

  lemma SubstituteStep(sql: string, pieces: seq<string>)
    requires |pieces| <= 9 && sql != ""
    ensures var k := Named(sql, |pieces|);
      if k > 0 then |sql| >= 2 && sql[..2] == Placeholder(k) && Substitute(sql, pieces) == pieces[k - 1] + Substitute(sql[2..], pieces)
      else Substitute(sql, pieces) == [sql[0]] + Substitute(sql[1..], pieces)
  {
    hide Placeholder;
  }

  lemma Rejoined(s: string, i: nat)
    requires i <= |s|
    ensures s[..i] + s[i..] == s
  {
  }

  lemma {:induction false} Identity(sql: string, literals: seq<string>)
    requires |literals| <= 9
    ensures Substitute(sql, ChainedPieces(literals, 0)) == sql
  {
    UnchainedPieces(literals);
    hide Named, Placeholder, ChainedPieces, Substitute;
    if sql == "" {
      SubstituteNothing(ChainedPieces(literals, 0));
    } else {
      SubstituteStep(sql, ChainedPieces(literals, 0));
      var i := if Named(sql, |literals|) > 0 then 2 else 1;
      Identity(sql[i..], literals);
      Rejoined(sql, i);
      assert sql[..1] == [sql[0]];
    }
  }

  lemma SubstituteNothing(pieces: seq<string>)
    requires |pieces| <= 9
    ensures Substitute("", pieces) == ""
  {
  }

  lemma {:induction false} ChainedClosed(literals: seq<string>, m: nat)
    requires m <= |literals| <= 9 && AllClosed(literals)
    ensures AllClosed(ChainedPieces(literals, m))
  {
    if m > 0 {
      ChainedClosed(literals, m - 1);
      var before := ChainedPieces(literals, m - 1);
      forall i | 0 <= i < |literals| ensures Closed(ChainedPieces(literals, m)[i]) {
        assert Closed(before[i]);
        ReplaceKeepsClosed(before[i], m, literals[m - 1]);
      }
    }
  }

  lemma {:induction false} ChainIsSubstitution(sql: string, literals: seq<string>, m: nat)
    requires m <= |literals| <= 9 && AllClosed(literals)
    ensures Chain(sql, literals, 1, m) == Substitute(sql, ChainedPieces(literals, m))
  {
    hide ReplaceAll, Substitute, Placeholder, Closed;
    if m == 0 {
      Identity(sql, literals);
    } else {
      ChainIsSubstitution(sql, literals, m - 1);
      ChainedClosed(literals, m - 1);
      ReplaceInPieces(sql, ChainedPieces(literals, m - 1), m, literals[m - 1]);
      assert MapReplace(ChainedPieces(literals, m - 1), m, literals[m - 1]) == ChainedPieces(literals, m);
    }
  }

  lemma ReplacePlaceholder(j: nat, k: nat, put: string)
    requires 1 <= j <= 9 && 1 <= k <= 9
    ensures ReplaceAll(Placeholder(j), Placeholder(k), put) == if j == k then put else Placeholder(j)
  {
    var p := Placeholder(j);
    assert p[..2] == p && p[2..] == "" && |p[1..]| == 1;
    assert put + "" == put;
    assert [p[0]] + p[1..] == p;
  }

  /** What becomes of one placeholder: its literal, with every later replacement done to it. */
  lemma {:induction false} ChainOfPlaceholder(j: nat, literals: seq<string>, m: nat)
    requires 1 <= j <= |literals| <= 9 && m <= |literals|
    ensures Chain(Placeholder(j), literals, 1, m) ==
      if m < j then Placeholder(j) else Chain(literals[j - 1], literals, j + 1, m)
  {
    if m > 0 {
      ChainOfPlaceholder(j, literals, m - 1);
      if m <= j {
        ReplacePlaceholder(j, m, literals[m - 1]);
      }
    }
  }

  // ---- when the two agree --------------------------------------------------

  function Dollars(s: string): nat {
    if s == "" then 0 else (if s[0] == '$' then 1 else 0) + Dollars(s[1..])
  }

  lemma {:induction false} DollarsSum(a: string, b: string)
    ensures Dollars(a + b) == Dollars(a) + Dollars(b)
  {
    if a == "" {
      assert a + b == b;
    } else {
      assert (a + b)[1..] == a[1..] + b;
      DollarsSum(a[1..], b);
    }
  }

  /** A replacement that finds something makes the text longer or takes dollars out of it,
      so no sequence of replacements ever restores the text. */
  predicate Moved(s: string, t: string) {
    |t| > |s| || (|t| == |s| && Dollars(t) < Dollars(s))
  }

  predicate IsLiteral(s: string) {
    |s| >= 2 && s[0] == QUOTE && s[|s| - 1] == QUOTE
  }

  lemma {:induction false} ReplaceMoves(s: string, k: nat, put: string)
    requires 1 <= k <= 9 && IsLiteral(put)
    ensures Contains(s, Placeholder(k)) ==> Moved(s, ReplaceAll(s, Placeholder(k), put))
    ensures !Contains(s, Placeholder(k)) ==> ReplaceAll(s, Placeholder(k), put) == s
  {
    var p := Placeholder(k);
    if |s| >= 2 {
      if s[..2] == p {
        ReplaceMoves(s[2..], k, put);
        DollarsSum(put, ReplaceAll(s[2..], p, put));
        assert s == p + s[2..];
        DollarsSum(p, s[2..]);
        PlaceholderDollar(k);
        ShortLiteral(put);
      } else {
        ReplaceMoves(s[1..], k, put);
        assert s == [s[0]] + s[1..];
        DollarsSum([s[0]], ReplaceAll(s[1..], p, put));
        DollarsSum([s[0]], s[1..]);
      }
    }
  }

  lemma PlaceholderDollar(k: nat)
    requires 1 <= k <= 9
    ensures Dollars(Placeholder(k)) == 1
  {
    assert Placeholder(k)[1..] == [Digit(k)];
    assert Dollars([Digit(k)][1..]) == 0;
  }

  lemma ShortLiteral(put: string)
    requires IsLiteral(put)
    ensures |put| == 2 ==> Dollars(put) == 0
  {
    if |put| == 2 {
      assert put[1..] == [put[1]] && put[1..][1..] == "";
      assert Dollars(put[1..]) == 0;
    }
  }

  lemma {:induction false} ChainMoves(s: string, literals: seq<string>, first: nat, last: nat)
    requires 1 <= first && last <= |literals| <= 9 && forall i :: 0 <= i < |literals| ==> IsLiteral(literals[i])
    ensures (exists j :: first <= j <= last && Contains(s, Placeholder(j))) ==> Moved(s, Chain(s, literals, first, last))
    ensures !(exists j :: first <= j <= last && Contains(s, Placeholder(j))) ==> Chain(s, literals, first, last) == s
    decreases last
  {
    if first <= last {
      ChainMoves(s, literals, first, last - 1);
      ReplaceMoves(Chain(s, literals, first, last - 1), last, literals[last - 1]);
    }
  }

  /** The placeholder of parameter k (from 0) of n is filled in somewhere in the statement. */
  predicate Used(sql: string, k: nat, n: nat)
    requires n <= 9
  {
    sql != "" &&
    var named := Named(sql, n);
    if named > 0 then named == k + 1 || Used(sql[2..], k, n) else Used(sql[1..], k, n)
  }

  /** Two sets of pieces are the same wherever the statement uses them. */
  predicate Agree(sql: string, a: seq<string>, b: seq<string>)
    requires |a| == |b| <= 9
  {
    forall k :: 0 <= k < |a| && Used(sql, k, |a|) ==> a[k] == b[k]
  }

  lemma AgreeFront(sql: string, a: seq<string>, b: seq<string>)
    requires |a| == |b| <= 9
    ensures sql == "" ==> Agree(sql, a, b)
    ensures sql != "" && Named(sql, |a|) == 0 ==> (Agree(sql, a, b) <==> Agree(sql[1..], a, b))
    ensures sql != "" && Named(sql, |a|) > 0 ==>
      (Agree(sql, a, b) <==> Agree(sql[2..], a, b) && a[Named(sql, |a|) - 1] == b[Named(sql, |a|) - 1])
  {
    if sql != "" && Named(sql, |a|) > 0 {
      var named := Named(sql, |a|);
      assert Used(sql, named - 1, |a|);
      assert forall k :: 0 <= k < |a| ==> (Used(sql, k, |a|) <==> k + 1 == named || Used(sql[2..], k, |a|));
    } else if sql != "" {
      assert forall k :: 0 <= k < |a| ==> (Used(sql, k, |a|) <==> Used(sql[1..], k, |a|));
    }
  }

  lemma EqualSums(a: string, b: string, x: string, y: string)
    requires |a| >= |b| && |x| >= |y|
    ensures a + x == b + y <==> a == b && x == y
  {
    if a + x == b + y {
      assert a == (a + x)[..|a|] && b == (b + y)[..|b|] && x == (a + x)[|a|..] && y == (b + y)[|b|..];
    }
  }

  /** Pieces no shorter than others give the same statement only where each used one is the same. */
  lemma {:induction false} EqualSubstitutions(sql: string, longer: seq<string>, pieces: seq<string>)
    requires |longer| == |pieces| <= 9 && forall k :: 0 <= k < |pieces| ==> |longer[k]| >= |pieces[k]|
    ensures |Substitute(sql, longer)| >= |Substitute(sql, pieces)|
    ensures Substitute(sql, longer) == Substitute(sql, pieces) <==> Agree(sql, longer, pieces)
  {
    AgreeFront(sql, longer, pieces);
    hide Agree;
    if sql != "" {
      var named := Named(sql, |pieces|);
      if named > 0 {
        EqualSubstitutions(sql[2..], longer, pieces);
        EqualSums(longer[named - 1], pieces[named - 1], Substitute(sql[2..], longer), Substitute(sql[2..], pieces));
      } else {
        EqualSubstitutions(sql[1..], longer, pieces);
        EqualSums([sql[0]], [sql[0]], Substitute(sql[1..], longer), Substitute(sql[1..], pieces));
      }
    }
  }

  lemma LiteralsAreLiteral(params: seq<string>)
    ensures forall i :: 0 <= i < |params| ==> IsLiteral(Literals(params)[i]) && Closed(Literals(params)[i])
  {
  }

  /** The literal of parameter i (from 0) contains no placeholder of a later one. */
  predicate Harmless(literals: seq<string>, i: nat)
    requires i < |literals|
  {
    forall j :: i + 1 < j <= |literals| ==> !Contains(literals[i], Placeholder(j))
  }

  lemma PieceUnmoved(literals: seq<string>, i: nat)
    requires i < |literals| <= 9 && forall k :: 0 <= k < |literals| ==> IsLiteral(literals[k])
    ensures var piece := ChainedPieces(literals, |literals|)[i];
      |piece| >= |literals[i]| && (piece == literals[i] <==> Harmless(literals, i))
  {
    ChainOfPlaceholder(i + 1, literals, |literals|);
    ChainMoves(literals[i], literals, i + 2, |literals|);
    hide Chain, Contains;
  }

  /** Sequential replacement fills in all placeholders at once if and only if no literal it
      uses contains the placeholder of a later parameter. */
  lemma SequentialIsSimultaneous(sql: string, params: seq<string>)
    requires |params| <= 9
    ensures Chain(sql, Literals(params), 1, |params|) == Substitute(sql, Literals(params))
       <==> forall i :: 0 <= i < |params| && Used(sql, i, |params|) ==> Harmless(Literals(params), i)
  {
    var literals, n := Literals(params), |params|;
    var pieces := ChainedPieces(literals, n);
    LiteralsAreLiteral(params);
    ChainIsSubstitution(sql, literals, n);
    hide Chain, Substitute, Used, Harmless, ChainedPieces, Literals;
    forall i | 0 <= i < n
      ensures |pieces[i]| >= |literals[i]| && (pieces[i] == literals[i] <==> Harmless(literals, i))
    {
      PieceUnmoved(literals, i);
    }
    EqualSubstitutions(sql, pieces, literals);
  }

  // ---- ten parameters or more ----------------------------------------------

  /** Replacing a placeholder never touches a text's last digit when a quote stands before it. */
  lemma {:induction false} DigitAfterQuoteStays(s: string, k: nat, put: string)
    requires |s| >= 2 && s[|s| - 2] == QUOTE && s[|s| - 1] == '0'
    ensures var t := ReplaceAll(s, Placeholder(k), put);
      |t| >= 2 && t[|t| - 2] == QUOTE && t[|t| - 1] == '0'
  {
    var p := Placeholder(k);
    if |s| >= |p| && s[..|p|] == p {
      assert |p| <= |s| - 2 by {
        assert forall i :: 0 <= i < |p| ==> s[i] == p[i] && p[i] != QUOTE;
      }
      DigitAfterQuoteStays(s[|p|..], k, put);
    } else if |s| >= |p| {
      if |s| > 2 {
        DigitAfterQuoteStays(s[1..], k, put);
      } else {
        assert s[1..] == "0" && |p| >= 2;
      }
    }
  }

  lemma {:induction false} ChainKeepsDigit(s: string, literals: seq<string>, last: nat)
    requires last <= |literals| && |s| >= 2 && s[|s| - 2] == QUOTE && s[|s| - 1] == '0'
    ensures var t := Chain(s, literals, 2, last); |t| >= 2 && t[|t| - 1] == '0' && t[|t| - 2] == QUOTE
    decreases last
  {
    if last >= 2 {
      ChainKeepsDigit(s, literals, last - 1);
      DigitAfterQuoteStays(Chain(s, literals, 2, last - 1), last, literals[last - 1]);
    }
  }

  lemma {:induction false} ChainFromFirst(s: string, literals: seq<string>, last: nat)
    requires 1 <= last <= |literals|
    ensures Chain(s, literals, 1, last) == Chain(ReplaceAll(s, Placeholder(1), literals[0]), literals, 2, last)
    decreases last
  {
    if last > 1 {
      ChainFromFirst(s, literals, last - 1);
    }
  }

  lemma FirstEatsTenth(put: string)
    ensures Placeholder(10) == "$10"
    ensures ReplaceAll("$10", Placeholder(1), put) == put + "0"
  {
    assert Decimal(10 / 10) == "1" && Placeholder(1) == "$1";
    assert "$10"[..2] == "$1" && "$10"[2..] == "0";
    assert ReplaceAll("0", "$1", put) == "0";
  }

  lemma LiteralEnds(params: seq<string>, k: nat)
    requires k < |params|
    ensures |Literals(params)| == |params|
    ensures var l := Literals(params)[k]; l != "" && l[|l| - 1] == QUOTE
  {
  }

  /** With ten parameters or more, the tenth is never filled in: its placeholder starts with
      the first one's. */
  lemma TenthIsLost(params: seq<string>)
    requires |params| >= 10
    ensures Placeholder(10) == "$10"
    ensures Chain("$10", Literals(params), 1, |params|) != Literals(params)[9]
  {
    hide Placeholder, ReplaceAll, Chain, Literals;
    LiteralEnds(params, 0);
    LiteralEnds(params, 9);
    var literals := Literals(params);
    FirstEatsTenth(literals[0]);
    ChainFromFirst("$10", literals, |params|);
    ChainKeepsDigit(literals[0] + "0", literals, |params|);
  }
}
