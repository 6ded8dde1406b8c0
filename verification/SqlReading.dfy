/** The statement `pg_params` (_remote.py) fills in, read back by the SQL rule for quoted literals:
    whether every parameter is the value of one literal. */
module SqlReading {
  import opened SqlParams
  import opened SqlFilling

  datatype Token = Char(c: char) | Value(v: string) | Unterminated

  /** A statement in tokens: quoted literals by their values, other text by character. */
  function Lex(s: string): seq<Token>
    decreases |s|
  {
    if s == "" then []
    else if s[0] != QUOTE then [Char(s[0])] + Lex(s[1..])
    else
      var r := ReadLiteral(s[1..], "");
      if r.None? then [Unterminated]
      else
        ReadingShrinks(s[1..], "");
        [Value(r.value.0)] + Lex(r.value.1)
  }

  /** The tokens the caller means: each placeholder is a literal of its parameter. */
  function Meant(sql: string, params: seq<string>): seq<Token>
    decreases |sql|
  {
    if sql == "" then [] else
    var k := Begins(sql, |params|);
    if k > 0 then [Value(params[k - 1])] + Meant(Behind(sql), params) else [Char(sql[0])] + Meant(sql[1..], params)
  }

  /** Two placeholders stand side by side somewhere in the statement. */
  predicate Adjacent(sql: string, n: nat)
    decreases |sql|
  {
    sql != "" &&
    if Begins(sql, n) > 0 then Begins(Behind(sql), n) > 0 || Adjacent(Behind(sql), n) else Adjacent(sql[1..], n)
  }

  // ---- one literal ---------------------------------------------------------

  lemma DoubleStep(s: string)
    requires s != ""
    ensures DoubleQuotes(s) == (if s[0] == QUOTE then "''" else [s[0]]) + DoubleQuotes(s[1..])
  {
  }

  lemma Joined(x: string, y: string, z: string)
    ensures x + (y + z) == x + y + z
  {
  }

  lemma {:induction false} DoubleQuotesSplits(a: string, b: string)
    ensures DoubleQuotes(a + b) == DoubleQuotes(a) + DoubleQuotes(b)
  {
    if a == "" {
      assert a + b == b;
    } else {
      hide DoubleQuotes;
      DoubleStep(a);
      DoubleStep(a + b);
      DoubleQuotesSplits(a[1..], b);
      assert (a + b)[1..] == a[1..] + b;
      Joined(if a[0] == QUOTE then "''" else [a[0]], DoubleQuotes(a[1..]), DoubleQuotes(b));
    }
  }

  /** A literal before a quote is read on past its end, into a longer value. */
  lemma {:induction false} ReadsOn(p: string, rest: string, value: string)
    requires rest != "" && rest[0] == QUOTE
    ensures ReadLiteral(DoubleQuotes(p) + "'" + rest, value) == ReadLiteral(rest[1..], value + p + "'")
  {
    var text := DoubleQuotes(p) + "'" + rest;
    if p == "" {
      assert text == "'" + rest && text[2..] == rest[1..] && value + p == value;
    } else {
      var tail := DoubleQuotes(p[1..]) + "'" + rest;
      ReadsOn(p[1..], rest, value + [p[0]]);
      assert value + [p[0]] + p[1..] == value + p;
      if p[0] == QUOTE {
        assert text == "''" + tail && text[2..] == tail;
      } else {
        assert text == [p[0]] + tail && text[1..] == tail;
      }
    }
  }

  /** The first token of a filled placeholder. */
  lemma LexLiteral(p: string, rest: string)
    ensures rest == "" || rest[0] != QUOTE ==> Lex(Literal(p) + rest) == [Value(p)] + Lex(rest)
    ensures rest != "" && rest[0] == QUOTE ==> Lex(Literal(p) + rest) != [] && Lex(Literal(p) + rest)[0] != Value(p)
  {
    var text := Literal(p) + rest;
    var behind := DoubleQuotes(p) + "'" + rest;
    assert text == "'" + behind && text[1..] == behind;
    if rest == "" || rest[0] != QUOTE {
      LiteralRoundTrip(p, rest, "");
      assert "" + p == p;
    } else {
      ReadsOn(p, rest, "");
      ReadingShrinks(rest[1..], "" + p + "'");
    }
  }

  // ---- a filled statement --------------------------------------------------

  /** What begins with a quote once it is filled in. */
  lemma FilledFront(sql: string, params: seq<string>)
    requires QUOTE !in sql
    ensures var t := FillIn(sql, Literals(params));
      (t != "" && t[0] == QUOTE <==> Begins(sql, |params|) > 0) && (sql == "" ==> t == "")
  {
    hide Begins, Behind;
    if sql != "" && Begins(sql, |params|) == 0 {
      assert sql[0] in sql;
    }
  }

  lemma BehindIsTail(sql: string)
    requires sql != "" && QUOTE !in sql
    ensures QUOTE !in Behind(sql) && QUOTE !in sql[1..] && sql[0] != QUOTE
  {
  }

  /** A statement without quotes of its own, with all its placeholders filled in, reads as the
      caller means it if and only if no two placeholders stand side by side. */
  lemma {:induction false} FilledReadsBack(sql: string, params: seq<string>)
    requires QUOTE !in sql
    ensures Lex(FillIn(sql, Literals(params))) == Meant(sql, params) <==> !Adjacent(sql, |params|)
    decreases |sql|
  {
    hide Literal, DoubleQuotes, ReadLiteral, Begins, Behind;
    if sql != "" {
      BehindIsTail(sql);
      var k, t := Begins(sql, |params|), FillIn(sql, Literals(params));
      if k > 0 {
        var rest := FillIn(Behind(sql), Literals(params));
        FilledReadsBack(Behind(sql), params);
        FilledFront(Behind(sql), params);
        LexLiteral(params[k - 1], rest);
        assert t == Literal(params[k - 1]) + rest;
        SameTails(Value(params[k - 1]), Lex(rest), Meant(Behind(sql), params));
      } else {
        var rest := FillIn(sql[1..], Literals(params));
        FilledReadsBack(sql[1..], params);
        assert t == [sql[0]] + rest && t[1..] == rest;
        SameTails(Char(sql[0]), Lex(rest), Meant(sql[1..], params));
      }
    }
  }

  lemma SameTails(head: Token, x: seq<Token>, y: seq<Token>)
    ensures [head] + x == [head] + y <==> x == y
  {
    assert ([head] + x)[1..] == x && ([head] + y)[1..] == y;
  }

  // ---- only one statement has the meaning ----------------------------------

  /** A statement with these tokens. */
  function Written(tokens: seq<Token>): string {
    if tokens == [] then ""
    else Text(tokens[0]) + Written(tokens[1..])
  }

  lemma {:induction false} ReadingIsWritten(s: string, value: string)
    ensures var r := ReadLiteral(s, value);
      r.Some? ==> value <= r.value.0 && s == DoubleQuotes(r.value.0[|value|..]) + "'" + r.value.1
  {
    var r := ReadLiteral(s, value);
    if s != "" && s[0] != QUOTE {
      ReadingIsWritten(s[1..], value + [s[0]]);
      if r.Some? {
        ReadsCharacter(s[0], value, r.value.0, s[1..], r.value.1);
      }
    } else if |s| > 1 && s[1] == QUOTE {
      ReadingIsWritten(s[2..], value + [QUOTE]);
      if r.Some? {
        assert s == "''" + s[2..];
        ReadsCharacter(QUOTE, value, r.value.0, s[2..], r.value.1);
      }
    } else if s != "" {
      assert r.value.0[|value|..] == "" && s == "" + "'" + s[1..];
    }
  }

  lemma ReadsCharacter(c: char, value: string, read: string, behind: string, rest: string)
    requires value + [c] <= read && behind == DoubleQuotes(read[|value| + 1..]) + "'" + rest
    ensures value <= read
    ensures (if c == QUOTE then "''" else [c]) + behind == DoubleQuotes(read[|value|..]) + "'" + rest
  {
    var v := read[|value|..];
    assert v[0] == c && v[1..] == read[|value| + 1..];
  }

  lemma LexQuote(s: string)
    requires s != "" && s[0] == QUOTE
    ensures var r := ReadLiteral(s[1..], "");
      if r.None? then Lex(s) == [Unterminated]
      else |r.value.1| < |s| && Lex(s) == [Value(r.value.0)] + Lex(r.value.1) && s == Literal(r.value.0) + r.value.1
  {
    var r := ReadLiteral(s[1..], "");
    ReadingShrinks(s[1..], "");
    ReadingIsWritten(s[1..], "");
    hide ReadLiteral, DoubleQuotes;
    if r.Some? {
      assert r.value.0[|""|..] == r.value.0;
      assert s == "'" + s[1..];
    }
  }

  lemma LexCharacter(s: string)
    requires s != "" && s[0] != QUOTE
    ensures Lex(s) == [Char(s[0])] + Lex(s[1..])
  {
  }

  function Text(token: Token): string {
    match token
    case Char(c) => [c]
    case Value(v) => Literal(v)
    case Unterminated => "'"
  }

  lemma WrittenStep(token: Token, rest: seq<Token>)
    ensures Written([token] + rest) == Text(token) + Written(rest)
    ensures forall t :: t in [token] + rest <==> t == token || t in rest
  {
    hide Text;
    assert ([token] + rest)[1..] == rest;
  }

  /** No two statements have the same tokens. */
  lemma {:induction false} LexIsWritten(s: string)
    requires Unterminated !in Lex(s)
    ensures Written(Lex(s)) == s
    decreases |s|
  {
    hide ReadLiteral, Literal, Lex, Written;
    if s == "" {
      LexOfNothing();
    } else if s[0] != QUOTE {
      LexCharacter(s);
      WrittenStep(Char(s[0]), Lex(s[1..]));
      LexIsWritten(s[1..]);
      assert s == [s[0]] + s[1..];
    } else {
      var r := ReadLiteral(s[1..], "");
      LexQuote(s);
      assert Unterminated in [Unterminated];
      WrittenStep(Value(r.value.0), Lex(r.value.1));
      LexIsWritten(r.value.1);
    }
  }

  lemma LexOfNothing()
    ensures Lex("") == [] && Written([]) == ""
  {
  }

  lemma MeantStep(sql: string, params: seq<string>)
    requires sql != ""
    ensures var k := Begins(sql, |params|);
      var head, rest := if k > 0 then Value(params[k - 1]) else Char(sql[0]), if k > 0 then Behind(sql) else sql[1..];
      && Meant(sql, params) == [head] + Meant(rest, params)
      && FillIn(sql, Literals(params)) == Text(head) + FillIn(rest, Literals(params))
  {
    hide Begins, Behind, Literal;
  }

  lemma {:induction false} MeantIsFilled(sql: string, params: seq<string>)
    ensures Unterminated !in Meant(sql, params) && Written(Meant(sql, params)) == FillIn(sql, Literals(params))
    decreases |sql|
  {
    if sql != "" {
      hide Begins, Behind, Literals, Meant, FillIn, Written, Text;
      var k := Begins(sql, |params|);
      var head := if k > 0 then Value(params[k - 1]) else Char(sql[0]);
      var rest := if k > 0 then Behind(sql) else sql[1..];
      MeantStep(sql, params);
      MeantIsFilled(rest, params);
      WrittenStep(head, Meant(rest, params));
    }
  }

  /** What `pg_params` makes of a statement without quotes of its own, for all parameters, reads as
      the caller means it if and only if no two placeholders stand side by side, none that the loop
      finds goes on with a further digit, and no literal it puts in contains the placeholder of a
      later parameter. */
  lemma StatementReadsBack(sql: string, params: seq<string>)
    requires QUOTE !in sql
    ensures Lex(Chain(sql, Literals(params), 1, |params|)) == Meant(sql, params)
       <==> !Adjacent(sql, |params|) && Clean(sql, Literals(params))
  {
    var chained := Chain(sql, Literals(params), 1, |params|);
    AgreesExactly(sql, params);
    FilledReadsBack(sql, params);
    MeantIsFilled(sql, params);
    hide Chain, FillIn, Lex, Meant, Adjacent, Clean, Literals, Written;
    if Lex(chained) == Meant(sql, params) {
      LexIsWritten(chained);
    }
  }

  // ---- side by side --------------------------------------------------------

  lemma PairOfLiterals(a: string, b: string)
    ensures Literal(a) + Literal(b) == Literal(a + "'" + b)
  {
    DoubleQuotesSplits(a + "'", b);
    DoubleQuotesSplits(a, "'");
    QuoteDoubled();
    hide DoubleQuotes;
  }

  lemma QuoteDoubled()
    ensures DoubleQuotes("'") == "''"
  {
  }

  lemma OneDigit(c: char, rest: string)
    requires '1' <= c <= '9' && (rest == "" || !IsDigit(rest[0]))
    ensures var sql := ['$', c] + rest; sql[0] == '$' && Digits(sql) == [c] && Behind(sql) == rest
  {
    var sql := ['$', c] + rest;
    assert sql[1..] == [c] + rest && sql[1..][1..] == rest;
    assert DigitRun(rest) == 0 && DigitRun(sql[1..]) == 1;
  }

  lemma FilledOne(c: char, literals: seq<string>)
    requires '1' <= c <= '9' && c as int - '0' as int <= |literals|
    ensures FilledDollar([c], literals) == literals[c as int - '0' as int - 1]
  {
    assert Lead([c]) == c as int - '0' as int;
    NumberedIs([c], |literals|);
    hide Numbered, Lead;
  }

  lemma FillsOne(c: char, rest: string, literals: seq<string>)
    requires '1' <= c <= '9' && c as int - '0' as int <= |literals| && (rest == "" || !IsDigit(rest[0]))
    ensures FillIn(['$', c] + rest, literals) == literals[c as int - '0' as int - 1] + FillIn(rest, literals)
  {
    hide FillIn, Digits, Behind, FilledDollar;
    OneDigit(c, rest);
    FillsDollar(['$', c] + rest, literals);
    FilledOne(c, literals);
  }

  lemma FillsPair(literals: seq<string>)
    requires |literals| == 2
    ensures FillIn("$1$2", literals) == literals[0] + literals[1]
  {
    FillsOne('1', "$2", literals);
    FillsOne('2', "", literals);
    assert FillIn("", literals) == "";
    hide FillIn;
    assert ['$', '1'] + "$2" == "$1$2" && ['$', '2'] + "" == "$2";
    assert literals[1] + "" == literals[1];
  }

  /** Two placeholders side by side read as one value, with a quote between the parameters. */
  lemma SideBySideIsOne(a: string, b: string)
    ensures Lex(FillIn("$1$2", Literals([a, b]))) == [Value(a + "'" + b)]
  {
    FillsPair(Literals([a, b]));
    PairOfLiterals(a, b);
    LexLiteral(a + "'" + b, "");
    hide Literal, FillIn;
    assert Literal(a + "'" + b) + "" == Literal(a + "'" + b);
  }
}
