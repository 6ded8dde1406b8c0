/** `pg_params` (_remote.py) with ten parameters or more, whose placeholders begin like those of
    the first nine. */
module SqlManyParams {
  import opened SqlParams

  // ---- a placeholder of one digit ------------------------------------------

  /** The text has a dollar followed by the digit somewhere. */
  predicate Names(s: string, d: char) {
    |s| >= 2 && ((s[0] == '$' && s[1] == d) || Names(s[1..], d))
  }

  predicate DollarFree(s: string) {
    '$' !in s
  }

  /** What replaces a placeholder: a quoted literal without a dollar. */
  predicate Tame(put: string) {
    put != "" && put[0] == QUOTE && DollarFree(put)
  }

  lemma {:induction false} NamesBehind(put: string, rest: string, d: char)
    requires DollarFree(put)
    ensures Names(put + rest, d) <==> Names(rest, d)
  {
    if put == "" {
      assert put + rest == rest;
    } else {
      assert put[0] in put;
      NamesBehind(put[1..], rest, d);
      assert (put + rest)[1..] == put[1..] + rest;
    }
  }

  /** Replacing keeps a text empty or begins it with what it began with or with a quote. */
  lemma FirstOfReplaced(s: string, k: nat, put: string)
    requires 1 <= k <= 9 && Tame(put)
    ensures var t := ReplaceAll(s, Placeholder(k), put); (t == "" <==> s == "") && (s != "" ==> t[0] == s[0] || t[0] == QUOTE)
  {
    ReplaceStep(s, k, put);
    hide ReplaceAll, Placeholder;
  }

  /** A replacement leaves no placeholder of its own, and brings no other one in. */
  lemma {:induction false} ReplacedNames(s: string, k: nat, put: string, d: char)
    requires 1 <= k <= 9 && Tame(put) && '1' <= d <= '9'
    ensures var t := ReplaceAll(s, Placeholder(k), put);
      && (d == Digit(k) ==> !Names(t, d))
      && (Names(t, d) ==> Names(s, d))
  {
    hide ReplaceAll, Placeholder;
    ReplaceStep(s, k, put);
    if |s| >= 2 && s[0] == '$' && s[1] == Digit(k) {
      ReplacedNames(s[2..], k, put, d);
      NamesBehind(put, ReplaceAll(s[2..], Placeholder(k), put), d);
      assert Names(s[2..], d) ==> Names(s[1..], d);
    } else if s != "" {
      ReplacedNames(s[1..], k, put, d);
      FirstOfReplaced(s[1..], k, put);
      var rest := ReplaceAll(s[1..], Placeholder(k), put);
      assert ([s[0]] + rest)[1..] == rest;
    }
  }

  // ---- longer placeholders -------------------------------------------------

  /** The first digit of a number. */
  function Leading(k: nat): (d: nat)
    requires k > 0
    ensures 1 <= d <= 9 && d <= k
  {
    if k < 10 then k else Leading(k / 10)
  }

  lemma {:induction false} DecimalLeads(k: nat)
    requires k > 0
    ensures Decimal(k)[0] == Digit(Leading(k)) && (k >= 10 <==> |Decimal(k)| >= 2)
  {
    if k >= 10 {
      DecimalLeads(k / 10);
    }
  }

  lemma {:induction false} ReplaceAbsent(s: string, k: nat, put: string)
    requires k > 0 && !Names(s, Digit(Leading(k)))
    ensures ReplaceAll(s, Placeholder(k), put) == s
  {
    DecimalLeads(k);
    var p := Placeholder(k);
    if |s| >= |p| {
      assert s[..|p|] != p by {
        assert p[0] == '$' && p[1] == Decimal(k)[0] && s[..|p|][0] == s[0] && s[..|p|][1] == s[1];
      }
      ReplaceAbsent(s[1..], k, put);
    }
  }

  predicate AllTame(literals: seq<string>) {
    forall i :: 0 <= i < |literals| ==> Tame(literals[i])
  }

  /** After the first nine replacements no placeholder of one digit is left. */
  lemma {:induction false} NoneLeft(sql: string, literals: seq<string>, m: nat, j: nat)
    requires AllTame(literals) && 1 <= j <= m <= |literals| && m <= 9
    ensures !Names(Chain(sql, literals, 1, m), Digit(j))
  {
    var before := Chain(sql, literals, 1, m - 1);
    ReplacedNames(before, m, literals[m - 1], Digit(j));
    if j < m {
      NoneLeft(sql, literals, m - 1, j);
    }
    hide ReplaceAll, Placeholder, Names;
  }

  /** Replacements from the tenth on find nothing: a statement with more parameters is filled in
      as with its first nine, and no other literal ever shows in it. */
  lemma {:induction false} OnlyNineAreFilled(sql: string, literals: seq<string>, m: nat)
    requires AllTame(literals) && 9 <= m <= |literals|
    ensures Chain(sql, literals, 1, m) == Chain(sql, literals[..9], 1, 9)
  {
    hide ReplaceAll, Placeholder, Names, Tame;
    if m == 9 {
      ChainOfPrefix(sql, literals, 9);
    } else {
      OnlyNineAreFilled(sql, literals, m - 1);
      ChainOfPrefix(sql, literals, 9);
      NoneLeft(sql, literals, 9, Leading(m));
      ReplaceAbsent(Chain(sql, literals, 1, m - 1), m, literals[m - 1]);
    }
  }

  lemma {:induction false} ChainOfPrefix(sql: string, literals: seq<string>, m: nat)
    requires m <= 9 <= |literals|
    ensures Chain(sql, literals, 1, m) == Chain(sql, literals[..9], 1, m)
  {
    hide ReplaceAll, Placeholder;
    if m > 0 {
      ChainOfPrefix(sql, literals, m - 1);
    }
  }

  /** The tenth and every later parameter might as well not be there. */
  lemma LaterAreLost(sql: string, literals: seq<string>, others: seq<string>)
    requires AllTame(literals) && AllTame(others) && |literals| >= 10 && |others| >= 9 && literals[..9] == others[..9]
    ensures Chain(sql, literals, 1, |literals|) == Chain(sql, others, 1, |others|)
  {
    OnlyNineAreFilled(sql, literals, |literals|);
    OnlyNineAreFilled(sql, others, |others|);
    hide Chain;
  }

  lemma TameLiterals(params: seq<string>)
    requires forall i :: 0 <= i < |params| ==> DollarFree(params[i])
    ensures AllTame(Literals(params))
  {
    forall i | 0 <= i < |params|
      ensures Tame(Literals(params)[i])
    {
      DoubledFree(params[i]);
    }
  }

  lemma {:induction false} DoubledFree(s: string)
    requires DollarFree(s)
    ensures DollarFree(DoubleQuotes(s))
  {
    if s != "" {
      assert s[0] in s && forall c :: c in s[1..] ==> c in s;
      DoubledFree(s[1..]);
    }
  }

  lemma {:induction false} ContainsDollar(s: string, j: nat)
    requires Contains(s, Placeholder(j))
    ensures '$' in s
  {
    var p := Placeholder(j);
    if s[..|p|] == p {
      assert s[0] == s[..|p|][0];
    } else {
      ContainsDollar(s[1..], j);
    }
  }

  predicate AllDollarFree(params: seq<string>) {
    forall i :: 0 <= i < |params| ==> DollarFree(params[i])
  }

  /** Literals without dollars contain no placeholder. */
  lemma HarmlessLiterals(params: seq<string>)
    requires AllDollarFree(params) && |params| <= 9
    ensures forall i :: 0 <= i < |params| ==> Harmless(Literals(params), i)
  {
    TameLiterals(params);
    forall i, j | 0 <= i < |params| && i + 1 < j <= |params|
      ensures !Contains(Literals(params)[i], Placeholder(j))
    {
      assert Tame(Literals(params)[i]);
      if Contains(Literals(params)[i], Placeholder(j)) {
        ContainsDollar(Literals(params)[i], j);
      }
    }
  }

  /** The sequential loop fills in the first nine at once, whatever is passed behind them. */
  lemma ChainIsFirstNine(sql: string, params: seq<string>)
    requires AllDollarFree(params) && |params| >= 9
    ensures |Literals(params)| == |params|
    ensures Chain(sql, Literals(params), 1, |params|) == Substitute(sql, Literals(params)[..9])
  {
    TameLiterals(params);
    OnlyNineAreFilled(sql, Literals(params), |params|);
    assert Literals(params)[..9] == Literals(params[..9]);
    HarmlessLiterals(params[..9]);
    SequentialIsSimultaneous(sql, params[..9]);
    hide Chain, Substitute, Harmless, Used, Literals;
  }
}
