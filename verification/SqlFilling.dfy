/** `pg_params` (_remote.py) with any number of parameters: exactly when replacing the placeholders
    one after another fills them in as if all at once. */
module SqlFilling {
  import opened SqlParams
  import opened SqlManyParams

  // ---- filling in at once --------------------------------------------------

  predicate IsDigit(c: char) {
    '0' <= c <= '9'
  }

  /** How many digits the text begins with. */
  function DigitRun(s: string): (n: nat)
    ensures n <= |s| && (forall i :: 0 <= i < n ==> IsDigit(s[i])) && (n < |s| ==> !IsDigit(s[n]))
  {
    if s == "" || !IsDigit(s[0]) then 0 else 1 + DigitRun(s[1..])
  }

  /** The digits behind the dollar that the text begins with, all of them. */
  function Digits(s: string): (d: string)
    requires s != ""
  {
    s[1..][..DigitRun(s[1..])]
  }

  /** The text behind them. */
  function Behind(s: string): (t: string)
    requires s != ""
    ensures |t| < |s| && (t != "" ==> !IsDigit(t[0]))
  {
    s[1..][DigitRun(s[1..])..]
  }

  /** The parameter, of n, whose number these digits are; 0 for none. */
  function Numbered(digits: string, n: nat): (k: nat)
    ensures k <= n && (k > 0 ==> Decimal(k) == digits)
  {
    if n == 0 || Decimal(n) == digits then n else Numbered(digits, n - 1)
  }

  /** The parameter the text begins with a placeholder of: a dollar and all the digits that follow. */
  function Begins(s: string, n: nat): (k: nat)
    ensures k <= n && (k > 0 ==> s != "" && s[0] == '$')
  {
    if s == "" || s[0] != '$' then 0 else Numbered(Digits(s), n)
  }

  /** All placeholders at once, of any number of digits. */
  function FillIn(sql: string, literals: seq<string>): string
    decreases |sql|
  {
    if sql == "" then "" else
    var k := Begins(sql, |literals|);
    if k > 0 then literals[k - 1] + FillIn(Behind(sql), literals) else [sql[0]] + FillIn(sql[1..], literals)
  }

  // ---- the condition -------------------------------------------------------

  /** The text begins with a placeholder of one of n parameters, and one more digit. */
  predicate BreaksAt(s: string, n: nat) {
    |s| >= 3 && s[0] == '$' && '1' <= s[1] <= '9' && s[1] as int - '0' as int <= n && IsDigit(s[2])
  }

  predicate Breaks(sql: string, n: nat) {
    sql != "" && (BreaksAt(sql, n) || Breaks(sql[1..], n))
  }

  /** The text begins with the placeholder of one digit, and no more digit. */
  predicate UsesAt(s: string, k: nat)
    requires 1 <= k <= 9
  {
    |s| >= 2 && s[0] == '$' && s[1] == Digit(k) && (|s| > 2 ==> !IsDigit(s[2]))
  }

  predicate Uses(sql: string, k: nat)
    requires 1 <= k <= 9
  {
    sql != "" && (UsesAt(sql, k) || Uses(sql[1..], k))
  }

  /** No placeholder that the loop finds goes on with a further digit, and no literal it puts in
      contains the placeholder of a later parameter. */
  predicate Clean(sql: string, literals: seq<string>) {
    && !Breaks(sql, |literals|)
    && forall k :: 1 <= k <= 9 && k <= |literals| && Uses(sql, k) ==> Harmless(literals, k - 1)
  }

  predicate CleanFront(sql: string, literals: seq<string>) {
    && !BreaksAt(sql, |literals|)
    && forall k :: 1 <= k <= 9 && k <= |literals| && UsesAt(sql, k) ==> Harmless(literals, k - 1)
  }

  lemma CleanStep(sql: string, literals: seq<string>)
    requires sql != ""
    ensures Clean(sql, literals) <==> CleanFront(sql, literals) && Clean(sql[1..], literals)
  {
    hide Harmless, UsesAt, BreaksAt;
    forall k | 1 <= k <= 9
      ensures Uses(sql, k) <==> UsesAt(sql, k) || Uses(sql[1..], k)
    {
    }
  }

  predicate AllDigits(s: string) {
    forall i :: 0 <= i < |s| ==> IsDigit(s[i])
  }

  /** Digits matter only behind their dollar. */
  lemma {:induction false} CleanBehindDigits(digits: string, rest: string, literals: seq<string>)
    requires AllDigits(digits)
    ensures Clean(digits + rest, literals) <==> Clean(rest, literals)
  {
    if digits == "" {
      assert digits + rest == rest;
    } else {
      CleanStep(digits + rest, literals);
      assert (digits + rest)[1..] == digits[1..] + rest;
      CleanBehindDigits(digits[1..], rest, literals);
      hide Clean;
    }
  }

  /** A text with a dollar in front, in its three parts. */
  lemma DollarParts(sql: string)
    requires sql != "" && sql[0] == '$'
    ensures sql == "$" + Digits(sql) + Behind(sql) && sql[1..] == Digits(sql) + Behind(sql) && AllDigits(Digits(sql))
  {
    var run := DigitRun(sql[1..]);
    assert sql[1..] == sql[1..][..run] + sql[1..][run..];
  }

  lemma CleanBehind(sql: string, literals: seq<string>)
    requires sql != "" && sql[0] == '$'
    ensures Clean(sql, literals) <==> CleanFront(sql, literals) && Clean(Behind(sql), literals)
  {
    CleanStep(sql, literals);
    DollarParts(sql);
    CleanBehindDigits(Digits(sql), Behind(sql), literals);
    hide Clean, CleanFront;
  }

  // ---- texts that differ from the end --------------------------------------

  /** Before a common tail, one ends in a and the other in b. */
  predicate PartAt(s: string, t: string, x: string, y: string, tail: string) {
    s == x + tail && t == y + tail && x != "" && y != "" && x[|x| - 1] != y[|y| - 1]
  }

  ghost predicate Apart(s: string, t: string) {
    exists x, y, tail :: PartAt(s, t, x, y, tail)
  }

  lemma ApartDiffers(s: string, t: string)
    requires Apart(s, t)
    ensures s != t && Apart(t, s)
  {
    var x, y, tail :| PartAt(s, t, x, y, tail);
    assert PartAt(t, s, y, x, tail);
    assert s[|x| - 1] == x[|x| - 1] && t[|y| - 1] == y[|y| - 1];
  }

  lemma ApartBehind(s: string, t: string, u: string, v: string)
    requires Apart(s, t)
    ensures Apart(u + s, v + t)
  {
    var x, y, tail :| PartAt(s, t, x, y, tail);
    assert u + s == (u + x) + tail && v + t == (v + y) + tail;
    assert PartAt(u + s, v + t, u + x, v + y, tail);
  }

  lemma ApartBefore(s: string, t: string, u: string)
    requires Apart(s, t)
    ensures Apart(s + u, t + u)
  {
    var x, y, tail :| PartAt(s, t, x, y, tail);
    assert s + u == x + (tail + u) && t + u == y + (tail + u);
    assert PartAt(s + u, t + u, x, y, tail + u);
  }

  /** As Apart, where the one ends in a digit and the other in a quote. */
  predicate HitAt(s: string, t: string, x: string, y: string, tail: string) {
    s == x + tail && t == y + tail && x != "" && y != "" && IsDigit(x[|x| - 1]) && y[|y| - 1] == QUOTE
  }

  ghost predicate Hit(s: string, t: string) {
    exists x, y, tail :: HitAt(s, t, x, y, tail)
  }

  lemma HitIsApart(s: string, t: string)
    requires Hit(s, t)
    ensures Apart(s, t)
  {
    var x, y, tail :| HitAt(s, t, x, y, tail);
    assert PartAt(s, t, x, y, tail);
  }

  lemma HitBehind(s: string, t: string, u: string, v: string)
    requires Hit(s, t)
    ensures Hit(u + s, v + t)
  {
    var x, y, tail :| HitAt(s, t, x, y, tail);
    assert u + s == (u + x) + tail && v + t == (v + y) + tail;
    assert HitAt(u + s, v + t, u + x, v + y, tail);
  }

  // ---- one replacement -----------------------------------------------------

  predicate EndsInQuote(s: string) {
    s != "" && s[|s| - 1] == QUOTE
  }

  /** No placeholder lies across the cut. */
  predicate Cut(a: string, b: string) {
    a == "" || b == "" || !IsDigit(b[0]) || !(a[|a| - 1] == '$' || IsDigit(a[|a| - 1]))
  }

  lemma NotAcross(a: string, b: string, p: string)
    requires Cut(a, b) && 0 < |a| < |p| <= |a + b|
    requires p[0] == '$' && AllDigits(p[1..])
    ensures (a + b)[..|p|] != p
  {
    var i := |a|;
    assert p[i] == p[1..][i - 1];
    if i > 1 {
      assert p[i - 1] == p[1..][i - 2];
    }
    assert (a + b)[..|p|][i] == b[0] && (a + b)[..|p|][i - 1] == a[i - 1];
  }

  lemma PlaceholderIs(k: nat)
    requires k > 0
    ensures var p := Placeholder(k);
      |p| >= 2 && p[0] == '$' && AllDigits(p[1..]) && p[1..] == Decimal(k) && IsDigit(p[|p| - 1]) && '1' <= p[1] <= '9'
  {
    DecimalLeads(k);
    hide Decimal;
  }

  lemma {:induction false} ReplaceAtCut(a: string, b: string, k: nat, put: string)
    requires k > 0 && Cut(a, b)
    ensures ReplaceAll(a + b, Placeholder(k), put) == ReplaceAll(a, Placeholder(k), put) + ReplaceAll(b, Placeholder(k), put)
  {
    hide Placeholder;
    PlaceholderIs(k);
    var p := Placeholder(k);
    if a == "" {
      assert a + b == b;
    } else if |a| >= |p| && a[..|p|] == p {
      assert (a + b)[..|p|] == p && (a + b)[|p|..] == a[|p|..] + b;
      ReplaceAtCut(a[|p|..], b, k, put);
      assert ReplaceAll(a, p, put) == put + ReplaceAll(a[|p|..], p, put);
      assert ReplaceAll(a + b, p, put) == put + ReplaceAll(a[|p|..] + b, p, put);
    } else if |a + b| >= |p| {
      if |a| < |p| {
        NotAcross(a, b, p);
      } else {
        assert (a + b)[..|p|] == a[..|p|];
      }
      assert (a + b)[1..] == a[1..] + b;
      ReplaceAtCut(a[1..], b, k, put);
      assert ReplaceAll(a, p, put) == [a[0]] + ReplaceAll(a[1..], p, put);
      assert ReplaceAll(a + b, p, put) == [a[0]] + ReplaceAll(a[1..] + b, p, put);
    }
  }

  lemma {:induction false} ReplaceKeepsQuote(s: string, k: nat, put: string)
    requires k > 0 && EndsInQuote(s) && EndsInQuote(put)
    ensures EndsInQuote(ReplaceAll(s, Placeholder(k), put))
  {
    hide Placeholder;
    PlaceholderIs(k);
    var p := Placeholder(k);
    if |s| >= |p| {
      if s[..|p|] == p {
        assert s[|p| - 1] == p[|p| - 1];
        ReplaceKeepsQuote(s[|p|..], k, put);
      } else {
        ReplaceKeepsQuote(s[1..], k, put);
      }
    }
  }

  /** A replacement changes nothing, or puts a quote where a digit was. */
  lemma {:induction false} ReplaceHits(s: string, k: nat, put: string)
    requires k > 0 && EndsInQuote(put)
    ensures !Contains(s, Placeholder(k)) ==> ReplaceAll(s, Placeholder(k), put) == s
    ensures Contains(s, Placeholder(k)) ==> Hit(s, ReplaceAll(s, Placeholder(k), put))
  {
    hide Placeholder, Hit;
    PlaceholderIs(k);
    var p := Placeholder(k);
    if |s| >= |p| {
      if s[..|p|] == p {
        var rest := s[|p|..];
        var after := ReplaceAll(rest, p, put);
        assert s == p + rest && ReplaceAll(s, p, put) == put + after;
        ReplaceHits(rest, k, put);
        if Contains(rest, p) {
          HitBehind(rest, after, p, put);
        } else {
          FirstHit(p, put, rest);
        }
      } else {
        ReplaceHits(s[1..], k, put);
        assert s == [s[0]] + s[1..];
        if Contains(s[1..], p) {
          HitBehind(s[1..], ReplaceAll(s[1..], p, put), [s[0]], [s[0]]);
        }
      }
    }
  }

  lemma FirstHit(p: string, put: string, rest: string)
    requires p != "" && IsDigit(p[|p| - 1]) && EndsInQuote(put)
    ensures Hit(p + rest, put + rest)
  {
    assert HitAt(p + rest, put + rest, p, put, rest);
  }

  lemma HitStays(s: string, t: string, k: nat, put: string)
    requires k > 0 && EndsInQuote(put) && Hit(s, t)
    ensures Hit(s, ReplaceAll(t, Placeholder(k), put))
  {
    var x, y, tail :| HitAt(s, t, x, y, tail);
    hide Placeholder, ReplaceAll;
    ReplaceAtCut(y, tail, k, put);
    ReplaceKeepsQuote(y, k, put);
    ReplaceHits(tail, k, put);
    var y' := ReplaceAll(y, Placeholder(k), put);
    if Contains(tail, Placeholder(k)) {
      HitBehind(tail, ReplaceAll(tail, Placeholder(k), put), x, y');
    } else {
      assert HitAt(s, y' + tail, x, y', tail);
    }
  }

  // ---- all of them ---------------------------------------------------------

  predicate AllLiteral(literals: seq<string>) {
    forall i :: 0 <= i < |literals| ==> IsLiteral(literals[i])
  }

  /** Nothing in the text is replaced, or the result differs from it for good. */
  lemma {:induction false} ChainHits(s: string, literals: seq<string>, first: nat, last: nat)
    requires 1 <= first && last <= |literals| && AllLiteral(literals)
    ensures (exists j :: first <= j <= last && Contains(s, Placeholder(j))) ==> Hit(s, Chain(s, literals, first, last))
    ensures !(exists j :: first <= j <= last && Contains(s, Placeholder(j))) ==> Chain(s, literals, first, last) == s
    decreases last
  {
    hide Placeholder, ReplaceAll, Hit, Contains;
    if first <= last {
      ChainHits(s, literals, first, last - 1);
      assert IsLiteral(literals[last - 1]);
      var before := Chain(s, literals, first, last - 1);
      if before == s {
        ReplaceHits(s, last, literals[last - 1]);
      }
      if Hit(s, before) {
        HitStays(s, before, last, literals[last - 1]);
      }
      if exists j :: first <= j <= last - 1 && Contains(s, Placeholder(j)) {
        assert Hit(s, Chain(s, literals, first, last));
      }
    }
  }

  /** A cut between a text and one that begins with no digit stays one. */
  lemma {:induction false} ChainAtCut(a: string, b: string, literals: seq<string>, first: nat, last: nat)
    requires 1 <= first && last <= |literals| && AllLiteral(literals) && (b == "" || !IsDigit(b[0]))
    ensures Chain(a + b, literals, first, last) == Chain(a, literals, first, last) + Chain(b, literals, first, last)
    ensures var t := Chain(b, literals, first, last); t == "" || !IsDigit(t[0])
    decreases last
  {
    hide Placeholder, ReplaceAll;
    if first <= last {
      ChainAtCut(a, b, literals, first, last - 1);
      assert IsLiteral(literals[last - 1]);
      var x, y := Chain(a, literals, first, last - 1), Chain(b, literals, first, last - 1);
      ReplaceAtCut(x, y, last, literals[last - 1]);
      FrontNoDigit(y, last, literals[last - 1]);
    }
  }

  lemma FrontNoDigit(s: string, k: nat, put: string)
    requires k > 0 && put != "" && !IsDigit(put[0]) && (s == "" || !IsDigit(s[0]))
    ensures var t := ReplaceAll(s, Placeholder(k), put); t == "" || !IsDigit(t[0])
  {
  }

  /** Digits behind a closing quote stay as they are. */
  lemma {:induction false} ChainBeforeDigits(a: string, digits: string, literals: seq<string>, first: nat, last: nat)
    requires 1 <= first && last <= |literals| && AllLiteral(literals) && EndsInQuote(a) && AllDigits(digits)
    ensures Chain(a + digits, literals, first, last) == Chain(a, literals, first, last) + digits
    ensures EndsInQuote(Chain(a, literals, first, last))
    decreases last
  {
    hide Placeholder, ReplaceAll;
    if first <= last {
      ChainBeforeDigits(a, digits, literals, first, last - 1);
      assert IsLiteral(literals[last - 1]);
      var x := Chain(a, literals, first, last - 1);
      ReplaceAtCut(x, digits, last, literals[last - 1]);
      ReplaceKeepsQuote(x, last, literals[last - 1]);
      DigitsStay(digits, last, literals[last - 1]);
    }
  }

  lemma {:induction false} DigitsStay(digits: string, k: nat, put: string)
    requires k > 0 && AllDigits(digits)
    ensures ReplaceAll(digits, Placeholder(k), put) == digits
  {
    hide Placeholder;
    PlaceholderIs(k);
    if digits != "" {
      DigitsStay(digits[1..], k, put);
    }
  }

  /** A character that is no dollar is kept. */
  lemma {:induction false} ChainKeeps(c: char, s: string, literals: seq<string>, first: nat, last: nat)
    requires 1 <= first && last <= |literals| && c != '$'
    ensures Chain([c] + s, literals, first, last) == [c] + Chain(s, literals, first, last)
    decreases last
  {
    if first <= last {
      ChainKeeps(c, s, literals, first, last - 1);
      ReplaceKeeps(c, Chain(s, literals, first, last - 1), last, literals[last - 1]);
    }
  }

  lemma ReplaceKeeps(c: char, s: string, k: nat, put: string)
    requires k > 0 && c != '$'
    ensures ReplaceAll([c] + s, Placeholder(k), put) == [c] + ReplaceAll(s, Placeholder(k), put)
  {
    hide Placeholder;
    PlaceholderIs(k);
    var p := Placeholder(k);
    assert ([c] + s)[1..] == s;
    if |s| + 1 >= |p| {
      assert ([c] + s)[..|p|][0] == c;
    }
  }

  // ---- a dollar and its digits ---------------------------------------------

  /** The value of the first digit, 0 for none. */
  function Lead(digits: string): nat {
    if digits == "" || !IsDigit(digits[0]) then 0 else digits[0] as int - '0' as int
  }

  /** A placeholder that the text begins with has the text's first digit. */
  lemma LeadOfPrefix(digits: string, k: nat)
    requires k > 0
    ensures Decimal(k) <= digits ==> 1 <= Lead(digits) <= 9 && Lead(digits) <= k && (k <= 9 ==> k == Lead(digits))
  {
    DecimalLeads(k);
    if Decimal(k) <= digits {
      assert digits[0] == Decimal(k)[0];
    }
    hide Decimal;
  }

  lemma BeginsWith(digits: string, k: nat)
    requires k > 0
    ensures var s, p := "$" + digits, Placeholder(k); |s| >= |p| && s[..|p|] == p ==> Decimal(k) <= digits
  {
    var s, p := "$" + digits, Placeholder(k);
    if |s| >= |p| && s[..|p|] == p {
      assert p[1..] == s[..|p|][1..] == digits[..|p| - 1];
    }
  }

  /** A step that replaces nothing: only the first digit's parameter, or one it leads, can. */
  lemma StepBeforeLead(digits: string, k: nat, put: string)
    requires k > 0 && AllDigits(digits) && (Lead(digits) == 0 || k < Lead(digits))
    ensures ReplaceAll("$" + digits, Placeholder(k), put) == "$" + digits
  {
    hide Placeholder, Lead;
    PlaceholderIs(k);
    BeginsWith(digits, k);
    LeadOfPrefix(digits, k);
    DigitsStay(digits, k, put);
    assert ("$" + digits)[1..] == digits;
  }

  lemma StepAtLead(digits: string, put: string)
    requires AllDigits(digits) && Lead(digits) > 0
    ensures ReplaceAll("$" + digits, Placeholder(Lead(digits)), put) == put + digits[1..]
  {
    var s, k := "$" + digits, Lead(digits);
    assert Placeholder(k) == s[..2] && s[2..] == digits[1..];
    DigitsStay(digits[1..], k, put);
  }

  lemma {:induction false} ChainBeforeLead(digits: string, literals: seq<string>, last: nat)
    requires AllDigits(digits) && last <= |literals| && (Lead(digits) == 0 || last < Lead(digits))
    ensures Chain("$" + digits, literals, 1, last) == "$" + digits
  {
    hide ReplaceAll, Placeholder, Lead;
    if last > 0 {
      ChainBeforeLead(digits, literals, last - 1);
      StepBeforeLead(digits, last, literals[last - 1]);
    }
  }

  lemma {:induction false} ChainSplits(s: string, literals: seq<string>, mid: nat, last: nat)
    requires 1 <= mid <= last + 1 && last <= |literals|
    ensures Chain(s, literals, 1, last) == Chain(Chain(s, literals, 1, mid - 1), literals, mid, last)
    decreases last
  {
    if mid <= last {
      ChainSplits(s, literals, mid, last - 1);
    }
  }

  /** What becomes of a dollar and its digits: the literal of the first digit's parameter, with the
      other digits behind it. */
  lemma ChainOfDollar(digits: string, literals: seq<string>)
    requires AllDigits(digits) && AllLiteral(literals)
    ensures var d, n := Lead(digits), |literals|;
      Chain("$" + digits, literals, 1, n) ==
        if 1 <= d <= n then Chain(literals[d - 1], literals, d + 1, n) + digits[1..] else "$" + digits
  {
    var d, n := Lead(digits), |literals|;
    hide ReplaceAll, Placeholder, Lead;
    if 1 <= d <= n {
      LeadIsDigit(digits);
      ChainBeforeLead(digits, literals, d - 1);
      ChainSplits("$" + digits, literals, d + 1, n);
      StepAtLead(digits, literals[d - 1]);
      assert IsLiteral(literals[d - 1]);
      ChainBeforeDigits(literals[d - 1], digits[1..], literals, d + 1, n);
    } else {
      ChainBeforeLead(digits, literals, n);
    }
  }

  lemma LeadIsDigit(digits: string)
    ensures Lead(digits) <= 9
    ensures Lead(digits) > 0 ==> digits != "" && digits[0] == Digit(Lead(digits)) && Decimal(Lead(digits)) == [digits[0]]
  {
  }

  lemma {:induction false} NumberedFinds(digits: string, k: nat, n: nat)
    requires 1 <= k <= n && Decimal(k) == digits
    ensures Numbered(digits, n) > 0
  {
    if Decimal(n) != digits {
      NumberedFinds(digits, k, n - 1);
    }
  }

  /** What becomes of it when all are filled in at once. */
  function FilledDollar(digits: string, literals: seq<string>): string {
    var k := Numbered(digits, |literals|);
    if k > 0 then literals[k - 1] else "$" + digits
  }

  lemma {:induction false} FillsDigits(digits: string, rest: string, literals: seq<string>)
    requires AllDigits(digits)
    ensures FillIn(digits + rest, literals) == digits + FillIn(rest, literals)
  {
    if digits == "" {
      assert digits + rest == rest;
    } else {
      hide FillIn;
      FillsCharacter(digits + rest, literals);
      FillsDigits(digits[1..], rest, literals);
      assert (digits + rest)[1..] == digits[1..] + rest;
    }
  }

  lemma FillsDollar(sql: string, literals: seq<string>)
    requires sql != "" && sql[0] == '$'
    ensures FillIn(sql, literals) == FilledDollar(Digits(sql), literals) + FillIn(Behind(sql), literals)
  {
    hide Digits, Behind, Numbered;
    if Begins(sql, |literals|) == 0 {
      DollarParts(sql);
      FillsDigits(Digits(sql), Behind(sql), literals);
    }
  }

  /** Which parameter the digits name when all are filled in at once. */
  lemma NumberedIs(digits: string, n: nat)
    requires AllDigits(digits)
    ensures Lead(digits) == 0 || Lead(digits) > n ==> Numbered(digits, n) == 0
    ensures |digits| == 1 && 1 <= Lead(digits) <= n ==> Numbered(digits, n) == Lead(digits)
  {
    var k, d := Numbered(digits, n), Lead(digits);
    hide Lead, Decimal;
    LeadIsDigit(digits);
    if k > 0 {
      LeadOfPrefix(digits, k);
      if |digits| == 1 {
        DecimalLeads(k);
      }
    }
    if |digits| == 1 && 1 <= d <= n {
      assert Decimal(d) == digits;
      NumberedFinds(digits, d, n);
    }
  }

  /** The digits of a text that begins with a dollar, by the two conditions. */
  lemma FrontIs(sql: string, n: nat)
    requires sql != "" && sql[0] == '$'
    ensures BreaksAt(sql, n) <==> |Digits(sql)| >= 2 && 1 <= Lead(Digits(sql)) <= n
    ensures forall k :: 1 <= k <= 9 ==> (UsesAt(sql, k) <==> |Digits(sql)| == 1 && Lead(Digits(sql)) == k)
  {
    DollarParts(sql);
    var digits, rest := Digits(sql), Behind(sql);
    assert |digits| >= 1 ==> sql[1] == digits[0];
    assert |digits| >= 2 ==> sql[2] == digits[1];
    assert |digits| == 1 && |sql| > 2 ==> sql[2] == rest[0];
    assert |digits| == 0 && |sql| > 1 ==> sql[1] == rest[0];
  }

  /** Whether a dollar with these digits comes out the same. */
  predicate DollarClean(digits: string, literals: seq<string>) {
    1 <= Lead(digits) <= |literals| ==> |digits| == 1 && Harmless(literals, Lead(digits) - 1)
  }

  lemma FrontIsDollar(sql: string, literals: seq<string>)
    requires sql != "" && sql[0] == '$'
    ensures CleanFront(sql, literals) <==> DollarClean(Digits(sql), literals)
  {
    var d := Lead(Digits(sql));
    FrontIs(sql, |literals|);
    LeadIsDigit(Digits(sql));
    hide Digits, UsesAt, BreaksAt, Lead, Harmless, Decimal;
    if 1 <= d <= |literals| && |Digits(sql)| == 1 {
      assert UsesAt(sql, d);
    }
  }

  lemma ShortDollar(digits: string, literals: seq<string>)
    requires AllDigits(digits) && AllLiteral(literals) && |digits| == 1 && 1 <= Lead(digits) <= |literals|
    ensures FilledDollar(digits, literals) == literals[Lead(digits) - 1]
    ensures Chain("$" + digits, literals, 1, |literals|) == Chain(literals[Lead(digits) - 1], literals, Lead(digits) + 1, |literals|)
  {
    hide Chain, Numbered, Lead, Decimal, AllDigits, AllLiteral;
    NumberedIs(digits, |literals|);
    ChainOfDollar(digits, literals);
    assert digits[1..] == "";
  }

  lemma LongDollar(digits: string, literals: seq<string>)
    requires AllDigits(digits) && AllLiteral(literals) && |digits| > 1 && 1 <= Lead(digits) <= |literals|
    ensures Apart(FilledDollar(digits, literals), Chain("$" + digits, literals, 1, |literals|))
  {
    hide Chain, Numbered, Lead, Decimal, AllDigits, AllLiteral, FilledDollar, Apart;
    ChainOfDollar(digits, literals);
    ChainedQuote(literals, Lead(digits));
    BrokenApart(digits, literals, Chain(literals[Lead(digits) - 1], literals, Lead(digits) + 1, |literals|));
  }

  lemma KeptDollar(digits: string, literals: seq<string>)
    requires AllDigits(digits) && AllLiteral(literals) && !(1 <= Lead(digits) <= |literals|)
    ensures FilledDollar(digits, literals) == "$" + digits == Chain("$" + digits, literals, 1, |literals|)
  {
    hide Chain, Numbered, Lead, Decimal, AllDigits, AllLiteral;
    NumberedIs(digits, |literals|);
    ChainOfDollar(digits, literals);
  }

  /** A dollar with its digits comes out the same, or the two differ from the end. */
  lemma DollarSameOrApart(digits: string, literals: seq<string>)
    requires AllDigits(digits) && AllLiteral(literals)
    ensures var filled, chained := FilledDollar(digits, literals), Chain("$" + digits, literals, 1, |literals|);
      if DollarClean(digits, literals) then filled == chained else Apart(filled, chained)
  {
    hide Chain, FilledDollar, Lead, Apart, Harmless, AllDigits, AllLiteral;
    LeadIsDigit(digits);
    if !(1 <= Lead(digits) <= |literals|) {
      KeptDollar(digits, literals);
    } else if |digits| == 1 {
      ShortDollar(digits, literals);
      LiteralSameOrApart(literals, Lead(digits));
    } else {
      LongDollar(digits, literals);
    }
  }

  lemma ChainedQuote(literals: seq<string>, d: nat)
    requires 1 <= d <= |literals| && AllLiteral(literals)
    ensures EndsInQuote(Chain(literals[d - 1], literals, d + 1, |literals|))
  {
    assert IsLiteral(literals[d - 1]);
    ChainBeforeDigits(literals[d - 1], "", literals, d + 1, |literals|);
  }

  lemma LiteralSameOrApart(literals: seq<string>, d: nat)
    requires 1 <= d <= |literals| && AllLiteral(literals)
    ensures var put, chained := literals[d - 1], Chain(literals[d - 1], literals, d + 1, |literals|);
      if Harmless(literals, d - 1) then put == chained else Apart(put, chained)
  {
    var put, n := literals[d - 1], |literals|;
    hide Chain, Contains, Placeholder, Hit, Apart;
    ChainHits(put, literals, d + 1, n);
    if !Harmless(literals, d - 1) {
      HitIsApart(put, Chain(put, literals, d + 1, n));
    }
  }

  /** A longer placeholder, broken: digits stand where it ended, or a quote where it went on. */
  lemma BrokenApart(digits: string, literals: seq<string>, put: string)
    requires AllDigits(digits) && |digits| >= 2 && AllLiteral(literals) && EndsInQuote(put)
    ensures Apart(FilledDollar(digits, literals), put + digits[1..])
  {
    var filled, broken, none := FilledDollar(digits, literals), put + digits[1..], "";
    if Numbered(digits, |literals|) > 0 {
      assert IsLiteral(filled);
      assert IsDigit(broken[|broken| - 1]) by {
        assert broken[|broken| - 1] == digits[|digits| - 1];
      }
      assert PartAt(filled, broken, filled, broken, none);
    } else {
      assert filled == ("$" + [digits[0]]) + digits[1..];
      assert PartAt(filled, broken, "$" + [digits[0]], put, digits[1..]);
    }
  }

  // ---- the whole statement -------------------------------------------------

  lemma ChainOfNothing(literals: seq<string>, last: nat)
    requires last <= |literals|
    ensures Chain("", literals, 1, last) == ""
  {
  }

  lemma {:induction false} SameOrApart(sql: string, literals: seq<string>)
    requires AllLiteral(literals)
    ensures var filled, chained := FillIn(sql, literals), Chain(sql, literals, 1, |literals|);
      if Clean(sql, literals) then filled == chained else Apart(filled, chained)
    decreases |sql|
  {
    hide Clean, CleanFront, DollarClean, Apart, Chain, Digits, Behind, FilledDollar, Begins;
    var n := |literals|;
    if sql == "" {
      ChainOfNothing(literals, n);
      EmptyIsClean(literals);
    } else if sql[0] == '$' {
      var rest, digits := Behind(sql), Digits(sql);
      SameOrApart(rest, literals);
      CleanBehind(sql, literals);
      FillsDollar(sql, literals);
      DollarParts(sql);
      ChainAtCut("$" + digits, rest, literals, 1, n);
      FrontIsDollar(sql, literals);
      DollarSameOrApart(digits, literals);
      var x, y, u, v := FilledDollar(digits, literals), Chain("$" + digits, literals, 1, n), FillIn(rest, literals), Chain(rest, literals, 1, n);
      if !Clean(rest, literals) {
        ApartBehind(u, v, x, y);
      } else if !CleanFront(sql, literals) {
        ApartBefore(x, y, u);
      }
    } else {
      SameOrApart(sql[1..], literals);
      CleanStep(sql, literals);
      CleanCharacter(sql, literals);
      assert sql == [sql[0]] + sql[1..];
      ChainKeeps(sql[0], sql[1..], literals, 1, n);
      FillsCharacter(sql, literals);
      if !Clean(sql[1..], literals) {
        ApartBehind(FillIn(sql[1..], literals), Chain(sql[1..], literals, 1, n), [sql[0]], [sql[0]]);
      }
    }
  }

  lemma EmptyIsClean(literals: seq<string>)
    ensures Clean("", literals)
  {
  }

  lemma CleanCharacter(sql: string, literals: seq<string>)
    requires sql != "" && sql[0] != '$'
    ensures CleanFront(sql, literals)
  {
  }

  lemma FillsCharacter(sql: string, literals: seq<string>)
    requires sql != "" && sql[0] != '$'
    ensures FillIn(sql, literals) == [sql[0]] + FillIn(sql[1..], literals)
  {
  }

  lemma AllAreLiteral(params: seq<string>)
    ensures AllLiteral(Literals(params))
  {
  }

  predicate Agrees(sql: string, params: seq<string>) {
    Chain(sql, Literals(params), 1, |params|) == FillIn(sql, Literals(params))
  }

  /** For every statement and every parameters, however many: replacing the placeholders one after
      another fills them in as if all at once if and only if no placeholder the loop finds goes on
      with a further digit, and no literal it puts in contains the placeholder of a later
      parameter. */
  lemma AgreesExactly(sql: string, params: seq<string>)
    ensures Agrees(sql, params) <==> Clean(sql, Literals(params))
  {
    var literals := Literals(params);
    AllAreLiteral(params);
    SameOrApart(sql, literals);
    hide Chain, FillIn, Clean, Apart;
    if !Clean(sql, literals) {
      ApartDiffers(FillIn(sql, literals), Chain(sql, literals, 1, |literals|));
    }
  }

  lemma {:induction false} BreaksForNine(sql: string, n: nat)
    requires n >= 9
    ensures Breaks(sql, n) <==> Breaks(sql, 9)
  {
    if sql != "" {
      BreaksForNine(sql[1..], n);
    }
  }

  /** With ten parameters or more, none of them with a dollar, it does if and only if the statement
      has no placeholder of two digits or more. */
  lemma TenOrMoreExactly(sql: string, params: seq<string>)
    requires AllDollarFree(params) && |params| >= 10
    ensures Agrees(sql, params) <==> !Breaks(sql, 9)
  {
    AgreesExactly(sql, params);
    BreaksForNine(sql, |params|);
    TameLiterals(params);
    var literals := Literals(params);
    hide Agrees, Breaks, Uses;
    forall i | 0 <= i < |literals|
      ensures Harmless(literals, i)
    {
      assert Tame(literals[i]);
      forall j | i + 1 < j <= |literals|
        ensures !Contains(literals[i], Placeholder(j))
      {
        if Contains(literals[i], Placeholder(j)) {
          ContainsDollar(literals[i], j);
        }
      }
    }
  }
}
