/** The VM helper's command builders (_remote.py). Their reader is the POSIX shell, so the
    model has one: enough of its word rules to say which arguments a command line carries. */
module ShellQuoting {
  import opened Js

  const QUOTE := '\''

  /** `s.replace("'", "'\\''")`. */
  function EscapeQuotes(s: string): string {
    if s == "" then ""
    else (if s[0] == QUOTE then "'\\''" else [s[0]]) + EscapeQuotes(s[1..])
  }

  // ---- the builders --------------------------------------------------------

  const PG_WORDS := ["docker", "exec", "intelhub-postgres", "psql", "-U", "intelhub", "-d", "intelhub", "-tAc"]
  const NEO4J_WORDS := ["docker", "exec", "intelhub-neo4j", "sh", "-c"]
  const REDIS_WORDS := ["docker", "exec", "intelhub-redis", "sh", "-c"]

  /** What the containers' own shells run; each takes its arguments as positional parameters. */
  const CYPHER_AUTH := "NEO4J_PASSWORD=\"${NEO4J_AUTH#neo4j/}\" "
  const CYPHER_SHELL := "cypher-shell -u neo4j --format plain \"$1\""
  const CYPHER_SCRIPT := CYPHER_AUTH + CYPHER_SHELL
  const REDIS_AUTH := "REDISCLI_AUTH=\"$REDIS_PASSWORD\" "
  const REDIS_CLI := "redis-cli --no-auth-warning \"$@\""
  const REDIS_SCRIPT := REDIS_AUTH + REDIS_CLI

  function Quoted(s: string): string {
    "'" + s + "'"
  }

  /** Words separated and followed by a space. */
  function Spaced(words: seq<string>): string {
    if words == [] then "" else words[0] + " " + Spaced(words[1..])
  }

  function PgCommand(query: string): string {
    Spaced(PG_WORDS) + Quoted(EscapeQuotes(query))
  }

  function CypherCommand(query: string): string {
    Spaced(NEO4J_WORDS) + (Quoted(CYPHER_SCRIPT) + " " + ("sh " + Quoted(EscapeQuotes(query))))
  }

  /** `" ".join(f"'{a}'" for a in args)`: the arguments are quoted but not escaped. */
  function QuotedArgs(args: seq<string>): string {
    if args == [] then ""
    else if |args| == 1 then Quoted(args[0])
    else Quoted(args[0]) + " " + QuotedArgs(args[1..])
  }

  function RedisCommand(args: seq<string>): string {
    Spaced(REDIS_WORDS) + (Quoted(REDIS_SCRIPT) + " " + ("sh " + QuotedArgs(args)))
  }

  // ---- the shell -----------------------------------------------------------

  /** Characters that make an unquoted word more than its own text: operators, expansions
      and patterns (sections 2.2, 2.3, 2.6 and 2.13 of POSIX XCU), braces, which bash expands,
      and a NUL. Where a command line reaches one of them unquoted it is not a plain list of
      words, and the model does not say what it runs. */
  predicate Special(c: char) {
    c in "|&;<>()$`*?[{\n" || c == '\0'
  }

  predicate IsBlank(c: char) {
    c == ' ' || c == '\t'
  }

  /** Between words, inside an unquoted word, inside single quotes, inside double quotes. */
  datatype Mode = Between | Bare | Single | Double

  /** The words of a command line, or None when it is not a plain list of words: an unclosed
      quote, a trailing backslash, an unquoted special character, an expansion inside double
      quotes, a NUL. Quoting is as sections 2.2.1 to 2.2.3 of POSIX XCU have it. */
  function Words(text: string, mode: Mode, word: string): Option<seq<string>>
    decreases |text|
  {
    if text == "" then
      match mode
      case Between => Some([])
      case Bare => Some([word])
      case _ => None
    else if text[0] == '\0' then None
    else
      match mode
      case Single => if text[0] == QUOTE then Words(text[1..], Bare, word) else Words(text[1..], Single, word + [text[0]])
      case Double => InDouble(text, word)
      case _ => if IsBlank(text[0]) then EndWord(text, mode, word) else InWord(text, mode, word)
  }

  function InDouble(text: string, word: string): Option<seq<string>>
    requires text != ""
    decreases |text|, 0
  {
    var c, rest := text[0], text[1..];
    if c == '"' then Words(rest, Bare, word)
    else if c in "$`" then None
    else if c == '\\' && rest != "" && rest[0] in "$`\"\\\n" then
      if rest[0] == '\n' then Words(rest[1..], Double, word) else Words(rest[1..], Double, word + [rest[0]])
    else Words(rest, Double, word + [c])
  }

  function EndWord(text: string, mode: Mode, word: string): Option<seq<string>>
    requires text != ""
    decreases |text|, 0
  {
    match Words(text[1..], Between, "")
    case None => None
    case Some(words) => Some(if mode.Between? then words else [word] + words)
  }

  function InWord(text: string, mode: Mode, word: string): Option<seq<string>>
    requires text != ""
    decreases |text|, 0
  {
    var c, rest := text[0], text[1..];
    var begun := if mode.Between? then "" else word;
    if c == QUOTE then Words(rest, Single, begun)
    else if c == '"' then Words(rest, Double, begun)
    else if c == '\\' then
      if rest == "" || rest[0] in "\n\0" then None else Words(rest[1..], Bare, begun + [rest[0]])
    else if Special(c) || (mode.Between? && c in "#~") then None
    else Words(rest, Bare, begun + [c])
  }

  function Argv(command: string): Option<seq<string>> {
    Words(command, Between, "")
  }

  // ---- literal text --------------------------------------------------------

  predicate Plain(c: char) {
    !Special(c) && !IsBlank(c) && c != QUOTE && c != '"' && c != '\\' && c != '#' && c != '~'
  }

  predicate PlainWord(w: string) {
    w != "" && forall i :: 0 <= i < |w| ==> Plain(w[i])
  }

  /** Put a word in front of the words that follow. */
  function Cons(word: string, words: Option<seq<string>>): Option<seq<string>> {
    match words
    case None => None
    case Some(ws) => Some([word] + ws)
  }

  lemma {:induction false} PlainRun(w: string, rest: string, word: string)
    requires forall i :: 0 <= i < |w| ==> Plain(w[i])
    ensures Words(w + " " + rest, Bare, word) == Cons(word + w, Words(rest, Between, ""))
  {
    var text := w + " " + rest;
    if w == "" {
      assert text[1..] == rest && word + w == word;
    } else {
      assert text[1..] == w[1..] + " " + rest;
      PlainRun(w[1..], rest, word + [w[0]]);
      assert word + [w[0]] + w[1..] == word + w;
    }
  }

  lemma PlainFirst(w: string, rest: string)
    requires PlainWord(w)
    ensures Words(w + " " + rest, Between, "") == Cons(w, Words(rest, Between, ""))
  {
    var text := w + " " + rest;
    assert text[1..] == w[1..] + " " + rest;
    PlainRun(w[1..], rest, [w[0]]);
    assert [w[0]] + w[1..] == w && "" + [w[0]] == [w[0]];
  }

  /** Single-quoted text without quotes is taken as it stands. */
  lemma {:induction false} QuotedRun(s: string, rest: string, word: string)
    requires QUOTE !in s && '\0' !in s
    ensures Words(s + "'" + rest, Single, word) == Words(rest, Bare, word + s)
  {
    var text := s + "'" + rest;
    if s == "" {
      assert text[1..] == rest && word + s == word;
    } else {
      assert text[1..] == s[1..] + "'" + rest;
      QuotedRun(s[1..], rest, word + [s[0]]);
      assert word + [s[0]] + s[1..] == word + s;
    }
  }

  /** Escaping lets any text through single quotes: each quote closes them, stands behind a
      backslash, and opens them again. */
  lemma {:induction false} EscapedRun(q: string, rest: string, word: string)
    requires '\0' !in q
    ensures Words(EscapeQuotes(q) + "'" + rest, Single, word) == Words(rest, Bare, word + q)
  {
    var text := EscapeQuotes(q) + "'" + rest;
    if q == "" {
      assert text[1..] == rest && word + q == word;
    } else {
      var tail := EscapeQuotes(q[1..]) + "'" + rest;
      if q[0] == QUOTE {
        assert text == "'\\''" + tail;
        EscapedQuote(tail, word);
      } else {
        assert text == [q[0]] + tail;
        assert text[1..] == tail;
      }
      EscapedRun(q[1..], rest, word + [q[0]]);
      assert word + [q[0]] + q[1..] == word + q;
    }
  }

  lemma EscapedQuote(tail: string, word: string)
    ensures Words("'\\''" + tail, Single, word) == Words(tail, Single, word + [QUOTE])
  {
    var text := "'\\''" + tail;
    var t1, t3 := text[1..], "'" + tail;
    assert t1 == "\\''" + tail && t1[1..] == "''" + tail && t1[1..][1..] == t3 && t3[1..] == tail;
    assert Words(text, Single, word) == Words(t1, Bare, word);
    assert Words(t1, Bare, word) == Words(t3, Bare, word + [QUOTE]);
    assert Words(t3, Bare, word + [QUOTE]) == Words(tail, Single, word + [QUOTE]);
  }

  /** A NUL anywhere makes a command line that cannot be run at all. */
  lemma {:induction false} NulRejected(text: string, mode: Mode, word: string)
    requires '\0' in text
    ensures Words(text, mode, word) == None
    decreases |text|
  {
    if text[0] != '\0' {
      var c, rest := text[0], text[1..];
      var begun := if mode.Between? then "" else word;
      assert '\0' in rest;
      if rest[0] != '\0' {
        assert '\0' in rest[1..];
      }
      match mode
      case Single =>
        NulRejected(rest, if c == QUOTE then Bare else Single, if c == QUOTE then word else word + [c]);
      case Double =>
        if c == '"' {
          NulRejected(rest, Bare, word);
        } else if c == '\\' && rest[0] in "$`\"\\\n" {
          NulRejected(rest[1..], Double, if rest[0] == '\n' then word else word + [rest[0]]);
        } else {
          NulRejected(rest, Double, word + [c]);
        }
      case _ =>
        if IsBlank(c) {
          NulRejected(rest, Between, "");
        } else if c == QUOTE || c == '"' {
          NulRejected(rest, if c == QUOTE then Single else Double, begun);
        } else if c == '\\' && rest[0] !in "\n\0" {
          NulRejected(rest[1..], Bare, begun + [rest[0]]);
        } else {
          NulRejected(rest, Bare, begun + [c]);
        }
    }
  }

  // ---- round trips ---------------------------------------------------------

  lemma {:induction false} SpacedWords(words: seq<string>, rest: string)
    requires forall i :: 0 <= i < |words| ==> PlainWord(words[i])
    ensures Words(rest, Between, "").None? ==> Words(Spaced(words) + rest, Between, "").None?
    ensures Words(rest, Between, "").Some? ==>
      Words(Spaced(words) + rest, Between, "") == Some(words + Words(rest, Between, "").value)
  {
    if words == [] {
      assert Spaced(words) + rest == rest;
      if Words(rest, Between, "").Some? {
        assert words + Words(rest, Between, "").value == Words(rest, Between, "").value;
      }
    } else {
      var tail := Spaced(words[1..]) + rest;
      assert Spaced(words) + rest == words[0] + " " + tail;
      PlainFirst(words[0], tail);
      SpacedWords(words[1..], rest);
      hide Words, PlainWord;
      if Words(rest, Between, "").Some? {
        var more := Words(rest, Between, "").value;
        assert [words[0]] + (words[1..] + more) == words + more;
      }
    }
  }

  /** A word in single quotes, then a space: its own text, if it has no quote or NUL. */
  lemma QuotedWord(s: string, rest: string)
    requires QUOTE !in s && '\0' !in s
    ensures Words(Quoted(s) + " " + rest, Between, "") == Cons(s, Words(rest, Between, ""))
  {
    var text := Quoted(s) + " " + rest;
    assert text[1..] == s + "'" + (" " + rest);
    QuotedRun(s, " " + rest, "");
    assert (" " + rest)[1..] == rest;
    assert Words(" " + rest, Bare, "" + s) == Cons("" + s, Words(rest, Between, ""));
    assert "" + s == s;
  }

  /** An escaped word at the end of the line. */
  lemma EscapedWord(q: string)
    requires '\0' !in q
    ensures Words(Quoted(EscapeQuotes(q)), Between, "") == Some([q])
  {
    var text := Quoted(EscapeQuotes(q));
    assert text[1..] == EscapeQuotes(q) + "'" + "";
    EscapedRun(q, "", "");
    assert "" + q == q;
  }

  lemma {:induction false} EscapeKeepsNul(q: string)
    ensures '\0' in q <==> '\0' in EscapeQuotes(q)
  {
    if q != "" {
      EscapeKeepsNul(q[1..]);
      assert q == [q[0]] + q[1..];
    }
  }

  lemma EscapedArgument(query: string)
    ensures Words(Quoted(EscapeQuotes(query)), Between, "") == if '\0' in query then None else Some([query])
  {
    EscapeKeepsNul(query);
    if '\0' in query {
      assert '\0' in Quoted(EscapeQuotes(query));
      NulRejected(Quoted(EscapeQuotes(query)), Between, "");
    } else {
      EscapedWord(query);
    }
  }

  predicate NameWord(w: string) {
    w != "" && forall i :: 0 <= i < |w| ==> 'a' <= w[i] <= 'z' || 'A' <= w[i] <= 'Z' || '0' <= w[i] <= '9' || w[i] == '-'
  }

  lemma NamesArePlain(w: string)
    requires NameWord(w)
    ensures PlainWord(w)
  {
  }

  lemma FixedNames()
    ensures forall i :: 0 <= i < |PG_WORDS| ==> NameWord(PG_WORDS[i])
    ensures forall i :: 0 <= i < |NEO4J_WORDS| ==> NameWord(NEO4J_WORDS[i])
    ensures forall i :: 0 <= i < |REDIS_WORDS| ==> NameWord(REDIS_WORDS[i])
  {
  }

  lemma FixedWordsPlain()
    ensures forall i :: 0 <= i < |PG_WORDS| ==> PlainWord(PG_WORDS[i])
    ensures forall i :: 0 <= i < |NEO4J_WORDS| ==> PlainWord(NEO4J_WORDS[i])
    ensures forall i :: 0 <= i < |REDIS_WORDS| ==> PlainWord(REDIS_WORDS[i])
  {
    FixedNames();
    hide PlainWord, NameWord;
    forall w | NameWord(w) ensures PlainWord(w) {
      NamesArePlain(w);
    }
  }

  predicate Unquoted(s: string) {
    forall i :: 0 <= i < |s| ==> s[i] != QUOTE && s[i] != '\0'
  }

  lemma ScriptsUnquoted()
    ensures Unquoted(CYPHER_AUTH) && Unquoted(CYPHER_SHELL)
    ensures Unquoted(REDIS_AUTH) && Unquoted(REDIS_CLI)
  {
  }

  /** The psql command line carries the query, whatever it contains, as its one last argument;
      a query with a NUL gives no command line at all. */
  lemma PgRoundTrip(query: string)
    ensures Argv(PgCommand(query)) == if '\0' in query then None else Some(PG_WORDS + [query])
  {
    FixedWordsPlain();
    hide Words, PlainWord, Quoted, EscapeQuotes, Spaced;
    EscapedArgument(query);
    SpacedWords(PG_WORDS, Quoted(EscapeQuotes(query)));
  }

  /** `words script sh rest`, with the script in single quotes. */
  lemma ScriptCommand(words: seq<string>, script: string, rest: string)
    requires forall i :: 0 <= i < |words| ==> PlainWord(words[i])
    requires Unquoted(script)
    ensures Argv(Spaced(words) + (Quoted(script) + " " + ("sh " + rest))) ==
        match Words(rest, Between, "")
        case None => None
        case Some(ws) => Some(words + [script, "sh"] + ws)
  {
    NamesArePlain("sh");
    hide Words, PlainWord, Spaced, Quoted;
    var tail := "sh " + rest;
    assert tail == "sh" + " " + rest;
    PlainFirst("sh", rest);
    QuotedWord(script, tail);
    SpacedWords(words, Quoted(script) + " " + tail);
    if Words(rest, Between, "").Some? {
      var ws := Words(rest, Between, "").value;
      assert words + ([script] + (["sh"] + ws)) == words + [script, "sh"] + ws;
    }
  }

  /** The same for cypher-shell: the query reaches the container's shell as `$1`. */
  lemma CypherRoundTrip(query: string)
    ensures Argv(CypherCommand(query)) ==
      if '\0' in query then None else Some(NEO4J_WORDS + [CYPHER_SCRIPT, "sh"] + [query])
  {
    FixedWordsPlain();
    ScriptsUnquoted();
    assert Unquoted(CYPHER_SCRIPT);
    hide Words, PlainWord, Quoted, EscapeQuotes, Spaced;
    EscapedArgument(query);
    ScriptCommand(NEO4J_WORDS, CYPHER_SCRIPT, Quoted(EscapeQuotes(query)));
  }

  // ---- redis: quoting without escaping ---------------------------------------

  /** How far the word being read extends: c characters, then a blank or the end. What comes
      out is no longer than what went in, and shorter when a quote was met or must still close. */
  lemma {:induction false} WordExtent(text: string, mode: Mode, word: string) returns (c: nat)
    requires !mode.Between? && Words(text, mode, word).Some?
    ensures var ws := Words(text, mode, word).value;
      && |ws| >= 1 && c <= |text|
      && (c == |text| ==> |ws| == 1)
      && (c < |text| ==> IsBlank(text[c]) && Words(text[c + 1..], Between, "") == Some(ws[1..]))
      && |ws[0]| + (if !mode.Bare? || QUOTE in text[..c] then 1 else 0) <= |word| + c
    decreases |text|
  {
    if text == "" || (mode.Bare? && IsBlank(text[0])) {
      c := 0;
    } else {
      var (skip, mode', word') := OneStep(text, mode, word);
      StepFollowed(text, mode, word);
      var d := WordExtent(text[skip..], mode', word');
      c := skip + d;
      ExtentSplit(text, skip, d);
    }
  }

  /** The reader's next position inside a word: characters taken, mode, and word so far. */
  ghost function OneStep(text: string, mode: Mode, word: string): (nat, Mode, string)
    requires text != "" && !mode.Between?
    ensures 0 < OneStep(text, mode, word).0 <= 2 && !OneStep(text, mode, word).1.Between?
  {
    var c := text[0];
    var escape := c == '\\' && |text| > 1;
    match mode
    case Single => if c == QUOTE then (1, Bare, word) else (1, Single, word + [c])
    case Double =>
      if c == '"' then (1, Bare, word)
      else if escape && text[1] in "$`\"\\\n" then (2, Double, if text[1] == '\n' then word else word + [text[1]])
      else (1, Double, word + [c])
    case Bare =>
      if c == QUOTE then (1, Single, word)
      else if c == '"' then (1, Double, word)
      else if escape then (2, Bare, word + [text[1]])
      else (1, Bare, word + [c])
  }

  lemma StepFollowed(text: string, mode: Mode, word: string)
    requires text != "" && !mode.Between? && !(mode.Bare? && IsBlank(text[0]))
    requires Words(text, mode, word).Some?
    ensures var (skip, mode', word') := OneStep(text, mode, word);
      skip <= |text| && Words(text, mode, word) == Words(text[skip..], mode', word')
    ensures var (skip, mode', word') := OneStep(text, mode, word);
      |word'| + (if !mode.Bare? || QUOTE in text[..skip] then 1 else 0) <= |word| + skip + (if !mode'.Bare? then 1 else 0)
  {
    if |text| > 1 {
      assert text[1..][0] == text[1] && text[1..][1..] == text[2..];
      assert text[..2] == [text[0], text[1]];
    }
    assert text[..1] == [text[0]];
  }

  lemma ExtentSplit(text: string, skip: nat, d: nat)
    requires skip <= |text| && d <= |text| - skip
    ensures text[..skip + d] == text[..skip] + text[skip..][..d]
    ensures d < |text| - skip ==> text[skip..][d] == text[skip + d] && text[skip..][d + 1..] == text[skip + d + 1..]
  {
  }

  /** Where the pieces of the quoted arguments lie. */
  lemma ArgsLayout(args: seq<string>)
    requires args != []
    ensures var all, n := QuotedArgs(args), |args[0]|;
      && |all| >= n + 2 && all[0] == QUOTE && all[n + 1] == QUOTE && all[1..n + 1] == args[0]
      && (|args| == 1 ==> |all| == n + 2)
      && (|args| > 1 ==> |all| == n + 3 + |QuotedArgs(args[1..])| && all[n + 3..] == QuotedArgs(args[1..]))
      && (|args| > 1 ==> all[n + 2] == ' ' && all[n + 3] == QUOTE)
  {
    if |args| > 1 {
      assert QuotedArgs(args[1..])[0] == QUOTE;
    }
  }

  /** The quoted arguments, less at least the first two characters, never read back as the
      arguments: the reader is behind, and stays behind. */
  lemma {:induction false} LateStart(args: seq<string>, k: nat)
    requires args != [] && 2 <= k <= |QuotedArgs(args)|
    ensures Words(QuotedArgs(args)[k..], Between, "") != Some(args)
    decreases |args|, |QuotedArgs(args)| - k
  {
    var all := QuotedArgs(args);
    var text := all[k..];
    ArgsLayout(args);
    if text != "" && Words(text, Between, "") == Some(args) {
      if IsBlank(text[0]) {
        assert text[1..] == all[k + 1..];
        LateStart(args, k + 1);
      } else {
        FirstCharacter(text);
        hide Words, QuotedArgs;
        var c := WordExtent(text, Bare, "");
        BehindFirst(all, k, c, |args[0]|, |args[0]|);
        var k' := k + c + 1 - (|args[0]| + 3);
        assert text[c + 1..] == all[k + c + 1..];
        assert |args| > 1;
        assert all[k + c + 1..] == QuotedArgs(args[1..])[k'..];
        LateStart(args[1..], k');
      }
    }
  }

  /** The first argument has n characters, so its closing quote is at n + 1. A reader at
      position k that still needs w characters, no fewer than are left to that quote, ends
      its word past the opening quote of the next argument. */
  lemma BehindFirst(all: string, k: nat, c: nat, n: nat, w: nat)
    requires k <= |all| && n + 2 <= |all| && all[n + 1] == QUOTE && c <= |all| - k && 0 < c
    requires k + w >= n + 2
    requires w + (if QUOTE in all[k..][..c] then 1 else 0) <= c
    requires c < |all| - k ==> IsBlank(all[k + c])
    requires |all| > n + 3 ==> all[n + 3] == QUOTE
    ensures |all| > n + 2
    ensures c < |all| - k ==> k + c + 1 >= n + 5
  {
    assert k <= n + 1 < k + c ==> all[k..][..c][n + 1 - k] == all[n + 1];
  }

  /** A word that starts at a character that is not a blank reads the same from inside a bare word. */
  lemma FirstCharacter(text: string)
    requires text != "" && !IsBlank(text[0]) && Words(text, Between, "").Some?
    ensures Words(text, Bare, "") == Words(text, Between, "")
  {
  }

  lemma FirstQuote(a: string) returns (q: nat)
    requires QUOTE in a
    ensures q < |a| && a[q] == QUOTE && QUOTE !in a[..q]
  {
    q := 0;
    while a[q] != QUOTE
      invariant q < |a| && QUOTE !in a[..q] && QUOTE in a[q..]
      decreases |a| - q
    {
      q := q + 1;
    }
  }

  /** A quote inside the first argument closes it early, and the reader never catches up. */
  lemma QuoteInside(args: seq<string>)
    requires args != [] && QUOTE in args[0] && '\0' !in args[0]
    ensures Words(QuotedArgs(args), Between, "") != Some(args)
  {
    hide *;
    var all, a := QuotedArgs(args), args[0];
    ArgsLayout(args);
    var q := FirstQuote(a);
    var text := all[q + 2..];
    OpensAndCloses(all, a, q);
    if Words(text, Bare, a[..q]) == Some(args) {
      var c := WordExtent(text, Bare, a[..q]);
      BehindFirst(all, q + 2, c, |a|, |a| - q);
      var k := q + 2 + c + 1 - (|a| + 3);
      assert text[c + 1..] == all[q + 2 + c + 1..] == QuotedArgs(args[1..])[k..];
      LateStart(args[1..], k);
    }
  }

  lemma OpensAndCloses(all: string, a: string, q: nat)
    requires |all| >= |a| + 2 && all[0] == QUOTE && all[1..|a| + 1] == a
    requires q < |a| && a[q] == QUOTE && QUOTE !in a[..q] && '\0' !in a
    ensures Words(all, Between, "") == Words(all[q + 2..], Bare, a[..q])
  {
    assert all[1..] == a[..q] + "'" + all[q + 2..] by {
      assert forall i :: 0 <= i < |a| ==> all[1..][i] == all[1..|a| + 1][i];
    }
    QuotedRun(a[..q], all[q + 2..], "");
    assert "" + a[..q] == a[..q];
  }

  lemma LoneArgument(a: string)
    requires QUOTE !in a && '\0' !in a
    ensures Words(Quoted(a), Between, "") == Some([a])
  {
    assert Quoted(a)[1..] == a + "'" + "";
    QuotedRun(a, "", "");
    assert "" + a == a;
  }

  /** Unescaped quoting reads back the arguments exactly when there is nothing to escape. */
  lemma {:induction false} QuotedArgsReadBack(args: seq<string>)
    ensures Words(QuotedArgs(args), Between, "") == Some(args) <==> forall i :: 0 <= i < |args| ==> Unquoted(args[i])
  {
    if args != [] {
      var all, a, rest := QuotedArgs(args), args[0], args[1..];
      ArgsLayout(args);
      QuotedArgsReadBack(rest);
      if '\0' in a {
        assert '\0' in all by { assert '\0' in all[1..|a| + 1]; }
        NulRejected(all, Between, "");
      } else if QUOTE in a {
        QuoteInside(args);
      } else if rest == [] {
        LoneArgument(a);
        assert args == [a] && QuotedArgs(args) == Quoted(a);
      } else {
        assert all == Quoted(a) + " " + QuotedArgs(rest);
        QuotedWord(a, QuotedArgs(rest));
        hide Words, QuotedArgs;
        assert forall i :: 0 <= i < |rest| ==> rest[i] == args[i + 1];
        assert args == [a] + rest;
      }
    }
  }

  /** The redis command line carries exactly its arguments if and only if none of them
      contains a single quote (or a NUL). */
  lemma RedisRoundTrip(args: seq<string>)
    ensures Argv(RedisCommand(args)) == Some(REDIS_WORDS + [REDIS_SCRIPT, "sh"] + args)
       <==> forall i :: 0 <= i < |args| ==> Unquoted(args[i])
  {
    FixedWordsPlain();
    ScriptsUnquoted();
    assert Unquoted(REDIS_SCRIPT);
    QuotedArgsReadBack(args);
    ScriptCommand(REDIS_WORDS, REDIS_SCRIPT, QuotedArgs(args));
    hide Words, PlainWord, Quoted, Spaced, QuotedArgs, Unquoted;
    var head := REDIS_WORDS + [REDIS_SCRIPT, "sh"];
    if Words(QuotedArgs(args), Between, "").Some? {
      var ws := Words(QuotedArgs(args), Between, "").value;
      assert (head + ws)[|head|..] == ws && (head + args)[|head|..] == args;
    }
  }
}
