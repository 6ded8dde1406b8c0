/** Frames with several data lines: the text `streamEvents` (api.ts) hands to the parser, against
    the data of section 9.2.6 of the WHATWG HTML Standard, for lines that end in line feeds. */
module SseData {
  import opened Js
  import opened SseStream

  // ---- the standard's gathering --------------------------------------------

  /** The value of a line of the `data` field: what follows the colon less one leading space, or
      nothing for the bare field name. Any other line has none. */
  function DataValue(line: string): Option<string> {
    if line == "data" then Some("")
    else if !IsDataLine(line) then None
    else if |line| > 5 && line[5] == ' ' then Some(line[6..])
    else Some(line[5..])
  }

  function DataValues(lines: seq<string>): seq<string> {
    if lines == [] then []
    else match DataValue(lines[0])
      case None => DataValues(lines[1..])
      case Some(value) => [value] + DataValues(lines[1..])
  }

  function JoinLines(values: seq<string>): string {
    if values == [] then ""
    else if |values| == 1 then values[0]
    else values[0] + "\n" + JoinLines(values[1..])
  }

  /** The data of a frame: all of its data values, joined by line feeds. */
  function StandardData(frame: string): string {
    JoinLines(DataValues(Lines(frame)))
  }

  /** What would reach the parser if the frame's data were filtered as the loop filters its line. */
  function StandardPayload(frame: string): Option<string> {
    Filtered(StandardData(frame))
  }

  function Filtered(data: string): Option<string> {
    var text := Trim(data);
    if text == "" || text == "keepalive" || text[0] != '{' then None else Some(text)
  }

  /** What does reach it. */
  function FramePayload(frame: string): Option<string> {
    Payload(FindDataLine(Lines(frame)))
  }

  /** The data the loop looks at: that of the first line that starts with `data:`. */
  function FirstData(lines: seq<string>): string {
    var line := FindDataLine(lines);
    if line.None? then "" else line.value[5..]
  }

  // ---- blanks --------------------------------------------------------------

  predicate Blank(s: string) {
    forall i :: 0 <= i < |s| ==> IsSpace(s[i])
  }

  /** How many characters are no space. */
  function Inked(s: string): nat {
    if s == "" then 0 else (if IsSpace(s[0]) then 0 else 1) + Inked(s[1..])
  }

  lemma {:induction false} InkedSum(a: string, b: string)
    ensures Inked(a + b) == Inked(a) + Inked(b)
  {
    if a == "" {
      assert a + b == b;
    } else {
      InkedSum(a[1..], b);
      assert (a + b)[1..] == a[1..] + b;
    }
  }

  lemma {:induction false} BlankIsNotInked(s: string)
    ensures Blank(s) <==> Inked(s) == 0
  {
    if s != "" {
      BlankIsNotInked(s[1..]);
      assert Blank(s) <==> IsSpace(s[0]) && Blank(s[1..]) by {
        assert s == [s[0]] + s[1..];
      }
    }
  }

  lemma {:induction false} TrimStartKeepsInk(s: string)
    ensures Inked(TrimStart(s)) == Inked(s)
  {
    if s != "" && IsSpace(s[0]) {
      TrimStartKeepsInk(s[1..]);
    }
  }

  lemma {:induction false} TrimEndKeepsInk(s: string)
    ensures Inked(TrimEnd(s)) == Inked(s)
  {
    if s != "" && IsSpace(s[|s| - 1]) {
      TrimEndKeepsInk(s[..|s| - 1]);
      InkedSum(s[..|s| - 1], [s[|s| - 1]]);
      assert s == s[..|s| - 1] + [s[|s| - 1]];
    }
  }

  lemma TrimKeepsInk(s: string)
    ensures Inked(Trim(s)) == Inked(s)
  {
    TrimStartKeepsInk(s);
    TrimEndKeepsInk(TrimStart(s));
  }

  lemma {:induction false} TrimEndDropsBlank(s: string, blank: string)
    requires Blank(blank)
    ensures TrimEnd(s + blank) == TrimEnd(s)
    decreases |blank|
  {
    if blank == "" {
      assert s + blank == s;
    } else {
      var n := |blank| - 1;
      assert (s + blank)[..|s + blank| - 1] == s + blank[..n];
      TrimEndDropsBlank(s, blank[..n]);
    }
  }

  lemma {:induction false} TrimStartDropsBlank(blank: string, s: string)
    requires Blank(blank)
    ensures TrimStart(blank + s) == TrimStart(s)
  {
    if blank == "" {
      assert blank + s == s;
    } else {
      assert (blank + s)[1..] == blank[1..] + s;
      TrimStartDropsBlank(blank[1..], s);
    }
  }

  /** Text behind which only blanks stand trims to what it trims to alone. */
  lemma {:induction false} TrimDropsTail(s: string, blank: string)
    requires Blank(blank)
    ensures Trim(s + blank) == Trim(s)
  {
    if s == "" {
      assert s + blank == blank + "" && s == "";
      TrimStartDropsBlank(blank, "");
    } else if IsSpace(s[0]) {
      assert (s + blank)[1..] == s[1..] + blank;
      TrimDropsTail(s[1..], blank);
    } else {
      TrimEndDropsBlank(s, blank);
    }
  }

  lemma TrimDropsHead(blank: string, s: string)
    requires Blank(blank)
    ensures Trim(blank + s) == Trim(s)
  {
    TrimStartDropsBlank(blank, s);
  }

  // ---- what the loop leaves out --------------------------------------------

  /** The values behind the data line the loop looks at. */
  function LaterValues(lines: seq<string>): seq<string> {
    if lines == [] then []
    else if IsDataLine(lines[0]) then DataValues(lines[1..])
    else LaterValues(lines[1..])
  }

  predicate AllBlank(values: seq<string>) {
    forall k :: 0 <= k < |values| ==> Blank(values[k])
  }

  lemma {:induction false} JoinedBlank(values: seq<string>)
    ensures AllBlank(values) <==> Blank(JoinLines(values))
    ensures Blank("\n" + JoinLines(values)) <==> Blank(JoinLines(values))
  {
    BlankAfter("\n", JoinLines(values));
    if |values| > 1 {
      JoinedBlank(values[1..]);
      BlankAfter("\n", JoinLines(values[1..]));
      BlankAfter(values[0], "\n" + JoinLines(values[1..]));
      assert values[0] + "\n" + JoinLines(values[1..]) == values[0] + ("\n" + JoinLines(values[1..]));
      assert AllBlank(values) <==> Blank(values[0]) && AllBlank(values[1..]) by {
        assert values == [values[0]] + values[1..];
      }
    } else if |values| == 1 {
      assert values == [values[0]];
    }
  }

  lemma BlankAfter(a: string, b: string)
    ensures Blank(a + b) <==> Blank(a) && Blank(b)
  {
    InkedSum(a, b);
    BlankIsNotInked(a);
    BlankIsNotInked(b);
    BlankIsNotInked(a + b);
  }

  /** The value of the line the loop finds is the text it looks at, but for one leading space. */
  lemma ValueTrims(line: string)
    requires IsDataLine(line)
    ensures DataValue(line).Some? && Trim(DataValue(line).value) == Trim(line[5..]) && Inked(DataValue(line).value) == Inked(line[5..])
  {
    if |line| > 5 && line[5] == ' ' {
      assert line[5..] == " " + line[6..];
      TrimDropsHead(" ", line[6..]);
      InkedSum(" ", line[6..]);
    }
  }

  /** The frame's data is the text the loop looks at, between blanks and a tail of the later values. */
  lemma {:induction false} DataIsFirstAndTail(lines: seq<string>) returns (head: string, tail: string)
    ensures Blank(head) && (Blank(tail) <==> AllBlank(LaterValues(lines)))
    ensures FindDataLine(lines).Some? ==>
      && Trim(JoinLines(DataValues(lines))) == Trim(DataValue(FindDataLine(lines).value).value + tail)
      && Inked(JoinLines(DataValues(lines))) == Inked(FirstData(lines)) + Inked(tail)
    ensures FindDataLine(lines).None? ==> Blank(JoinLines(DataValues(lines))) && LaterValues(lines) == []
  {
    head, tail := "", "";
    if lines != [] {
      var rest := DataValues(lines[1..]);
      if IsDataLine(lines[0]) {
        var value := DataValue(lines[0]).value;
        ValueTrims(lines[0]);
        JoinedBlank(rest);
        if rest != [] {
          tail := "\n" + JoinLines(rest);
          assert JoinLines([value] + rest) == value + tail by {
            assert ([value] + rest)[1..] == rest;
            assert value + "\n" + JoinLines(rest) == value + tail;
          }
        } else {
          assert JoinLines([value] + rest) == value + tail;
        }
        InkedSum(value, tail);
      } else {
        head, tail := DataIsFirstAndTail(lines[1..]);
        if lines[0] == "data" {
          var more := JoinLines(rest);
          if rest != [] {
            assert ([""] + rest)[1..] == rest;
            assert JoinLines([""] + rest) == "\n" + more;
            TrimDropsHead("\n", more);
            InkedSum("\n", more);
            JoinedBlank(rest);
          } else {
            assert JoinLines([""] + rest) == "";
          }
        }
      }
    }
  }

  /** The data of a frame trims to the text the loop looks at if and only if every data line behind
      that one is blank; a frame with one data line has none. */
  lemma SameTextExactly(frame: string)
    ensures Trim(StandardData(frame)) == Trim(FirstData(Lines(frame))) <==> AllBlank(LaterValues(Lines(frame)))
  {
    var lines := Lines(frame);
    var _, tail := DataIsFirstAndTail(lines);
    TrimKeepsInk(StandardData(frame));
    TrimKeepsInk(FirstData(lines));
    BlankIsNotInked(tail);
    BlankIsNotInked(StandardData(frame));
    if FindDataLine(lines).Some? {
      ValueTrims(FindDataLine(lines).value);
      if Blank(tail) {
        TrimDropsTail(DataValue(FindDataLine(lines).value).value, tail);
      }
    } else {
      TrimOfBlank(StandardData(frame));
    }
    hide Trim, Inked, Blank, LaterValues, DataValues;
  }

  lemma TrimOfBlank(s: string)
    requires Blank(s)
    ensures Trim(s) == ""
  {
    assert s + "" == s && "" + s == s;
    TrimDropsTail("", s);
  }

  /** The loop filters the text it looks at. */
  lemma PayloadIsFiltered(frame: string)
    ensures FramePayload(frame) == Filtered(FirstData(Lines(frame)))
  {
    assert Trim("") == "";
  }

  predicate OpensObject(s: string) {
    Trim(s) != "" && Trim(s)[0] == '{'
  }

  /** The parser is handed the standard's data if and only if every data line behind the one the
      loop looks at is blank, or neither that line nor the data opens an object. */
  lemma SamePayloadExactly(frame: string)
    ensures FramePayload(frame) == StandardPayload(frame) <==>
      || AllBlank(LaterValues(Lines(frame)))
      || (!OpensObject(FirstData(Lines(frame))) && !OpensObject(StandardData(frame)))
  {
    SameTextExactly(frame);
    PayloadIsFiltered(frame);
    hide Trim, LaterValues, StandardData, FirstData;
  }

  lemma TrimsToItself(s: string)
    requires s != "" && !IsSpace(s[0]) && !IsSpace(s[|s| - 1])
    ensures Trim(s) == s
  {
  }

  lemma TwoLines(a: string, b: string)
    requires '\n' !in a && '\n' !in b
    ensures Lines(a + "\n" + b) == [a, b]
  {
    var s := a + "\n" + b;
    assert s[..|a|] == a && s[|a| + 1..] == b && s[|a|] == '\n';
    FirstLineFeedIs(s, |a|);
    assert FirstLineFeed(b).None?;
    assert Lines(b) == [b];
    hide FirstLineFeed;
  }

  lemma TwoValues(a: string, b: string)
    requires IsDataLine(a) && IsDataLine(b)
    ensures FindDataLine([a, b]) == Some(a)
    ensures DataValues([a, b]) == [DataValue(a).value, DataValue(b).value]
    ensures JoinLines(DataValues([a, b])) == DataValue(a).value + "\n" + DataValue(b).value
  {
    ValueTrims(a);
    ValueTrims(b);
    hide DataValue, IsDataLine;
    assert [a, b][1..] == [b] && [b][1..] == [];
    assert DataValues([b]) == [DataValue(b).value];
    assert [DataValue(a).value, DataValue(b).value][1..] == [DataValue(b).value];
  }

  /** A text that begins and ends with ink, as data on a line of its own. */
  predicate Solid(s: string) {
    s != "" && '\n' !in s && !IsSpace(s[0]) && !IsSpace(s[|s| - 1])
  }

  lemma OfDataLine(v: string)
    requires Solid(v)
    ensures var line := "data:" + v; IsDataLine(line) && '\n' !in line && line[5..] == v && DataValue(line) == Some(v)
  {
    var line := "data:" + v;
    assert line[..5] == "data:" && line[5..] == v && line[5] == v[0];
  }

  lemma SolidPayload(v: string, s: string)
    requires s != "" && v != "" && v <= s && v[0] == '{' && !IsSpace(v[0]) && !IsSpace(s[|s| - 1])
    ensures Filtered(s) == Some(s)
  {
    TrimsToItself(s);
    assert s[0] == v[0];
    hide Trim;
  }

  /** An object over two data lines is cut off after the first: the parser is handed the first
      line, where the data is both. */
  lemma SecondLineIsDropped(v: string, w: string)
    requires Solid(v) && Solid(w) && v[0] == '{'
    ensures var frame := "data:" + v + "\n" + ("data:" + w);
      FramePayload(frame) == Some(v) && StandardPayload(frame) == Some(v + "\n" + w)
  {
    var a, b := "data:" + v, "data:" + w;
    OfDataLine(v);
    OfDataLine(w);
    hide Lines, DataValue, IsDataLine;
    TwoLines(a, b);
    TwoValues(a, b);
    PayloadIsFiltered(a + "\n" + b);
    SolidPayload(v, v);
    SolidPayload(v, v + "\n" + w);
    hide Filtered, DataValues, JoinLines, FindDataLine, FramePayload;
  }

  /** The shortest such frame. */
  lemma SplitObject()
    ensures var frame := "data:{" + "\n" + "data:}";
      FramePayload(frame) == Some("{") && StandardPayload(frame) == Some("{" + "\n" + "}")
  {
    hide FramePayload, StandardPayload;
    assert "data:" + "{" == "data:{" && "data:" + "}" == "data:}";
    SecondLineIsDropped("{", "}");
  }
}
