/**
 * The records the tracer emits and their text form (circa/results.py). A
 * location renders as `filename:lineno:offset`, a call as its target name, a
 * space and its location, and a trace as a `Block:` line, a `Calls:` line and
 * the calls joined by newlines behind a four-space indent.
 */
module Results {
  import opened Text

  datatype Call = Call(name: string, filename: string, lineno: int, offset: int)

  datatype Trace = Trace(name: string, filename: string, lineno: int, offset: int, calls: seq<Call>)

  /** A position in a source file, as `locate` takes it apart. */
  datatype Location = Location(filename: string, lineno: int, offset: int)

  /** `locate`. */
  function Locate(filename: string, lineno: int, offset: int): string
  {
    filename + ":" + IntToString(lineno) + ":" + IntToString(offset)
  }

  /** Reads a location back from the right: the offset after the last colon, the line number before it. */
  function ParseLocation(s: string): Location
  {
    var j := LastIndexOf(s, ':');
    if j < 0 then Location(s, 0, 0)
    else
      var head := s[..j];
      var i := LastIndexOf(head, ':');
      if i < 0 then Location(head, 0, ParseInt(s[j + 1..]))
      else Location(head[..i], ParseInt(head[i + 1..j]), ParseInt(s[j + 1..]))
  }

  /** A decimal rendering holds only a minus sign and digits. */
  lemma DecimalChars(i: int, c: char)
    requires c != '-' && !('0' <= c <= '9')
    ensures c !in IntToString(i)
  {
    var s := IntToString(i);
    assert forall k :: 0 <= k < |s| ==> s[k] != c;
  }

  /** The last occurrence of `c` in `a + [c] + b`, when `b` holds none, is the added one. */
  lemma {:induction false} LastIndexOfGlued(a: string, b: string, c: char)
    requires c !in b
    ensures LastIndexOf(a + [c] + b, c) == |a|
    decreases |b|
  {
    var s := a + [c] + b;
    if |b| > 0 {
      var last, front := b[|b| - 1], b[..|b| - 1];
      assert last in b;
      assert s[|s| - 1] == last;
      assert s[..|s| - 1] == a + [c] + front;
      assert c !in front by {
        assert forall x :: x in front ==> x in b;
      }
      LastIndexOfGlued(a, front, c);
    } else {
      assert s[|s| - 1] == c;
    }
  }

  /** Any location, whatever its file name holds, reads back as itself. */
  lemma {:induction false} LocateRoundTrip(filename: string, lineno: int, offset: int)
    ensures ParseLocation(Locate(filename, lineno, offset)) == Location(filename, lineno, offset)
  {
    var l, o := IntToString(lineno), IntToString(offset);
    var head := filename + ":" + l;
    var s := Locate(filename, lineno, offset);
    assert s == head + [':'] + o;
    DecimalChars(lineno, ':');
    DecimalChars(offset, ':');
    LastIndexOfGlued(head, o, ':');
    assert s[..|head|] == head && s[|head| + 1..] == o;
    assert head == filename + [':'] + l;
    LastIndexOfGlued(filename, l, ':');
    assert head[..|filename|] == filename && head[|filename| + 1..|head|] == l;
    ParseIntToString(lineno);
    ParseIntToString(offset);
  }

  /** `Call.__str__`. */
  function CallText(c: Call): string
  {
    c.name + " " + Locate(c.filename, c.lineno, c.offset)
  }

  /** Reads a call back: the name up to the first space, the location after it. */
  function ParseCall(s: string): Call
  {
    var i := IndexOf(s, ' ');
    var loc := ParseLocation(if i < |s| then s[i + 1..] else "");
    Call(s[..i], loc.filename, loc.lineno, loc.offset)
  }

  /** A call whose target name has no space reads back as itself. */
  lemma CallRoundTrip(c: Call)
    requires ' ' !in c.name
    ensures ParseCall(CallText(c)) == c
  {
    var loc := Locate(c.filename, c.lineno, c.offset);
    var s := CallText(c);
    assert s == c.name + [' '] + loc;
    IndexOfConcat(c.name, loc, ' ');
    IndexOfAbsent(c.name, ' ');
    assert s[..|c.name|] == c.name && s[|c.name| + 1..] == loc;
    LocateRoundTrip(c.filename, c.lineno, c.offset);
  }

  /** The rendering of each call, in list order. */
  function Renderings(calls: seq<Call>): (r: seq<string>)
    ensures |r| == |calls|
    ensures forall i :: 0 <= i < |calls| ==> r[i] == CallText(calls[i])
  {
    if |calls| == 0 then [] else [CallText(calls[0])] + Renderings(calls[1..])
  }

  /** The calls section of `Trace.__str__`: "-" for no calls, else the renderings joined by newlines. */
  function CallsText(calls: seq<Call>): string
  {
    if |calls| == 0 then "-" else Join(Renderings(calls), '\n')
  }

  /** `Trace.__str__`. */
  function TraceText(t: Trace): string
  {
    "Block: " + Locate(t.filename, t.lineno, t.offset) + "\n" + "Calls:" + "\n" + "    " + CallsText(t.calls)
  }

  /** A call whose name and file hold no newline renders on one line. */
  predicate OneLine(c: Call)
  {
    '\n' !in c.name && '\n' !in c.filename
  }

  /** A location holds a newline only where its file name does. */
  lemma LocationOnOneLine(filename: string, lineno: int, offset: int)
    requires '\n' !in filename
    ensures '\n' !in Locate(filename, lineno, offset)
  {
    DecimalChars(lineno, '\n');
    DecimalChars(offset, '\n');
  }

  lemma RenderingOnOneLine(c: Call)
    requires OneLine(c)
    ensures '\n' !in CallText(c)
  {
    LocationOnOneLine(c.filename, c.lineno, c.offset);
  }

  /** No rendering of one-line calls holds a newline. */
  lemma RenderingsOnOneLine(calls: seq<Call>)
    requires forall i :: 0 <= i < |calls| ==> OneLine(calls[i])
    ensures FreeOf(Renderings(calls), '\n')
  {
    forall i | 0 <= i < |calls|
      ensures '\n' !in Renderings(calls)[i]
    {
      RenderingOnOneLine(calls[i]);
    }
  }

  /**
   * The lines of a trace: the `Block:` line, the `Calls:` line, then one line
   * per call in list order, of which only the first carries the indent; with
   * no calls the third line is the indented "-".
   */
  lemma TraceLines(t: Trace)
    requires '\n' !in t.filename
    requires forall i :: 0 <= i < |t.calls| ==> OneLine(t.calls[i])
    ensures |t.calls| == 0 ==>
      Split(TraceText(t), '\n') == ["Block: " + Locate(t.filename, t.lineno, t.offset), "Calls:", "    -"]
    ensures |t.calls| > 0 ==>
      Split(TraceText(t), '\n') == ["Block: " + Locate(t.filename, t.lineno, t.offset), "Calls:",
                                    "    " + CallText(t.calls[0])] + Renderings(t.calls[1..])
  {
    var header := "Block: " + Locate(t.filename, t.lineno, t.offset);
    HeaderLines(t);
    CallsSplit(t.calls);
    if |t.calls| > 0 {
      PrependTwo(header, "Calls:", "    " + CallText(t.calls[0]), Renderings(t.calls[1..]));
    } else {
      PrependTwo(header, "Calls:", "    -", []);
    }
  }

  /** The first two lines of a trace whose file name holds no newline. */
  lemma HeaderLines(t: Trace)
    requires '\n' !in t.filename
    ensures Split(TraceText(t), '\n') ==
      ["Block: " + Locate(t.filename, t.lineno, t.offset), "Calls:"] + Split("    " + CallsText(t.calls), '\n')
  {
    var header := "Block: " + Locate(t.filename, t.lineno, t.offset);
    Regroup(header, "Calls:", "    ", CallsText(t.calls), '\n');
    LocationOnOneLine(t.filename, t.lineno, t.offset);
    assert '\n' !in header;
    assert '\n' !in "Calls:";
    SplitAfterTwoLines(header, "Calls:", "    " + CallsText(t.calls), '\n');
  }

  /** Regrouping a list of lines; stated over abstract values so `TraceLines` stays cheap. */
  lemma PrependTwo<T>(a: T, b: T, c: T, rest: seq<T>)
    ensures [a, b] + ([c] + rest) == [a, b, c] + rest
  {
  }

  /** Two separator-free lines split off in front of the rest. */
  lemma SplitAfterTwoLines(a: string, b: string, rest: string, sep: char)
    requires sep !in a && sep !in b
    ensures Split(a + [sep] + b + [sep] + rest, sep) == [a, b] + Split(rest, sep)
  {
    assert a + [sep] + b + [sep] + rest == a + [sep] + (b + [sep] + rest);
    SplitAfterLine(a, b + [sep] + rest, sep);
    SplitAfterLine(b, rest, sep);
  }

  /** Regrouping the text of a trace; stated over abstract strings so `HeaderLines` stays cheap. */
  lemma Regroup(a: string, b: string, c: string, d: string, sep: char)
    ensures a + [sep] + b + [sep] + c + d == a + [sep] + b + [sep] + (c + d)
  {
  }

  /** The indented calls section splits into the lines `TraceLines` names. */
  lemma CallsSplit(calls: seq<Call>)
    requires forall i :: 0 <= i < |calls| ==> OneLine(calls[i])
    ensures |calls| == 0 ==> Split("    " + CallsText(calls), '\n') == ["    -"]
    ensures |calls| > 0 ==>
      Split("    " + CallsText(calls), '\n') == ["    " + CallText(calls[0])] + Renderings(calls[1..])
  {
    if |calls| == 0 {
      assert "    " + CallsText(calls) == "    -";
      SplitFree("    -", '\n');
    } else {
      var r := Renderings(calls);
      RenderingsOnOneLine(calls);
      IndentFirst(r, "    ", '\n');
      FreeOfIndent(r, "    ", '\n');
      SplitJoin(["    " + r[0]] + r[1..], '\n');
      assert r[1..] == Renderings(calls[1..]);
    }
  }

  /** Indenting the first of some separator-free parts keeps them separator-free. */
  lemma FreeOfIndent(parts: seq<string>, indent: string, sep: char)
    requires |parts| >= 1 && FreeOf(parts, sep) && sep !in indent
    ensures FreeOf([indent + parts[0]] + parts[1..], sep)
  {
    var indented := [indent + parts[0]] + parts[1..];
    forall i | 0 <= i < |indented|
      ensures sep !in indented[i]
    {
      if i > 0 {
        assert indented[i] == parts[i];
      }
    }
  }

  /** Putting text in front of a join puts it in front of the first part only. */
  lemma IndentFirst(parts: seq<string>, indent: string, sep: char)
    requires |parts| >= 1
    ensures indent + Join(parts, sep) == Join([indent + parts[0]] + parts[1..], sep)
  {
    if |parts| > 1 {
      JoinCons(parts[0], parts[1..], sep);
      assert parts == [parts[0]] + parts[1..];
      JoinCons(indent + parts[0], parts[1..], sep);
    }
  }

  /** The name of a trace does not appear in its text. */
  lemma TraceTextIgnoresName(t: Trace, name: string)
    ensures TraceText(t.(name := name)) == TraceText(t)
  {
  }
}
