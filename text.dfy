/**
 * The string operations the tracer relies on, written out as Python defines them:
 * `str.split` and `str.join` on a one-character separator, `str.removeprefix`,
 * `PurePath.stem`, and the decimal rendering of an `int` inside an f-string.
 */
module Text {

  /** `s.find(c)`, except that a missing character gives `|s|` rather than -1. */
  function IndexOf(s: string, c: char): (i: nat)
    ensures i <= |s|
    ensures i < |s| ==> s[i] == c
  {
    if |s| == 0 || s[0] == c then 0 else 1 + IndexOf(s[1..], c)
  }

  /** `s.split(sep)`: cut at each separator, left to right. */
  function Split(s: string, sep: char): (parts: seq<string>)
    ensures |parts| >= 1
    decreases |s|
  {
    var i := IndexOf(s, sep);
    if i == |s| then [s] else [s[..i]] + Split(s[i + 1..], sep)
  }

  /** `sep.join(parts)`. */
  function Join(parts: seq<string>, sep: char): string
  {
    if |parts| == 0 then ""
    else if |parts| == 1 then parts[0]
    else parts[0] + [sep] + Join(parts[1..], sep)
  }

  predicate FreeOf(parts: seq<string>, sep: char)
  {
    forall i :: 0 <= i < |parts| ==> sep !in parts[i]
  }

  /** Joining the parts of a split gives back the original string. */
  lemma {:induction false} JoinSplit(s: string, sep: char)
    ensures Join(Split(s, sep), sep) == s
    decreases |s|
  {
    var i := IndexOf(s, sep);
    if i < |s| {
      var head, tail := s[..i], s[i + 1..];
      JoinSplit(tail, sep);
      JoinCons(head, Split(tail, sep), sep);
      assert s == head + [sep] + tail;
    }
  }

  /** A string without the separator splits into itself. */
  lemma SplitFree(s: string, sep: char)
    requires sep !in s
    ensures Split(s, sep) == [s]
  {
    IndexOfAbsent(s, sep);
  }

  /** A missing character is found at the end. */
  lemma {:induction false} IndexOfAbsent(s: string, c: char)
    requires c !in s
    ensures IndexOf(s, c) == |s|
  {
    if |s| > 0 {
      assert s[0] in s;
      assert forall x :: x in s[1..] ==> x in s;
      IndexOfAbsent(s[1..], c);
    }
  }

  /** No character before `IndexOf(s, c)` is `c`. */
  lemma {:induction false} IndexOfFirst(s: string, c: char)
    ensures forall j :: 0 <= j < IndexOf(s, c) ==> s[j] != c
  {
    if |s| > 0 && s[0] != c {
      IndexOfFirst(s[1..], c);
    }
  }

  /** The first separator of `a + [sep] + b` is the first one of `a`, or the added one. */
  lemma {:induction false} IndexOfConcat(a: string, b: string, sep: char)
    ensures IndexOf(a + [sep] + b, sep) == IndexOf(a, sep)
  {
    var s := a + [sep] + b;
    if |a| == 0 {
      assert s[0] == sep;
    } else if a[0] != sep {
      IndexOfConcat(a[1..], b, sep);
      assert s[0] == a[0] && s[1..] == a[1..] + [sep] + b;
    }
  }

  /** A line free of the separator, then the separator, splits off as the first part. */
  lemma SplitAfterLine(line: string, rest: string, sep: char)
    requires sep !in line
    ensures Split(line + [sep] + rest, sep) == [line] + Split(rest, sep)
  {
    SplitConcat(line, rest, sep);
    SplitFree(line, sep);
  }

  /** A string cut at its first separator: the part before it, then the split of the rest. */
  lemma SplitAtFirst(s: string, sep: char)
    requires IndexOf(s, sep) < |s|
    ensures Split(s, sep) == [s[..IndexOf(s, sep)]] + Split(s[IndexOf(s, sep) + 1..], sep)
  {
  }

  /** Regrouping a concatenation; stated over abstract sequences so the proofs that use it stay cheap. */
  lemma AppendAssoc<T>(x: seq<T>, y: seq<T>, z: seq<T>)
    ensures x + (y + z) == (x + y) + z
  {
  }

  /** The pieces of `a + [sep] + b` on either side of an index of `a` or of the added separator. */
  lemma SlicesAroundSep(a: string, b: string, sep: char, i: nat)
    requires i <= |a|
    ensures (a + [sep] + b)[..i] == a[..i]
    ensures i < |a| ==> (a + [sep] + b)[i + 1..] == a[i + 1..] + [sep] + b
    ensures i == |a| ==> (a + [sep] + b)[i + 1..] == b
  {
    if i < |a| {
      assert (a + [sep] + b)[i + 1..] == a[i + 1..] + [sep] + b;
    }
  }

  /** Splitting distributes over a separator placed between two strings. */
  lemma {:induction false} SplitConcat(a: string, b: string, sep: char)
    ensures Split(a + [sep] + b, sep) == Split(a, sep) + Split(b, sep)
    decreases |a|
  {
    var s, i := a + [sep] + b, IndexOf(a, sep);
    IndexOfConcat(a, b, sep);
    SplitAtFirst(s, sep);
    SlicesAroundSep(a, b, sep, i);
    if i < |a| {
      var head, rest := a[..i], a[i + 1..];
      SplitConcat(rest, b, sep);
      SplitAtFirst(a, sep);
      AppendAssoc([head], Split(rest, sep), Split(b, sep));
    } else {
      assert a[..i] == a;
    }
  }

  /** Splitting a join of separator-free parts gives back the parts. */
  lemma {:induction false} SplitJoin(parts: seq<string>, sep: char)
    requires |parts| >= 1
    requires FreeOf(parts, sep)
    ensures Split(Join(parts, sep), sep) == parts
  {
    if |parts| == 1 {
      SplitFree(parts[0], sep);
    } else {
      var head, tail := parts[0], parts[1..];
      assert FreeOf(tail, sep) by {
        forall i | 0 <= i < |tail| ensures sep !in tail[i] {
          assert tail[i] == parts[i + 1];
        }
      }
      SplitJoin(tail, sep);
      SplitJoinStep(head, tail, sep);
      assert parts == [head] + tail;
    }
  }

  /** One separator-free part in front of a list whose join splits back into it. */
  lemma SplitJoinStep(head: string, tail: seq<string>, sep: char)
    requires sep !in head && |tail| >= 1
    requires Split(Join(tail, sep), sep) == tail
    ensures Split(Join([head] + tail, sep), sep) == [head] + tail
  {
    var rest := Join(tail, sep);
    assert ([head] + tail)[1..] == tail;
    assert Join([head] + tail, sep) == head + [sep] + rest;
    SplitFree(head, sep);
    SplitConcat(head, rest, sep);
  }

  /** Joining two non-empty lists puts exactly one separator between their joins. */
  lemma {:induction false} JoinAppend(xs: seq<string>, ys: seq<string>, sep: char)
    requires |xs| >= 1 && |ys| >= 1
    ensures Join(xs + ys, sep) == Join(xs, sep) + [sep] + Join(ys, sep)
  {
    if |xs| > 1 {
      JoinAppend(xs[1..], ys, sep);
      assert (xs + ys)[1..] == xs[1..] + ys;
    } else {
      assert (xs + ys)[1..] == ys;
    }
  }

  /** A part in front of a non-empty list is followed by one separator. */
  lemma JoinCons(head: string, tail: seq<string>, sep: char)
    requires |tail| >= 1
    ensures Join([head] + tail, sep) == head + [sep] + Join(tail, sep)
  {
    assert ([head] + tail)[1..] == tail;
  }

  /** Joining after a part equals joining the part glued to the next one. */
  lemma JoinDotted(head: string, parts: seq<string>, sep: char)
    requires |parts| >= 1
    ensures Join([head + [sep] + parts[0]] + parts[1..], sep) == Join([head] + parts, sep)
  {
    var d, rest := parts[0], parts[1..];
    JoinCons(head, parts, sep);
    if |rest| == 0 {
      assert parts == [d];
    } else {
      var t := Join(rest, sep);
      assert parts == [d] + rest;
      JoinCons(d, rest, sep);
      JoinCons(head + [sep] + d, rest, sep);
      assert (head + [sep] + d) + [sep] + t == head + [sep] + (d + [sep] + t);
    }
  }

  /** Joining a join with more parts is joining all the parts. */
  lemma JoinFlatten(xs: seq<string>, ys: seq<string>, sep: char)
    requires |xs| >= 1
    ensures Join([Join(xs, sep)] + ys, sep) == Join(xs + ys, sep)
  {
    if |ys| == 0 {
      assert [Join(xs, sep)] + ys == [Join(xs, sep)];
      assert xs + ys == xs;
    } else {
      JoinCons(Join(xs, sep), ys, sep);
      JoinAppend(xs, ys, sep);
    }
  }

  /** `s.removeprefix(p)`. */
  function RemovePrefix(s: string, p: string): (r: string)
    ensures p <= s ==> p + r == s
    ensures !(p <= s) ==> r == s
  {
    if p <= s then s[|p|..] else s
  }

  /** `s.rfind(c)`: the last index holding `c`, or -1. */
  function LastIndexOf(s: string, c: char): (i: int)
    ensures -1 <= i < |s|
    ensures i >= 0 ==> s[i] == c
    ensures forall j :: i < j < |s| ==> s[j] != c
  {
    if |s| == 0 then -1
    else if s[|s| - 1] == c then |s| - 1
    else LastIndexOf(s[..|s| - 1], c)
  }

  /**
   * `PurePath(name).stem`: the name without its final suffix; a leading dot
   * or a trailing dot does not start a suffix.
   */
  function Stem(name: string): string
  {
    var i := LastIndexOf(name, '.');
    if 0 < i < |name| - 1 then name[..i] else name
  }

  /** A stem is a prefix of the name it comes from. */
  lemma StemIsPrefix(name: string)
    ensures Stem(name) <= name
  {
  }

  function Digit(d: nat): char
    requires d < 10
  {
    "0123456789"[d]
  }

  function DigitValue(c: char): nat
  {
    if '0' <= c <= '9' then (c - '0') as nat else 0
  }

  /** Decimal digits of a natural number, most significant first. */
  function NatToString(n: nat): (s: string)
    ensures |s| >= 1
    ensures forall i :: 0 <= i < |s| ==> '0' <= s[i] <= '9'
  {
    if n < 10 then [Digit(n)] else NatToString(n / 10) + [Digit(n % 10)]
  }

  /** `f"{i}"` for an `int`: a minus sign before the digits of a negative number. */
  function IntToString(i: int): (s: string)
    ensures forall k :: 0 <= k < |s| ==> s[k] == '-' || '0' <= s[k] <= '9'
  {
    if i < 0 then "-" + NatToString(-i) else NatToString(i)
  }

  function ParseNat(s: string): nat
  {
    if |s| == 0 then 0 else ParseNat(s[..|s| - 1]) * 10 + DigitValue(s[|s| - 1])
  }

  function ParseInt(s: string): int
  {
    if |s| > 0 && s[0] == '-' then 0 - ParseNat(s[1..]) else ParseNat(s)
  }

  lemma {:induction false} ParseNatToString(n: nat)
    ensures ParseNat(NatToString(n)) == n
  {
    if n >= 10 {
      var s := NatToString(n);
      ParseNatToString(n / 10);
      assert s[..|s| - 1] == NatToString(n / 10);
      assert DigitValue(Digit(n % 10)) == n % 10;
    } else {
      assert DigitValue(Digit(n)) == n;
    }
  }

  /** The decimal rendering of an integer determines the integer. */
  lemma ParseIntToString(i: int)
    ensures ParseInt(IntToString(i)) == i
  {
    if i < 0 {
      ParseNatToString(-i);
      assert ("-" + NatToString(-i))[1..] == NatToString(-i);
    } else {
      ParseNatToString(i);
    }
  }
}
