/**
 * The JavaScript string operations the dashboard relies on: `trim`, `toLowerCase`
 * (ASCII letters only), `split` on one character, `join` with one character, and the
 * line split on `\r?\n`.
 */
module Text {

  /** The characters `String.prototype.trim` removes: JavaScript's WhiteSpace and LineTerminator sets. */
  predicate IsSpace(c: char)
  {
    c == ' ' || c == '\t' || c == '\n' || c == '\r' || c == '\U{000B}' || c == '\U{000C}'
    || c == '\U{00A0}' || c == '\U{1680}' || ('\U{2000}' <= c <= '\U{200A}')
    || c == '\U{2028}' || c == '\U{2029}' || c == '\U{202F}' || c == '\U{205F}'
    || c == '\U{3000}' || c == '\U{FEFF}'
  }

  predicate AllSpace(s: string)
  {
    forall k :: 0 <= k < |s| ==> IsSpace(s[k])
  }

  /** Drops the leading whitespace: the result is the longest suffix that does not start with a space. */
  function TrimStart(s: string): (r: string)
    ensures |r| <= |s| && r == s[|s| - |r|..]
    ensures AllSpace(s[..|s| - |r|])
    ensures |r| > 0 ==> !IsSpace(r[0])
  {
    if |s| > 0 && IsSpace(s[0]) then TrimStart(s[1..]) else s
  }

  /** Drops the trailing whitespace: the result is the longest prefix that does not end with a space. */
  function TrimEnd(s: string): (r: string)
    ensures |r| <= |s| && r == s[..|r|]
    ensures AllSpace(s[|r|..])
    ensures |r| > 0 ==> !IsSpace(r[|r| - 1])
  {
    if |s| > 0 && IsSpace(s[|s| - 1]) then TrimEnd(s[..|s| - 1]) else s
  }

  /** `s.trim()` */
  function Trim(s: string): string
  {
    TrimEnd(TrimStart(s))
  }

  /** The trimmed text neither starts nor ends with whitespace. */
  lemma TrimEdges(s: string)
    ensures |Trim(s)| > 0 ==> !IsSpace(Trim(s)[0]) && !IsSpace(Trim(s)[|Trim(s)| - 1])
  {
    var t := TrimStart(s);
    var r := TrimEnd(t);
    if |r| > 0 {
      assert r[0] == t[0];
    }
  }

  /** `Trim` keeps exactly the infix between the leading and the trailing whitespace. */
  lemma TrimIsInfix(s: string) returns (i: nat)
    ensures i + |Trim(s)| <= |s| && Trim(s) == s[i..i + |Trim(s)|]
    ensures AllSpace(s[..i]) && AllSpace(s[i + |Trim(s)|..])
    ensures |Trim(s)| > 0 ==> !IsSpace(Trim(s)[0]) && !IsSpace(Trim(s)[|Trim(s)| - 1])
  {
    var t := TrimStart(s);
    var r := TrimEnd(t);
    i := |s| - |t|;
    assert s[i..] == t;
    assert s[i..i + |r|] == r;
    assert s[i + |r|..] == t[|r|..];
    TrimEdges(s);
  }

  /** A line is blank (`line.trim() === ''`) exactly when every character is whitespace. */
  lemma BlankIffAllSpace(s: string)
    ensures Trim(s) == [] <==> AllSpace(s)
  {
    var i := TrimIsInfix(s);
    if Trim(s) == [] {
      assert s == s[..i] + s[i..];
    } else {
      assert s[i] == Trim(s)[0];
    }
  }

  function LowerChar(c: char): char
  {
    if 'A' <= c <= 'Z' then (c as int + 32) as char else c
  }

  /** `s.toLowerCase()` restricted to ASCII letters. */
  function ToLower(s: string): (r: string)
    ensures |r| == |s|
    ensures forall k :: 0 <= k < |s| ==> r[k] == LowerChar(s[k])
  {
    seq(|s|, k requires 0 <= k < |s| => LowerChar(s[k]))
  }

  /** A lower-cased string holds no ASCII capital letter, and lower-casing it again changes nothing. */
  lemma ToLowerNormalises(s: string)
    ensures forall k :: 0 <= k < |s| ==> !('A' <= ToLower(s)[k] <= 'Z')
    ensures ToLower(ToLower(s)) == ToLower(s)
  {
  }

  /** `s.split(sep)` for a one-character separator: always at least one piece, none holding `sep`. */
  function Split(s: string, sep: char): (r: seq<string>)
    ensures |r| >= 1
    ensures forall k :: 0 <= k < |r| ==> sep !in r[k]
  {
    if |s| == 0 then [[]]
    else
      var rest := Split(s[1..], sep);
      if s[0] == sep then [[]] + rest
      else [[s[0]] + rest[0]] + rest[1..]
  }

  /** `xs.join(sep)` for a one-character separator. */
  function Join(xs: seq<string>, sep: char): string
  {
    if |xs| == 0 then []
    else if |xs| == 1 then xs[0]
    else xs[0] + [sep] + Join(xs[1..], sep)
  }

  /** Joining the pieces of a split gives the original text back. */
  lemma {:induction false} JoinSplit(s: string, sep: char)
    ensures Join(Split(s, sep), sep) == s
  {
    if |s| > 0 {
      JoinSplit(s[1..], sep);
      var rest := Split(s[1..], sep);
      if s[0] != sep {
        if |rest| > 1 {
          assert Join(Split(s, sep), sep) == [s[0]] + rest[0] + [sep] + Join(rest[1..], sep);
          assert Join(rest, sep) == rest[0] + [sep] + Join(rest[1..], sep);
        }
      } else {
        assert Split(s, sep)[1..] == rest;
      }
    }
  }

  /** Splitting a join gives the pieces back, provided no piece holds the separator. */
  lemma {:induction false} SplitJoin(xs: seq<string>, sep: char)
    requires |xs| >= 1
    requires forall k :: 0 <= k < |xs| ==> sep !in xs[k]
    ensures Split(Join(xs, sep), sep) == xs
  {
    if |xs| == 1 {
      SplitNoSep(xs[0], sep);
    } else {
      SplitJoin(xs[1..], sep);
      SplitPrefix(xs[0], [sep] + Join(xs[1..], sep), sep);
      assert Join(xs, sep) == xs[0] + ([sep] + Join(xs[1..], sep));
      assert Split([sep] + Join(xs[1..], sep), sep) == [[]] + Split(Join(xs[1..], sep), sep) by {
        assert ([sep] + Join(xs[1..], sep))[1..] == Join(xs[1..], sep);
      }
      var pieces := Split([sep] + Join(xs[1..], sep), sep);
      assert pieces[0] == [] && pieces[1..] == xs[1..];
      assert xs[0] + pieces[0] == xs[0];
      assert [xs[0]] + xs[1..] == xs;
    }
  }

  lemma {:induction false} SplitNoSep(s: string, sep: char)
    requires sep !in s
    ensures Split(s, sep) == [s]
  {
    if |s| > 0 {
      SplitNoSep(s[1..], sep);
      assert [s[0]] + s[1..] == s;
    }
  }

  /** Splitting `a + b` where `a` holds no separator glues `a` onto the first piece of `b`. */
  lemma {:induction false} SplitPrefix(a: string, b: string, sep: char)
    requires sep !in a
    ensures Split(a + b, sep) == [a + Split(b, sep)[0]] + Split(b, sep)[1..]
  {
    if |a| > 0 {
      SplitPrefix(a[1..], b, sep);
      assert (a + b)[1..] == a[1..] + b;
      assert [a[0]] + (a[1..] + Split(b, sep)[0]) == a + Split(b, sep)[0];
    } else {
      var r := Split(b, sep);
      assert a + b == b;
      assert a + r[0] == r[0];
      assert [r[0]] + r[1..] == r;
    }
  }

  /** Removes one trailing carriage return. */
  function DropCarriageReturn(s: string): (r: string)
    ensures r == s || (|s| > 0 && s[|s| - 1] == '\r' && r == s[..|s| - 1])
  {
    if |s| > 0 && s[|s| - 1] == '\r' then s[..|s| - 1] else s
  }

  /** Drops the carriage return from every piece but the last. */
  function DropCarriageReturns(pieces: seq<string>): (lines: seq<string>)
    ensures |lines| == |pieces|
  {
    seq(|pieces|, k requires 0 <= k < |pieces| =>
      if k < |pieces| - 1 then DropCarriageReturn(pieces[k]) else pieces[k])
  }

  /**
   * `text.split(/\r?\n/)`: split on line feeds; a carriage return directly before a
   * line feed belongs to the separator, so it is dropped from every piece but the last.
   */
  function SplitLines(text: string): (lines: seq<string>)
    ensures |lines| == |Split(text, '\n')|
    ensures forall k :: 0 <= k < |lines| ==> '\n' !in lines[k]
  {
    DropCarriageReturns(Split(text, '\n'))
  }

  /** The text with every carriage return that directly precedes a line feed removed. */
  function StripCarriageReturns(s: string): string
  {
    if |s| == 0 then s
    else if |s| >= 2 && s[0] == '\r' && s[1] == '\n' then StripCarriageReturns(s[1..])
    else [s[0]] + StripCarriageReturns(s[1..])
  }

  lemma {:induction false} StripWithoutLineFeed(a: string)
    requires '\n' !in a
    ensures StripCarriageReturns(a) == a
  {
    if |a| > 0 {
      StripWithoutLineFeed(a[1..]);
      assert [a[0]] + a[1..] == a;
    }
  }

  /** Stripping `a + "\n" + b`, where `a` holds no line feed, drops at most the last character of `a`. */
  lemma {:induction false} StripAcrossLineFeed(a: string, b: string)
    requires '\n' !in a
    ensures StripCarriageReturns(a + ['\n'] + b) == DropCarriageReturn(a) + ['\n'] + StripCarriageReturns(b)
  {
    var s := a + ['\n'] + b;
    if |a| == 0 {
      assert s == ['\n'] + b;
      assert s[1..] == b;
    } else if |a| == 1 && a[0] == '\r' {
      assert s[1..] == ['\n'] + b;
      assert s[1..][1..] == b;
    } else {
      StripAcrossLineFeed(a[1..], b);
      assert s[1..] == a[1..] + ['\n'] + b;
      assert |a| >= 2 ==> s[1] == a[1];
      assert [a[0]] + DropCarriageReturn(a[1..]) == DropCarriageReturn(a);
    }
  }

  lemma {:induction false} StripJoinedPieces(xs: seq<string>)
    requires |xs| >= 1
    requires forall k :: 0 <= k < |xs| ==> '\n' !in xs[k]
    ensures StripCarriageReturns(Join(xs, '\n')) == Join(DropCarriageReturns(xs), '\n')
  {
    if |xs| == 1 {
      StripWithoutLineFeed(xs[0]);
    } else {
      StripJoinedPieces(xs[1..]);
      StripAcrossLineFeed(xs[0], Join(xs[1..], '\n'));
      assert DropCarriageReturns(xs)[1..] == DropCarriageReturns(xs[1..]);
    }
  }

  /**
   * The lines are what splitting the text on line feeds gives once every carriage return
   * before a line feed is removed: joining them back with line feeds restores that text.
   */
  lemma SplitLinesRoundTrip(text: string)
    ensures Join(SplitLines(text), '\n') == StripCarriageReturns(text)
    ensures SplitLines(text) == Split(StripCarriageReturns(text), '\n')
  {
    JoinSplit(text, '\n');
    StripJoinedPieces(Split(text, '\n'));
    SplitJoin(SplitLines(text), '\n');
  }
}

/** Code-point lexicographic order on strings, the order month keys are sorted in. */
module TextOrder {

  predicate Less(a: string, b: string)
  {
    if |a| == 0 then |b| > 0
    else if |b| == 0 then false
    else a[0] < b[0] || (a[0] == b[0] && Less(a[1..], b[1..]))
  }

  lemma {:induction false} LessIrreflexive(a: string)
    ensures !Less(a, a)
  {
    if |a| > 0 { LessIrreflexive(a[1..]); }
  }

  lemma {:induction false} LessTransitive(a: string, b: string, c: string)
    requires Less(a, b) && Less(b, c)
    ensures Less(a, c)
  {
    if |a| > 0 && a[0] == b[0] == c[0] {
      LessTransitive(a[1..], b[1..], c[1..]);
    }
  }

  lemma {:induction false} LessTotal(a: string, b: string)
    ensures a == b || Less(a, b) || Less(b, a)
  {
    if |a| > 0 && |b| > 0 && a[0] == b[0] {
      LessTotal(a[1..], b[1..]);
      if a[1..] == b[1..] {
        assert a == [a[0]] + a[1..] && b == [b[0]] + b[1..];
      }
    }
  }
}
