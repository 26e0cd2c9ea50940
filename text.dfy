/**
 * Decimal rendering and parsing of integers and the line/field splitting used by
 * the board files and the snapshot traces. The renderers follow Java's
 * `Integer.toString`; `JavaParseInt` follows `Integer.parseInt` on ASCII text,
 * with its `NumberFormatException` as `None`. Java also reads the decimal
 * digits of other scripts (`Character.digit`), which this parse rejects.
 */
module Text {

  datatype Option<+T> = None | Some(value: T)

  const IntMin: int := -0x8000_0000
  const IntMax: int := 0x7fff_ffff

  predicate IsDigit(ch: char) {
    '0' <= ch <= '9'
  }

  predicate AllDigits(s: string) {
    forall i :: 0 <= i < |s| ==> IsDigit(s[i])
  }

  function DigitChar(d: int): (ch: char)
    requires 0 <= d <= 9
    ensures IsDigit(ch) && ch as int - '0' as int == d
  {
    (d + '0' as int) as char
  }

  function DigitValue(ch: char): (d: nat)
    requires IsDigit(ch)
    ensures d <= 9 && DigitChar(d) == ch
  {
    ch as int - '0' as int
  }

  /** The decimal digits of `n`, most significant first, without leading zeros. */
  function NatToString(n: nat): (s: string)
    decreases n
  {
    if n < 10 then [DigitChar(n)] else NatToString(n / 10) + [DigitChar(n % 10)]
  }

  /** Java's `Integer.toString` (and string concatenation of an int). */
  function IntToString(i: int): string {
    if i < 0 then "-" + NatToString(-i) else NatToString(i)
  }

  /** The value of a string of decimal digits (leading zeros allowed). */
  function DigitsValue(s: string): (v: nat)
    requires AllDigits(s)
  {
    if s == [] then 0 else DigitsValue(s[..|s| - 1]) * 10 + DigitValue(s[|s| - 1])
  }

  lemma {:induction false} NatToStringDigits(n: nat)
    ensures |NatToString(n)| >= 1 && AllDigits(NatToString(n))
    ensures DigitsValue(NatToString(n)) == n
    decreases n
  {
    if n >= 10 {
      NatToStringDigits(n / 10);
      var s := NatToString(n);
      assert s[..|s| - 1] == NatToString(n / 10);
    }
  }

  /** A single-digit value renders as one character. */
  lemma SmallIntToString(d: int)
    requires 0 <= d <= 9
    ensures IntToString(d) == [DigitChar(d)]
  {
  }

  /**
   * Java's `Integer.parseInt` on ASCII digits: an optional sign, at least one
   * digit, and a value in int range. Non-ASCII decimal digits, which Java
   * accepts, make the parse fail here.
   */
  function JavaParseInt(s: string): (r: Option<int>)
    ensures r.Some? ==> IntMin <= r.value <= IntMax
  {
    if |s| == 0 then None
    else
      var negative := s[0] == '-';
      var body := if s[0] == '-' || s[0] == '+' then s[1..] else s;
      if |body| == 0 || !AllDigits(body) then None
      else
        var v := if negative then -(DigitsValue(body) as int) else DigitsValue(body);
        if IntMin <= v <= IntMax then Some(v) else None
  }

  lemma JavaParseIntDigits(s: string)
    requires |s| >= 1 && AllDigits(s)
    ensures JavaParseInt(s) == if DigitsValue(s) <= IntMax then Some(DigitsValue(s)) else None
  {
    assert IsDigit(s[0]);
  }

  /** The characters of `s` that are decimal digits, in order (Java's `replaceAll("\\D+", "")`). */
  function KeepDigits(s: string): (r: string)
    ensures AllDigits(r) && |r| <= |s|
  {
    if s == [] then []
    else KeepDigits(s[..|s| - 1]) + (if IsDigit(s[|s| - 1]) then [s[|s| - 1]] else [])
  }

  lemma {:induction false} KeepDigitsAppend(a: string, b: string)
    ensures KeepDigits(a + b) == KeepDigits(a) + KeepDigits(b)
    decreases |b|
  {
    if b == [] {
      assert a + b == a;
    } else {
      var b' := b[..|b| - 1];
      assert (a + b)[..|a + b| - 1] == a + b';
      KeepDigitsAppend(a, b');
    }
  }

  lemma {:induction false} KeepDigitsOfDigits(s: string)
    requires AllDigits(s)
    ensures KeepDigits(s) == s
    decreases |s|
  {
    if s != [] {
      KeepDigitsOfDigits(s[..|s| - 1]);
      assert s == s[..|s| - 1] + [s[|s| - 1]];
    }
  }

  lemma {:induction false} KeepDigitsOfNone(s: string)
    requires forall i :: 0 <= i < |s| ==> !IsDigit(s[i])
    ensures KeepDigits(s) == []
    decreases |s|
  {
    if s != [] {
      KeepDigitsOfNone(s[..|s| - 1]);
    }
  }

  /** The position of the last occurrence of `sep` in `s`. */
  function LastIndexOf(s: string, sep: char): (i: nat)
    requires sep in s
    ensures i < |s| && s[i] == sep && sep !in s[i + 1..]
  {
    if s[|s| - 1] == sep then |s| - 1
    else
      assert sep in s[..|s| - 1] by {
        var k :| 0 <= k < |s| && s[k] == sep;
        assert s[..|s| - 1][k] == sep;
      }
      var i := LastIndexOf(s[..|s| - 1], sep);
      assert s[i + 1..] == s[..|s| - 1][i + 1..] + [s[|s| - 1]];
      i
  }

  /** `s` cut at every `sep`, like Java's `split` without dropping trailing empty parts. */
  function Split(s: string, sep: char): (parts: seq<string>)
    ensures |parts| >= 1
    decreases |s|
  {
    if sep !in s then [s]
    else
      var i := LastIndexOf(s, sep);
      Split(s[..i], sep) + [s[i + 1..]]
  }

  /** `xs` joined with one `sep` between neighbours. */
  function Join(xs: seq<string>, sep: char): string
    requires |xs| >= 1
  {
    if |xs| == 1 then xs[0] else Join(xs[..|xs| - 1], sep) + [sep] + xs[|xs| - 1]
  }

  /** Every line followed by `eol`. */
  function Terminated(lines: seq<string>, eol: string): string {
    if lines == [] then "" else Terminated(lines[..|lines| - 1], eol) + lines[|lines| - 1] + eol
  }

  predicate NoneContains(xs: seq<string>, sep: char) {
    forall i :: 0 <= i < |xs| ==> sep !in xs[i]
  }

  /** The last `sep` is the one before a tail without `sep`. */
  lemma {:induction false} LastIndexOfBefore(a: string, sep: char, b: string)
    requires sep !in b
    ensures LastIndexOf(a + [sep] + b, sep) == |a|
    decreases |b|
  {
    var s := a + [sep] + b;
    if b != [] {
      var b' := b[..|b| - 1];
      assert s[|s| - 1] == b[|b| - 1] != sep;
      assert s[..|s| - 1] == a + [sep] + b';
      assert sep !in b' by {
        forall j | 0 <= j < |b'| ensures b'[j] != sep {
          assert b'[j] == b[j];
        }
      }
      LastIndexOfBefore(a, sep, b');
    }
  }

  lemma SplitAtLast(a: string, sep: char, b: string)
    requires sep !in b
    ensures Split(a + [sep] + b, sep) == Split(a, sep) + [b]
  {
    var s := a + [sep] + b;
    LastIndexOfBefore(a, sep, b);
    assert s[..|a|] == a && s[|a| + 1..] == b;
  }

  /** Splitting undoes joining when no part holds the separator. */
  lemma {:induction false} SplitJoin(xs: seq<string>, sep: char)
    requires |xs| >= 1 && NoneContains(xs, sep)
    ensures Split(Join(xs, sep), sep) == xs
    decreases |xs|
  {
    if |xs| > 1 {
      var init := xs[..|xs| - 1];
      SplitJoin(init, sep);
      SplitAtLast(Join(init, sep), sep, xs[|xs| - 1]);
      assert xs == init + [xs[|xs| - 1]];
    }
  }

  /** Splitting a text of terminated lines, followed by a tail, gives the lines and the tail. */
  lemma {:induction false} SplitTerminated(lines: seq<string>, sep: char, tail: string)
    requires NoneContains(lines, sep) && sep !in tail
    ensures Split(Terminated(lines, [sep]) + tail, sep) == lines + [tail]
    decreases |lines|
  {
    if lines != [] {
      var init := lines[..|lines| - 1];
      var last := lines[|lines| - 1];
      assert Terminated(lines, [sep]) + tail == (Terminated(init, [sep]) + last) + [sep] + tail;
      assert NoneContains(init, sep) && sep !in last;
      SplitAtLast(Terminated(init, [sep]) + last, sep, tail);
      SplitTerminated(init, sep, last);
      assert Split(Terminated(init, [sep]) + last, sep) == init + [last];
      assert lines == init + [last];
    } else {
      assert Terminated(lines, [sep]) + tail == tail;
    }
  }

  lemma NatToStringChars(n: nat, ch: char)
    requires !IsDigit(ch)
    ensures ch !in NatToString(n)
  {
    NatToStringDigits(n);
  }

  lemma {:induction false} TerminatedAppend(lines: seq<string>, more: seq<string>, eol: string)
    ensures Terminated(lines + more, eol) ==
            Terminated(lines, eol) + Terminated(more, eol)
    decreases |more|
  {
    if more == [] {
      assert lines + more == lines;
    } else {
      var init := more[..|more| - 1];
      assert (lines + more)[..|lines + more| - 1] == lines + init;
      TerminatedAppend(lines, init, eol);
    }
  }

  /**
   * A header line, terminated lines and one empty line: splitting at line
   * ends gives the header, the lines, the empty line and the empty rest.
   */
  lemma SplitLines(head: string, rows: seq<string>, sep: char)
    requires sep !in head && NoneContains(rows, sep)
    ensures Split(head + [sep] + Terminated(rows, [sep]) + [sep], sep) == [head] + rows + ["", ""]
  {
    var e := [sep];
    var front := [head] + rows;
    var lines := front + [""];
    forall i | 0 <= i < |lines| ensures sep !in lines[i] {
      if 0 < i < |lines| - 1 {
        assert lines[i] == rows[i - 1];
      }
    }
    TerminatedAppend([head], rows, e);
    TerminatedSnoc([], head, e);
    assert [] + [head] == [head];
    TerminatedSnoc(front, "", e);
    assert Terminated(lines, e) == head + e + Terminated(rows, e) + e;
    SplitTerminated(lines, sep, "");
    assert Terminated(lines, [sep]) + "" == Terminated(lines, e);
  }

  /** One more line at the end adds that line and a line end. */
  lemma TerminatedSnoc(lines: seq<string>, x: string, eol: string)
    ensures Terminated(lines + [x], eol) == Terminated(lines, eol) + x + eol
  {
    assert (lines + [x])[..|lines|] == lines;
  }

  lemma IntToStringChars(i: int, ch: char)
    requires !IsDigit(ch) && ch != '-'
    ensures ch !in IntToString(i)
  {
    NatToStringChars(if i < 0 then -i else i, ch);
  }

  /** `Integer.parseInt` reads back what `Integer.toString` wrote, for a natural in int range. */
  lemma ParseNatToString(n: nat)
    requires n <= IntMax
    ensures JavaParseInt(IntToString(n)) == Some(n)
  {
    NatToStringDigits(n);
    JavaParseIntDigits(NatToString(n));
  }

  /** `Integer.parseInt` reads back what `Integer.toString` wrote, for every int. */
  lemma ParseIntToString(i: int)
    requires IntMin <= i <= IntMax
    ensures JavaParseInt(IntToString(i)) == Some(i)
  {
    if i < 0 {
      NatToStringDigits(-i);
      var s := IntToString(i);
      assert s[1..] == NatToString(-i);
    } else {
      ParseNatToString(i);
    }
  }

  /** Two leading lines, then more, each followed by `eol`. */
  lemma TerminatedTwo(a: string, b: string, rest: seq<string>, eol: string)
    ensures Terminated([a, b] + rest, eol) == a + eol + b + eol + Terminated(rest, eol)
  {
    var head := [a, b];
    TerminatedAppend(head, rest, eol);
    assert Terminated([a], eol) == a + eol by {
      assert [a][..0] == [];
    }
    assert head[..1] == [a];
    assert Terminated(head, eol) == Terminated([a], eol) + b + eol;
  }
}
