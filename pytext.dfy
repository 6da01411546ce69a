/** The few Python `str` and `int` behaviours the proxy miner relies on, stated
    over Dafny strings: `int()`, `str.split`, `str.join`, `str.splitlines`,
    `str.removeprefix`, the substring test `in`, and list slicing. */
module PyText {

  datatype Option<T> = None | Some(value: T)

  predicate IsDigit(c: char) { '0' <= c <= '9' }

  predicate AllDigits(s: string) { forall i :: 0 <= i < |s| ==> IsDigit(s[i]) }

  function DigitValue(c: char): (d: nat)
    requires IsDigit(c)
    ensures d <= 9
  {
    (c as int) - ('0' as int)
  }

  /** Decimal value of a run of ASCII digits, most significant digit first. */
  function Value(s: string): nat
    requires AllDigits(s)
  {
    if s == [] then 0 else 10 * Value(s[..|s| - 1]) + DigitValue(s[|s| - 1])
  }

  // ---------------------------------------------------------------------
  // int(s)
  // ---------------------------------------------------------------------

  /** The ASCII characters for which Python's `str.isspace()` holds; `int()`
      ignores them around the number. */
  predicate IsSpace(c: char)
  {
    c == ' ' || c == '\t' || c == '\n' || c == '\r' || c == '\U{0B}' || c == '\U{0C}'
    || c == '\U{1C}' || c == '\U{1D}' || c == '\U{1E}' || c == '\U{1F}'
  }

  function StripLeft(s: string): (r: string)
    ensures r == [] || !IsSpace(r[0])
  {
    if s != [] && IsSpace(s[0]) then StripLeft(s[1..]) else s
  }

  function StripRight(s: string): (r: string)
    ensures r == [] || !IsSpace(r[|r| - 1])
  {
    if s != [] && IsSpace(s[|s| - 1]) then StripRight(s[..|s| - 1]) else s
  }

  /** Digits with single underscores between them, as `int()` accepts them. */
  predicate DigitGroups(s: string)
  {
    && |s| > 0
    && IsDigit(s[0])
    && forall i {:trigger s[i]} :: 0 <= i < |s| ==> IsDigit(s[i]) || (s[i] == '_' && i + 1 < |s| && IsDigit(s[i + 1]))
  }

  predicate DigitsOrUnderscores(s: string)
  {
    forall i :: 0 <= i < |s| ==> IsDigit(s[i]) || s[i] == '_'
  }

  function WithoutUnderscores(s: string): (r: string)
    requires DigitsOrUnderscores(s)
    ensures AllDigits(r) && |r| <= |s|
    ensures AllDigits(s) ==> r == s
  {
    if s == [] then []
    else if s[0] == '_' then WithoutUnderscores(s[1..])
    else [s[0]] + WithoutUnderscores(s[1..])
  }

  function Magnitude(s: string): Option<nat>
  {
    if DigitGroups(s) then
      Some(Value(WithoutUnderscores(s)))
    else None
  }

  /** Python's `int(s)` for a string in base 10: surrounding whitespace, an
      optional sign, digits with optional single underscores; `None` stands
      for the `ValueError` it raises on anything else. */
  function PyInt(s: string): Option<int>
  {
    var t := StripRight(StripLeft(s));
    if t != [] && (t[0] == '+' || t[0] == '-') then
      match Magnitude(t[1..])
      case None => None
      case Some(m) =>
        var v: int := if t[0] == '-' then -(m as int) else m;
        Some(v)
    else
      match Magnitude(t)
      case None => None
      case Some(m) => Some(m)
  }

  /** Python's `str(n)` for an integer: the decimal numeral, `-` if negative. */
  function NatString(n: nat): (s: string)
    ensures |s| > 0 && AllDigits(s)
    ensures |s| > 1 ==> s[0] != '0'
  {
    if n < 10 then [('0' as int + n) as char]
    else NatString(n / 10) + [('0' as int + n % 10) as char]
  }

  function IntString(n: int): string
  {
    if n < 0 then "-" + NatString(-n) else NatString(n)
  }

  lemma {:induction false} ValueOfNatString(n: nat)
    ensures Value(NatString(n)) == n
  {
    if n >= 10 {
      ValueOfNatString(n / 10);
      var s := NatString(n);
      assert s[..|s| - 1] == NatString(n / 10);
    }
  }

  lemma MagnitudeOfNatString(m: nat)
    ensures Magnitude(NatString(m)) == Some(m)
  {
    var digits := NatString(m);
    ValueOfNatString(m);
    assert DigitGroups(digits);
  }

  /** `int(str(n)) == n`: the numeral Python prints for an integer reads back as it. */
  lemma PyIntOfIntString(n: int)
    ensures PyInt(IntString(n)) == Some(n)
  {
    var m: nat := if n < 0 then -n else n;
    MagnitudeOfNatString(m);
    var s := IntString(n);
    assert !IsSpace(s[0]);
    assert StripLeft(s) == s;
    assert !IsSpace(s[|s| - 1]);
    assert StripRight(s) == s;
    if n < 0 {
      assert s[1..] == NatString(m);
    } else {
      assert s[0] != '+' && s[0] != '-';
    }
  }

  // ---------------------------------------------------------------------
  // split, join, splitlines, removeprefix, `in`, slicing
  // ---------------------------------------------------------------------

  /** Python's `sep.join(parts)`. */
  function Join(parts: seq<string>, sep: string): string
  {
    if parts == [] then ""
    else if |parts| == 1 then parts[0]
    else parts[0] + sep + Join(parts[1..], sep)
  }

  /** Python's `s.split(sep)` for a one-character separator. */
  function Split(s: string, sep: char): (parts: seq<string>)
    ensures |parts| >= 1
  {
    if s == [] then [""]
    else if s[0] == sep then [""] + Split(s[1..], sep)
    else
      var rest := Split(s[1..], sep);
      [[s[0]] + rest[0]] + rest[1..]
  }

  /** The pieces `split` returns contain no separator and join back to the input. */
  lemma {:induction false} SplitJoin(s: string, sep: char)
    ensures Join(Split(s, sep), [sep]) == s
    ensures forall i :: 0 <= i < |Split(s, sep)| ==> sep !in Split(s, sep)[i]
  {
    if s != [] {
      SplitJoin(s[1..], sep);
      var rest := Split(s[1..], sep);
      if s[0] == sep {
        assert Split(s, sep) == [""] + rest;
        assert Split(s, sep)[1..] == rest;
      } else {
        var parts := Split(s, sep);
        assert parts[1..] == rest[1..];
        if |rest| == 1 {
          assert Join(parts, [sep]) == [s[0]] + rest[0];
        } else {
          assert rest[1..] != [];
          assert Join(rest, [sep]) == rest[0] + [sep] + Join(rest[1..], [sep]);
        }
        forall i | 0 <= i < |parts| ensures sep !in parts[i] {
          if i > 0 { assert parts[i] == rest[i]; }
        }
      }
    }
  }

  lemma {:induction false} SplitNoSeparator(a: string, sep: char)
    requires sep !in a
    ensures Split(a, sep) == [a]
  {
    if a != [] {
      SplitNoSeparator(a[1..], sep);
      assert [a[0]] + a[1..] == a;
    }
  }

  lemma {:induction false} SplitAtSeparator(a: string, sep: char, b: string)
    requires sep !in a
    ensures Split(a + [sep] + b, sep) == [a] + Split(b, sep)
  {
    if a == [] {
      assert a + [sep] + b == [sep] + b;
      assert ([sep] + b)[1..] == b;
    } else {
      SplitAtSeparator(a[1..], sep, b);
      assert (a + [sep] + b)[1..] == a[1..] + [sep] + b;
      assert [a[0]] + a[1..] == a;
    }
  }

  /** `s.split(sep)` has exactly two pieces `[a, b]` precisely when `s` is
      `a + sep + b` with no separator in `a` or `b`. */
  lemma SplitInTwo(s: string, sep: char, a: string, b: string)
    ensures Split(s, sep) == [a, b] <==> (s == a + [sep] + b && sep !in a && sep !in b)
  {
    if s == a + [sep] + b && sep !in a && sep !in b {
      SplitAtSeparator(a, sep, b);
      SplitNoSeparator(b, sep);
    }
    if Split(s, sep) == [a, b] {
      SplitJoin(s, sep);
      assert Split(s, sep)[0] == a && Split(s, sep)[1] == b;
    }
  }

  /** Python's `s.removeprefix(p)`. */
  function RemovePrefix(s: string, p: string): (r: string)
    ensures p <= s ==> s == p + r
    ensures !(p <= s) ==> r == s
  {
    if p <= s then s[|p|..] else s
  }

  /** The characters at which `str.splitlines()` ends a line. */
  predicate IsLineBreak(c: char)
  {
    c == '\n' || c == '\r' || c == '\U{0B}' || c == '\U{0C}' || c == '\U{1C}' || c == '\U{1D}'
    || c == '\U{1E}' || c == '\U{85}' || c == '\U{2028}' || c == '\U{2029}'
  }

  predicate NoLineBreak(s: string) { forall i :: 0 <= i < |s| ==> !IsLineBreak(s[i]) }

  /** Index of the first line break in `s`, or `|s|`. */
  function LineEnd(s: string): (k: nat)
    ensures k <= |s| && NoLineBreak(s[..k])
    ensures k < |s| ==> IsLineBreak(s[k])
  {
    if s == [] || IsLineBreak(s[0]) then 0
    else
      var k := 1 + LineEnd(s[1..]);
      assert s[..k] == [s[0]] + s[1..][..k - 1];
      k
  }

  /** Python's `s.splitlines()`: `\r\n` is one boundary, and a final line
      break does not start an empty last line. */
  function SplitLines(s: string): seq<string>
    decreases |s|
  {
    if s == [] then []
    else
      var k := LineEnd(s);
      if k == |s| then [s]
      else
        var skip := if s[k] == '\r' && k + 1 < |s| && s[k + 1] == '\n' then 2 else 1;
        [s[..k]] + SplitLines(s[k + skip..])
  }

  lemma LineEndOf(a: string, rest: string)
    requires NoLineBreak(a)
    ensures rest != [] && IsLineBreak(rest[0]) ==> LineEnd(a + rest) == |a|
    decreases |a|
  {
    if a != [] {
      var s := a + rest;
      assert !IsLineBreak(s[0]);
      assert s[1..] == a[1..] + rest;
      LineEndOf(a[1..], rest);
    }
  }

  lemma SplitLinesLine(a: string, rest: string)
    requires NoLineBreak(a)
    ensures SplitLines(a + "\n" + rest) == [a] + SplitLines(rest)
  {
    var s := a + "\n" + rest;
    LineEndOf(a, "\n" + rest);
    assert s == a + ("\n" + rest);
    assert LineEnd(s) == |a|;
    assert s[..|a|] == a;
    assert s[|a| + 1..] == rest;
  }

  lemma SplitLinesLast(a: string)
    requires NoLineBreak(a) && a != []
    ensures SplitLines(a) == [a]
  {
    LineEndOf(a, "");
    assert a + "" == a;
  }

  /** `needle in hay` for two strings. */
  predicate Contains(hay: string, needle: string)
    decreases |hay|
  {
    needle <= hay || (hay != [] && Contains(hay[1..], needle))
  }

  predicate OccursAt(hay: string, needle: string, i: nat)
  {
    i + |needle| <= |hay| && hay[i..i + |needle|] == needle
  }

  lemma {:induction false} ContainsIff(hay: string, needle: string)
    ensures Contains(hay, needle) <==> exists i: nat :: OccursAt(hay, needle, i)
  {
    if needle <= hay {
      assert OccursAt(hay, needle, 0);
    } else if hay != [] {
      ContainsIff(hay[1..], needle);
      if Contains(hay[1..], needle) {
        var i: nat :| OccursAt(hay[1..], needle, i);
        assert hay[i + 1..i + 1 + |needle|] == hay[1..][i..i + |needle|];
        assert OccursAt(hay, needle, i + 1);
      }
      if i: nat :| OccursAt(hay, needle, i) {
        assert i != 0;
        assert hay[1..][i - 1..i - 1 + |needle|] == hay[i..i + |needle|];
        assert OccursAt(hay[1..], needle, i - 1);
      }
    }
  }

  /** Python's `a[start:stop]` with the usual rules for negative and
      out-of-range bounds. */
  function Slice<T>(a: seq<T>, start: int, stop: int): seq<T>
  {
    var lo := Clamp(if start < 0 then start + |a| else start, |a|);
    var hi := Clamp(if stop < 0 then stop + |a| else stop, |a|);
    if hi <= lo then [] else a[lo..hi]
  }

  function Clamp(i: int, n: nat): (r: nat)
    ensures r <= n
  {
    if i < 0 then 0 else if i > n then n else i
  }

  /** Python's slicing rules: bounds within the sequence slice directly, a
      negative bound counts from the end (and clamps to the start when it
      reaches before it), and a start at or past the stop or past the end
      gives nothing. */
  lemma SliceRules<T>(a: seq<T>, start: int, stop: int)
    ensures 0 <= start <= stop <= |a| ==> Slice(a, start, stop) == a[start..stop]
    ensures -|a| <= start < 0 ==> Slice(a, start, stop) == Slice(a, start + |a|, stop)
    ensures -|a| <= stop < 0 ==> Slice(a, start, stop) == Slice(a, start, stop + |a|)
    ensures 0 <= stop <= start || |a| <= start ==> Slice(a, start, stop) == []
    ensures stop > |a| ==> Slice(a, start, stop) == Slice(a, start, |a|)
    ensures start < -|a| ==> Slice(a, start, stop) == Slice(a, 0, stop)
    ensures stop < -|a| ==> Slice(a, start, stop) == Slice(a, start, 0)
  {
  }
}
