/** The IPv4 `ip:port` pattern the miner scans source pages with:

      (?:^|\D)(({0}\.{1}\.{1}\.{1}):{2})(?:\D|$)

    where {0} is a first octet, {1} an octet and {2} a port. The alternatives
    of each placeholder are predicates on strings; `GroupAt` reads group 1 at a
    position the way the regex engine settles it; `Scan` is Python's
    `re.finditer`: leftmost match first, then the search resumes where the
    whole match (trailing guard included) ended. */
module Endpoint {
  import opened PyText

  // ---------------------------------------------------------------------
  // The three numeric sub-patterns, alternative by alternative
  // ---------------------------------------------------------------------

  /** {0} = (?:[1-9]|[1-9]\d|1\d{2}|2[0-4]\d|25[0-5]) */
  predicate FirstOctetForm(s: string)
  {
    || (|s| == 1 && '1' <= s[0] <= '9')
    || (|s| == 2 && '1' <= s[0] <= '9' && IsDigit(s[1]))
    || (|s| == 3 && s[0] == '1' && IsDigit(s[1]) && IsDigit(s[2]))
    || (|s| == 3 && s[0] == '2' && '0' <= s[1] <= '4' && IsDigit(s[2]))
    || (|s| == 3 && s[0] == '2' && s[1] == '5' && '0' <= s[2] <= '5')
  }

  /** {1} = (?:\d|[1-9]\d|1\d{2}|2[0-4]\d|25[0-5]) */
  predicate OctetForm(s: string)
  {
    || (|s| == 1 && IsDigit(s[0]))
    || (|s| == 2 && '1' <= s[0] <= '9' && IsDigit(s[1]))
    || (|s| == 3 && s[0] == '1' && IsDigit(s[1]) && IsDigit(s[2]))
    || (|s| == 3 && s[0] == '2' && '0' <= s[1] <= '4' && IsDigit(s[2]))
    || (|s| == 3 && s[0] == '2' && s[1] == '5' && '0' <= s[2] <= '5')
  }

  /** {2} = (?:\d|[1-9]\d{1,3}|[1-5]\d{4}|6[0-4]\d{3}|65[0-4]\d{2}|655[0-2]\d|6553[0-5]) */
  predicate PortForm(s: string)
  {
    || (|s| == 1 && IsDigit(s[0]))
    || (2 <= |s| <= 4 && '1' <= s[0] <= '9' && AllDigits(s))
    || (|s| == 5 && '1' <= s[0] <= '5' && IsDigit(s[1]) && IsDigit(s[2]) && IsDigit(s[3]) && IsDigit(s[4]))
    || (|s| == 5 && s[0] == '6' && '0' <= s[1] <= '4' && IsDigit(s[2]) && IsDigit(s[3]) && IsDigit(s[4]))
    || (|s| == 5 && s[0] == '6' && s[1] == '5' && '0' <= s[2] <= '4' && IsDigit(s[3]) && IsDigit(s[4]))
    || (|s| == 5 && s[0] == '6' && s[1] == '5' && s[2] == '5' && '0' <= s[3] <= '2' && IsDigit(s[4]))
    || (|s| == 5 && s[0] == '6' && s[1] == '5' && s[2] == '5' && s[3] == '3' && '0' <= s[4] <= '5')
  }

  /** A canonical decimal numeral: ASCII digits, no leading zero, value in lo..hi. */
  predicate Decimal(s: string, lo: nat, hi: nat)
  {
    |s| > 0 && AllDigits(s) && (|s| > 1 ==> s[0] != '0') && lo <= Value(s) <= hi
  }

  function Pow10(n: nat): nat
  {
    if n == 0 then 1 else 10 * Pow10(n - 1)
  }

  lemma {:induction false} ValueBounds(s: string)
    requires AllDigits(s) && |s| > 0
    ensures Value(s) < Pow10(|s|)
    ensures s[0] != '0' ==> Value(s) >= Pow10(|s| - 1)
  {
    if |s| > 1 {
      var init := s[..|s| - 1];
      ValueBounds(init);
      assert init[0] == s[0];
    }
  }

  /** Value of a numeral of at most five digits, digit by digit. */
  lemma {:induction false} ValueExpand(s: string)
    requires AllDigits(s) && 0 < |s| <= 5
    ensures |s| == 1 ==> Value(s) == DigitValue(s[0])
    ensures |s| == 2 ==> Value(s) == 10 * DigitValue(s[0]) + DigitValue(s[1])
    ensures |s| == 3 ==> Value(s) == 100 * DigitValue(s[0]) + 10 * DigitValue(s[1]) + DigitValue(s[2])
    ensures |s| == 4 ==> Value(s) == 1000 * DigitValue(s[0]) + 100 * DigitValue(s[1])
                                     + 10 * DigitValue(s[2]) + DigitValue(s[3])
    ensures |s| == 5 ==> Value(s) == 10000 * DigitValue(s[0]) + 1000 * DigitValue(s[1])
                                     + 100 * DigitValue(s[2]) + 10 * DigitValue(s[3]) + DigitValue(s[4])
  {
    var n := |s|;
    assert s[..n] == s;
    assert Value(s[..1]) == DigitValue(s[0]) by { assert s[..1][..0] == []; }
    if n >= 2 {
      assert s[..2][..1] == s[..1];
      assert Value(s[..2]) == 10 * Value(s[..1]) + DigitValue(s[1]);
    }
    if n >= 3 {
      assert s[..3][..2] == s[..2];
      assert Value(s[..3]) == 10 * Value(s[..2]) + DigitValue(s[2]);
    }
    if n >= 4 {
      assert s[..4][..3] == s[..3];
      assert Value(s[..4]) == 10 * Value(s[..3]) + DigitValue(s[3]);
    }
    if n >= 5 {
      assert s[..5][..4] == s[..4];
      assert Value(s[..5]) == 10 * Value(s[..4]) + DigitValue(s[4]);
    }
  }

  /** Group 1's first octet is exactly a decimal 1..255 with no leading zero. */
  lemma {:induction false} FirstOctetFormIsDecimal(s: string)
    ensures FirstOctetForm(s) <==> Decimal(s, 1, 255)
  {
    if 0 < |s| <= 3 && AllDigits(s) {
      ValueExpand(s);
    } else if |s| > 3 && AllDigits(s) && s[0] != '0' {
      ValueBounds(s);
      assert Pow10(3) == 1000;
      assert Pow10(|s| - 1) >= Pow10(3) by { Pow10Monotone(3, |s| - 1); }
    }
  }

  /** Each of the other three octets is exactly a decimal 0..255 with no leading zero. */
  lemma {:induction false} OctetFormIsDecimal(s: string)
    ensures OctetForm(s) <==> Decimal(s, 0, 255)
  {
    if 0 < |s| <= 3 && AllDigits(s) {
      ValueExpand(s);
    } else if |s| > 3 && AllDigits(s) && s[0] != '0' {
      ValueBounds(s);
      assert Pow10(3) == 1000;
      assert Pow10(|s| - 1) >= Pow10(3) by { Pow10Monotone(3, |s| - 1); }
    }
  }

  /** The port is exactly a decimal 0..65535 with no leading zero. */
  lemma {:induction false} PortFormIsDecimal(s: string)
    ensures PortForm(s) <==> Decimal(s, 0, 65535)
  {
    if 0 < |s| <= 5 && AllDigits(s) {
      ValueExpand(s);
    } else if |s| > 5 && AllDigits(s) && s[0] != '0' {
      ValueBounds(s);
      assert Pow10(5) == 100000;
      assert Pow10(|s| - 1) >= Pow10(5) by { Pow10Monotone(5, |s| - 1); }
    }
  }

  lemma {:induction false} Pow10Monotone(m: nat, n: nat)
    requires m <= n
    ensures Pow10(m) <= Pow10(n)
  {
    if m < n {
      Pow10Monotone(m, n - 1);
    }
  }

  // ---------------------------------------------------------------------
  // Group 1: a.b.c.d:p
  // ---------------------------------------------------------------------

  /** The five numerals of group 1. */
  datatype Fields = Fields(a: string, b: string, c: string, d: string, port: string)

  /** Group 1's text, `a.b.c.d:port`. */
  function Render(f: Fields): string
  {
    f.a + "." + (f.b + "." + (f.c + "." + (f.d + ":" + f.port)))
  }

  /** Group 1's five numerals as the alternatives accept them: canonical
      decimals, 1..255 for the first octet, 0..255 for the other three and
      0..65535 for the port (`WellFormedForms` shows this is exactly what the
      alternatives {0}, {1} and {2} spell). */
  predicate WellFormed(f: Fields)
  {
    Decimal(f.a, 1, 255) && Decimal(f.b, 0, 255) && Decimal(f.c, 0, 255) && Decimal(f.d, 0, 255) && Decimal(f.port, 0, 65535)
  }

  predicate NumeralsOf(f: Fields)
  {
    && |f.a| > 0 && AllDigits(f.a) && |f.b| > 0 && AllDigits(f.b) && |f.c| > 0 && AllDigits(f.c)
    && |f.d| > 0 && AllDigits(f.d) && |f.port| > 0 && AllDigits(f.port)
  }

  /** The numerals are well-formed exactly when each one matches its
      alternative of the pattern. */
  lemma {:induction false} WellFormedForms(f: Fields)
    ensures WellFormed(f) <==>
      FirstOctetForm(f.a) && OctetForm(f.b) && OctetForm(f.c) && OctetForm(f.d) && PortForm(f.port)
  {
    FirstOctetFormIsDecimal(f.a);
    OctetFormIsDecimal(f.b);
    OctetFormIsDecimal(f.c);
    OctetFormIsDecimal(f.d);
    PortFormIsDecimal(f.port);
  }

  lemma {:induction false} WellFormedNumerals(f: Fields)
    requires WellFormed(f)
    ensures NumeralsOf(f)
  {
  }

  /** No digit may touch group 1 on the right: the text ends or a non-digit comes. */
  predicate RightGuard(t: string, e: nat)
  {
    e == |t| || (e < |t| && !IsDigit(t[e]))
  }

  /** End of the longest run of digits starting at `i`. */
  function RunEnd(t: string, i: nat): (j: nat)
    requires i <= |t|
    ensures i <= j <= |t| && RightGuard(t, j)
    ensures forall k :: i <= k < j ==> IsDigit(t[k])
    decreases |t| - i
  {
    if i < |t| && IsDigit(t[i]) then RunEnd(t, i + 1) else i
  }

  lemma {:induction false} RunEndExact(t: string, i: nat, j: nat)
    requires i <= j <= |t| && AllDigits(t[i..j]) && RightGuard(t, j)
    ensures RunEnd(t, i) == j
    decreases j - i
  {
    if i < j {
      assert t[i] == t[i..j][0];
      assert t[i + 1..j] == t[i..j][1..];
      RunEndExact(t, i + 1, j);
    }
  }

  /** `ns[0]`, `seps[0]`, `ns[1]`, ..., `seps[|seps| - 1]`, `ns[|seps|]`. */
  function Interleave(ns: seq<string>, seps: string): string
    requires |ns| == |seps| + 1
    decreases |seps|
  {
    if seps == [] then ns[0] else ns[0] + [seps[0]] + Interleave(ns[1..], seps[1..])
  }

  lemma {:induction false} RenderInterleave(f: Fields)
    ensures Render(f) == Interleave([f.a, f.b, f.c, f.d, f.port], GroupSeps)
  {
    var ns := [f.a, f.b, f.c, f.d, f.port];
    var seps := GroupSeps;
    var last := f.d + ":" + f.port;
    assert Interleave([f.d, f.port], ":") == last by {
      assert [f.d, f.port][1..] == [f.port];
      assert ":"[1..] == [];
    }
    assert Interleave([f.c, f.d, f.port], ".:") == f.c + "." + last by {
      assert [f.c, f.d, f.port][1..] == [f.d, f.port];
      assert ".:"[1..] == ":";
    }
    assert Interleave([f.b, f.c, f.d, f.port], "..:") == f.b + "." + (f.c + "." + last) by {
      assert [f.b, f.c, f.d, f.port][1..] == [f.c, f.d, f.port];
      assert "..:"[1..] == ".:";
    }
    assert ns[1..] == [f.b, f.c, f.d, f.port];
    assert seps[1..] == "..:";
  }

  /** The separators between group 1's five numerals. */
  const GroupSeps: string := "...:"

  /** What reading digit runs produced: the runs, and where the last one ends. */
  datatype Read = Read(numerals: seq<string>, end: nat)

  /** Digit runs from `i`, the k-th run followed by the separator `seps[k]`.
      Octets are followed by a separator and the port by the trailing guard,
      none of them a digit, so the regex engine can only settle on whole
      runs. */
  function Runs(t: string, i: nat, seps: string): (r: Option<Read>)
    requires i <= |t|
    ensures r.Some? ==> |r.value.numerals| == |seps| + 1 && i <= r.value.end <= |t|
    decreases |seps|
  {
    var j := RunEnd(t, i);
    if seps == [] then Some(Read([t[i..j]], j))
    else if j < |t| && t[j] == seps[0] then
      match Runs(t, j + 1, seps[1..])
      case None => None
      case Some(rest) => Some(Read([t[i..j]] + rest.numerals, rest.end))
    else None
  }

  predicate NoDigit(s: string) { forall i :: 0 <= i < |s| ==> !IsDigit(s[i]) }

  /** Every string of the list is a run of digits. */
  predicate DigitRuns(ns: seq<string>)
  {
    ns == [] || (AllDigits(ns[0]) && DigitRuns(ns[1..]))
  }

  /** What `Runs` reads is spelled out, separators in between, at `i`; it ends
      where the last run does, and no digit follows. */
  lemma {:induction false} RunsSound(t: string, i: nat, seps: string)
    requires i <= |t| && Runs(t, i, seps).Some?
    ensures var r := Runs(t, i, seps).value;
      && OccursAt(t, Interleave(r.numerals, seps), i)
      && r.end == i + |Interleave(r.numerals, seps)|
      && RightGuard(t, r.end)
    decreases |seps|
  {
    var j := RunEnd(t, i);
    if seps == [] {
      RunsSoundLast(t, i);
    } else {
      var rest := RunsUnfold(t, i, seps);
      RunsSound(t, j + 1, seps[1..]);
      var tail := Interleave(rest.numerals, seps[1..]);
      InterleaveCons(t[i..j], rest.numerals, seps);
      OccursCons(t, i, j, seps[0], tail);
    }
  }

  lemma {:induction false} RunsSoundLast(t: string, i: nat)
    requires i <= |t|
    ensures var j := RunEnd(t, i);
      && Runs(t, i, "") == Some(Read([t[i..j]], j))
      && Interleave([t[i..j]], "") == t[i..j]
      && OccursAt(t, t[i..j], i)
  {
  }

  /** What `Runs` reads past the first separator. */
  lemma {:induction false} RunsUnfold(t: string, i: nat, seps: string) returns (rest: Read)
    requires i <= |t| && seps != [] && Runs(t, i, seps).Some?
    ensures var j := RunEnd(t, i);
      && j < |t| && t[j] == seps[0] && Runs(t, j + 1, seps[1..]) == Some(rest)
      && Runs(t, i, seps) == Some(Read([t[i..j]] + rest.numerals, rest.end))
  {
    rest := Runs(t, RunEnd(t, i) + 1, seps[1..]).value;
  }

  lemma {:induction false} InterleaveCons(n: string, ns: seq<string>, seps: string)
    requires seps != [] && |ns| == |seps|
    ensures Interleave([n] + ns, seps) == n + [seps[0]] + Interleave(ns, seps[1..])
  {
    assert ([n] + ns)[0] == n && ([n] + ns)[1..] == ns;
  }

  /** A run `t[i..j]`, the character at `j`, then `rest` from `j + 1`. */
  lemma {:induction false} OccursCons(t: string, i: nat, j: nat, c: char, rest: string)
    requires i <= j < |t| && t[j] == c && OccursAt(t, rest, j + 1)
    ensures OccursAt(t, t[i..j] + [c] + rest, i)
    ensures i + |t[i..j] + [c] + rest| == j + 1 + |rest|
  {
    OccursSplit(t, t[i..j], c, rest, i);
  }

  /** Runs `ns` laid out from `i` with the separators `seps` between them:
      each run is digits, each separator is not, and no digit follows the
      last run. */
  predicate Spelled(t: string, i: nat, ns: seq<string>, seps: string)
    requires |ns| == |seps| + 1
    decreases |seps|
  {
    var j := i + |ns[0]|;
    && j <= |t| && t[i..j] == ns[0] && AllDigits(ns[0])
    && if seps == [] then RightGuard(t, j)
       else j < |t| && t[j] == seps[0] && !IsDigit(seps[0]) && Spelled(t, j + 1, ns[1..], seps[1..])
  }

  /** The converse of `RunsSound`: runs laid out that way are read back
      exactly. */
  lemma {:induction false} RunsComplete(t: string, i: nat, ns: seq<string>, seps: string)
    requires i <= |t| && |ns| == |seps| + 1 && Spelled(t, i, ns, seps)
    ensures Runs(t, i, seps).Some? && Runs(t, i, seps).value.numerals == ns
    decreases |seps|
  {
    var j := i + |ns[0]|;
    RunEndExact(t, i, j);
    if seps == [] {
      assert ns == [t[i..j]];
    } else {
      RunsComplete(t, j + 1, ns[1..], seps[1..]);
      assert [ns[0]] + ns[1..] == ns;
    }
  }

  /** Digit runs spelled out with non-digit separators in between, and no
      digit after them, are laid out as `Spelled` says. */
  lemma {:induction false} SpelledOf(t: string, i: nat, ns: seq<string>, seps: string)
    requires |ns| == |seps| + 1 && NoDigit(seps) && DigitRuns(ns)
    requires OccursAt(t, Interleave(ns, seps), i) && RightGuard(t, i + |Interleave(ns, seps)|)
    ensures Spelled(t, i, ns, seps)
    decreases |seps|
  {
    if seps != [] {
      SpelledStep(t, i, ns, seps);
      SpelledOf(t, i + |ns[0]| + 1, ns[1..], seps[1..]);
    }
  }

  /** One step of `SpelledOf`: the first run, then the first separator, and
      the rest satisfies the same premises. */
  lemma {:induction false} SpelledStep(t: string, i: nat, ns: seq<string>, seps: string)
    requires |ns| == |seps| + 1 && NoDigit(seps) && seps != []
    requires DigitRuns(ns)
    requires OccursAt(t, Interleave(ns, seps), i) && RightGuard(t, i + |Interleave(ns, seps)|)
    ensures var j := i + |ns[0]|;
      var tail := Interleave(ns[1..], seps[1..]);
      && j < |t| && t[i..j] == ns[0] && AllDigits(ns[0]) && t[j] == seps[0] && !IsDigit(seps[0])
      && NoDigit(seps[1..]) && DigitRuns(ns[1..])
      && OccursAt(t, tail, j + 1) && RightGuard(t, j + 1 + |tail|)
  {
    var tail := Interleave(ns[1..], seps[1..]);
    assert Interleave(ns, seps) == ns[0] + [seps[0]] + tail;
    OccursSplit(t, ns[0], seps[0], tail, i);
    assert NoDigit(seps[1..]) by {
      forall k | 0 <= k < |seps[1..]| ensures !IsDigit(seps[1..][k]) {
        assert seps[1..][k] == seps[k + 1];
      }
    }
  }

  /** Group 1 and where it ends. */
  datatype Group = Group(fields: Fields, end: nat)

  /** Group 1 as the regex engine settles it when it starts at `s`: the five
      digit runs, when each fits its alternatives. */
  function GroupAt(t: string, s: nat): (r: Option<Group>)
    requires s <= |t|
    ensures r.Some? ==> s <= r.value.end <= |t|
  {
    match Runs(t, s, GroupSeps)
    case None => None
    case Some(rd) =>
      var ns := rd.numerals;
      var f := Fields(ns[0], ns[1], ns[2], ns[3], ns[4]);
      if WellFormed(f) then Some(Group(f, rd.end)) else None
  }

  /** `x`, the character `c`, then `rest` occur at `s` exactly when each
      piece occurs in its place. */
  lemma {:induction false} OccursSplit(t: string, x: string, c: char, rest: string, s: nat)
    ensures OccursAt(t, x + [c] + rest, s)
      <==> OccursAt(t, x, s) && s + |x| < |t| && t[s + |x|] == c && OccursAt(t, rest, s + |x| + 1)
  {
    var w := x + [c] + rest;
    var k := s + |x|;
    if s + |w| <= |t| {
      var seg := t[s..s + |w|];
      PiecesOf(seg, x, c, rest);
      assert seg[..|x|] == t[s..k];
      assert seg[|x| + 1..] == t[k + 1..s + |w|];
    }
  }

  /** A sequence is `x`, then `c`, then `rest` exactly when its pieces are. */
  lemma PiecesOf(seg: string, x: string, c: char, rest: string)
    requires |seg| == |x| + 1 + |rest|
    ensures seg == x + [c] + rest <==> seg[..|x|] == x && seg[|x|] == c && seg[|x| + 1..] == rest
  {
    if seg[..|x|] == x && seg[|x|] == c && seg[|x| + 1..] == rest {
      assert seg == seg[..|x|] + [seg[|x|]] + seg[|x| + 1..];
    }
  }

  /** What `GroupAt` finds is group 1: well-formed numerals spelled out at `s`,
      ending at the recorded end, with no digit right after them. */
  lemma {:induction false} GroupAtSound(t: string, s: nat)
    requires s <= |t| && GroupAt(t, s).Some?
    ensures var g := GroupAt(t, s).value;
      && WellFormed(g.fields) && OccursAt(t, Render(g.fields), s)
      && g.end == s + |Render(g.fields)| && RightGuard(t, g.end)
  {
    var g := GroupAt(t, s).value;
    RunsSound(t, s, GroupSeps);
    var ns := Runs(t, s, GroupSeps).value.numerals;
    assert ns == [g.fields.a, g.fields.b, g.fields.c, g.fields.d, g.fields.port];
    RenderInterleave(g.fields);
  }

  /** The converse: whenever group 1 can match at `s` with numerals `f`, the
      reader finds exactly `f`. */
  lemma {:induction false} GroupAtComplete(t: string, s: nat, f: Fields)
    requires s <= |t|
    requires WellFormed(f) && OccursAt(t, Render(f), s) && RightGuard(t, s + |Render(f)|)
    ensures GroupAt(t, s) == Some(Group(f, s + |Render(f)|))
  {
    WellFormedNumerals(f);
    FieldsRead(t, s, f);
    GroupOfRuns(t, s, f, s + |Render(f)|);
  }

  /** Group 1's numerals spelled out at `s`, with no digit after them, are
      read back as they are. */
  lemma {:induction false} FieldsRead(t: string, s: nat, f: Fields)
    requires s <= |t| && NumeralsOf(f)
    requires OccursAt(t, Render(f), s) && RightGuard(t, s + |Render(f)|)
    ensures Runs(t, s, GroupSeps) == Some(Read([f.a, f.b, f.c, f.d, f.port], s + |Render(f)|))
  {
    FieldsSpelled(t, s, f);
    RunsExact(t, s, [f.a, f.b, f.c, f.d, f.port], GroupSeps);
  }

  /** Group 1's numerals spelled out at `s`, with no digit after them, are
      laid out as `Spelled` says. */
  lemma {:induction false} FieldsSpelled(t: string, s: nat, f: Fields)
    requires NumeralsOf(f)
    requires OccursAt(t, Render(f), s) && RightGuard(t, s + |Render(f)|)
    ensures var ns := [f.a, f.b, f.c, f.d, f.port];
      Spelled(t, s, ns, GroupSeps) && |Interleave(ns, GroupSeps)| == |Render(f)|
  {
    var ns := [f.a, f.b, f.c, f.d, f.port];
    GroupSepsNoDigit();
    FieldRuns(f);
    RenderInterleave(f);
    SpelledOf(t, s, ns, GroupSeps);
  }

  /** What `Runs` reads from runs laid out as `Spelled` says: the runs, up to
      the end of the last. */
  lemma {:induction false} RunsExact(t: string, i: nat, ns: seq<string>, seps: string)
    requires i <= |t| && |ns| == |seps| + 1 && Spelled(t, i, ns, seps)
    ensures Runs(t, i, seps) == Some(Read(ns, i + |Interleave(ns, seps)|))
  {
    RunsComplete(t, i, ns, seps);
    RunsSound(t, i, seps);
  }

  lemma {:induction false} GroupSepsNoDigit()
    ensures NoDigit(GroupSeps)
  {
    assert GroupSeps == ['.', '.', '.', ':'];
  }

  lemma {:induction false} FieldRuns(f: Fields)
    requires NumeralsOf(f)
    ensures DigitRuns([f.a, f.b, f.c, f.d, f.port])
  {
    assert DigitRuns([f.port]) by { assert [f.port][1..] == []; }
    assert DigitRuns([f.d, f.port]) by { assert [f.d, f.port][1..] == [f.port]; }
    assert DigitRuns([f.c, f.d, f.port]) by { assert [f.c, f.d, f.port][1..] == [f.d, f.port]; }
    assert DigitRuns([f.b, f.c, f.d, f.port]) by { assert [f.b, f.c, f.d, f.port][1..] == [f.c, f.d, f.port]; }
    assert [f.a, f.b, f.c, f.d, f.port][1..] == [f.b, f.c, f.d, f.port];
  }

  /** Well-formed runs read at `s` are group 1. */
  lemma {:induction false} GroupOfRuns(t: string, s: nat, f: Fields, e: nat)
    requires s <= |t| && WellFormed(f)
    requires Runs(t, s, GroupSeps) == Some(Read([f.a, f.b, f.c, f.d, f.port], e))
    ensures GroupAt(t, s) == Some(Group(f, e))
  {
  }

  // ---------------------------------------------------------------------
  // Whole matches and finditer
  // ---------------------------------------------------------------------

  /** One match object: where the whole match starts and ends, where group 1
      starts, and group 1's numerals. */
  datatype Match = Match(start: nat, group: nat, fields: Fields, groupEnd: nat, end: nat)

  /** The whole match that starts at search position `q`, trying `^` before
      `\D`. With `consume` the trailing guard `(?:\D|$)` eats the non-digit
      after group 1, as written in the source; without it the guard is the
      look-ahead `(?=\D|$)`. */
  function MatchAt(t: string, q: nat, consume: bool): (r: Option<Match>)
    requires q <= |t|
    ensures r.Some? ==> r.value.start == q < r.value.end <= |t|
  {
    if q == 0 && GroupAt(t, 0).Some? then Some(Close(t, 0, 0, GroupAt(t, 0).value, consume))
    else if q < |t| && !IsDigit(t[q]) && GroupAt(t, q + 1).Some? then
      Some(Close(t, q, q + 1, GroupAt(t, q + 1).value, consume))
    else None
  }

  function Close(t: string, start: nat, group: nat, g: Group, consume: bool): (m: Match)
    requires start <= group <= g.end <= |t|
  {
    Match(start, group, g.fields, g.end, if consume && g.end < |t| then g.end + 1 else g.end)
  }

  /** A matcher for a text of length `n`: a match tried at `q` starts at `q`
      and ends after it, within the text. */
  predicate Advances(n: nat, at: nat -> Option<Match>)
  {
    forall q: nat :: q <= n && at(q).Some? ==> at(q).value.start == q < at(q).value.end <= n
  }

  /** `finditer` over any matcher: try at `p`; on a match, yield it and resume
      at its end; otherwise move one position on. */
  function ScanBy(n: nat, at: nat -> Option<Match>, p: nat): seq<Match>
    requires p <= n && Advances(n, at)
    decreases n - p
  {
    match at(p)
    case Some(m) => [m] + ScanBy(n, at, m.end)
    case None => if p == n then [] else ScanBy(n, at, p + 1)
  }

  /** The pattern's matcher on `t`. */
  function Matcher(t: string, consume: bool): (at: nat -> Option<Match>)
    ensures Advances(|t|, at)
    ensures forall q: nat :: q <= |t| ==> at(q) == MatchAt(t, q, consume)
  {
    (q: nat) => if q <= |t| then MatchAt(t, q, consume) else None
  }

  /** Every match, in order, that `re.finditer` yields when the search begins at `p`. */
  function Scan(t: string, p: nat, consume: bool): seq<Match>
    requires p <= |t|
  {
    ScanBy(|t|, Matcher(t, consume), p)
  }

  function Texts(ms: seq<Match>): (r: seq<string>)
    ensures |r| == |ms|
    ensures forall i :: 0 <= i < |ms| ==> r[i] == Render(ms[i].fields)
  {
    if ms == [] then [] else [Render(ms[0].fields)] + Texts(ms[1..])
  }

  /** `m.group(1)` for each match of `regex.finditer(text)`, the pattern as written. */
  function Finditer(t: string): seq<string>
  {
    Texts(Scan(t, 0, true))
  }

  /** The same with the trailing guard as a look-ahead, `(?=\D|$)`. */
  function FinditerLookahead(t: string): seq<string>
  {
    Texts(Scan(t, 0, false))
  }

  /** Group 1 of `m` is well-formed, spelled out where `m` says, with no
      digit after it, and `m` ends after the trailing guard. */
  predicate Shaped(t: string, m: Match, consume: bool)
  {
    && WellFormed(m.fields)
    && OccursAt(t, Render(m.fields), m.group)
    && m.groupEnd == m.group + |Render(m.fields)| && RightGuard(t, m.groupEnd)
    && m.end == (if consume && m.groupEnd < |t| then m.groupEnd + 1 else m.groupEnd)
  }

  /** The anatomy of one match: an optional leading guard (start of text, or
      one non-digit consumed), group 1 with well-formed numerals and no digit
      on either side, then the trailing guard, consumed or looked at. */
  lemma {:induction false} MatchAnatomy(t: string, q: nat, consume: bool)
    requires q <= |t| && MatchAt(t, q, consume).Some?
    ensures var m := MatchAt(t, q, consume).value;
      && ((m.group == q == 0) || (m.group == q + 1 && !IsDigit(t[q])))
      && WellFormed(m.fields)
      && OccursAt(t, Render(m.fields), m.group)
      && m.groupEnd == m.group + |Render(m.fields)| && RightGuard(t, m.groupEnd)
      && m.end == (if consume && m.groupEnd < |t| then m.groupEnd + 1 else m.groupEnd)
  {
    var m := MatchAt(t, q, consume).value;
    MatchAtCases(t, q, consume, m);
    MatchAnatomyOf(t, q, consume, m);
  }

  /** `MatchAnatomy` for a match `m` built as `MatchAtCases` says. */
  lemma {:induction false} MatchAnatomyOf(t: string, q: nat, consume: bool, m: Match)
    requires q <= |t|
    requires q == 0 && GroupAt(t, 0).Some? ==> m == Close(t, 0, 0, GroupAt(t, 0).value, consume)
    requires !(q == 0 && GroupAt(t, 0).Some?) ==>
      q < |t| && !IsDigit(t[q]) && GroupAt(t, q + 1).Some? && m == Close(t, q, q + 1, GroupAt(t, q + 1).value, consume)
    ensures (m.group == q == 0) || (m.group == q + 1 && !IsDigit(t[q]))
    ensures Shaped(t, m, consume)
  {
    var group := if q == 0 && GroupAt(t, 0).Some? then 0 else q + 1;
    AnatomyOf(t, q, group, GroupAt(t, group).value, consume, m);
  }

  /** The two ways a match at `q` arises: `^` at position 0, or a non-digit at `q`. */
  lemma {:induction false} MatchAtCases(t: string, q: nat, consume: bool, m: Match)
    requires q <= |t| && MatchAt(t, q, consume) == Some(m)
    ensures q == 0 && GroupAt(t, 0).Some? ==> m == Close(t, 0, 0, GroupAt(t, 0).value, consume)
    ensures !(q == 0 && GroupAt(t, 0).Some?) ==>
      q < |t| && !IsDigit(t[q]) && GroupAt(t, q + 1).Some? && m == Close(t, q, q + 1, GroupAt(t, q + 1).value, consume)
  {
  }

  /** `CloseAnatomy` for a match `m` already known to be the one `Close` builds. */
  lemma {:induction false} AnatomyOf(t: string, start: nat, group: nat, g: Group, consume: bool, m: Match)
    requires start <= group <= |t| && GroupAt(t, group) == Some(g)
    requires m == Close(t, start, group, g, consume)
    ensures m.start == start && m.group == group
    ensures Shaped(t, m, consume)
  {
    CloseAnatomy(t, start, group, consume);
  }

  /** The match `Close` builds from group 1 at `group` keeps its fields and its end. */
  lemma {:induction false} CloseAnatomy(t: string, start: nat, group: nat, consume: bool)
    requires start <= group <= |t| && GroupAt(t, group).Some?
    ensures var g := GroupAt(t, group).value;
      var m := Close(t, start, group, g, consume);
      && m.start == start && m.group == group
      && WellFormed(m.fields) && OccursAt(t, Render(m.fields), group)
      && m.groupEnd == group + |Render(m.fields)| && RightGuard(t, m.groupEnd)
      && m.end == (if consume && m.groupEnd < |t| then m.groupEnd + 1 else m.groupEnd)
  {
    GroupAtSound(t, group);
  }

  /** The i-th match `ScanBy` yields from `p` is a match at its own start,
      at or after `p`, and starts where or after the previous one ended. */
  lemma {:induction false} ScanByElement(n: nat, at: nat -> Option<Match>, p: nat, i: nat)
    requires p <= n && Advances(n, at) && i < |ScanBy(n, at, p)|
    ensures var ms := ScanBy(n, at, p);
      && p <= ms[i].start < ms[i].end <= n
      && at(ms[i].start) == Some(ms[i])
      && (i > 0 ==> ms[i - 1].end <= ms[i].start)
    decreases n - p
  {
    var ms := ScanBy(n, at, p);
    if at(p).Some? {
      var m := at(p).value;
      var rest := ScanBy(n, at, m.end);
      assert ms == [m] + rest;
      if i > 0 {
        ScanByElement(n, at, m.end, i - 1);
        assert ms[i] == rest[i - 1];
        if i > 1 {
          assert ms[i - 1] == rest[i - 2];
        }
      }
    } else {
      assert ms == ScanBy(n, at, p + 1);
      ScanByElement(n, at, p + 1, i);
    }
  }

  /** A position `q` at or after `p` where a match could start lies inside
      one of the matches `ScanBy` yields from `p`; `i` is that match. */
  lemma {:induction false} ScanByCovers(n: nat, at: nat -> Option<Match>, p: nat, q: nat) returns (i: nat)
    requires p <= q <= n && Advances(n, at) && at(q).Some?
    ensures i < |ScanBy(n, at, p)|
    ensures ScanBy(n, at, p)[i].start <= q < ScanBy(n, at, p)[i].end
    decreases n - p
  {
    var ms := ScanBy(n, at, p);
    if at(p).Some? {
      var m := at(p).value;
      var rest := ScanBy(n, at, m.end);
      assert ms == [m] + rest;
      if q < m.end {
        i := 0;
      } else {
        var j := ScanByCovers(n, at, m.end, q);
        assert ms[j + 1] == rest[j];
        i := j + 1;
      }
    } else {
      assert p < q;
      assert ms == ScanBy(n, at, p + 1);
      i := ScanByCovers(n, at, p + 1, q);
    }
  }

  /** `finditer` yields matches at their own starts, in order, without
      overlap: the search resumes at the previous match's end. */
  lemma {:induction false} ScanOrdered(t: string, p: nat, consume: bool)
    requires p <= |t|
    ensures var ms := Scan(t, p, consume);
      && (forall i :: 0 <= i < |ms| ==>
            p <= ms[i].start < ms[i].end <= |t| && MatchAt(t, ms[i].start, consume) == Some(ms[i]))
      && (forall i :: 0 < i < |ms| ==> ms[i - 1].end <= ms[i].start)
  {
    var ms := Scan(t, p, consume);
    forall i | 0 <= i < |ms|
      ensures p <= ms[i].start < ms[i].end <= |t| && MatchAt(t, ms[i].start, consume) == Some(ms[i])
      ensures i > 0 ==> ms[i - 1].end <= ms[i].start
    {
      ScanByElement(|t|, Matcher(t, consume), p, i);
    }
  }

  /** No position where a match could start is passed over by `finditer`,
      except those inside an earlier match. */
  lemma {:induction false} ScanLeftmost(t: string, p: nat, consume: bool)
    requires p <= |t|
    ensures var ms := Scan(t, p, consume);
      forall q :: p <= q <= |t| && MatchAt(t, q, consume).Some? ==>
        exists i :: 0 <= i < |ms| && ms[i].start <= q < ms[i].end
  {
    var ms := Scan(t, p, consume);
    forall q | p <= q <= |t| && MatchAt(t, q, consume).Some?
      ensures exists i :: 0 <= i < |ms| && ms[i].start <= q < ms[i].end
    {
      var i := ScanByCovers(|t|, Matcher(t, consume), p, q);
      assert ms[i].start <= q < ms[i].end;
    }
  }

  /** Group 1 of `m` is a canonical endpoint standing alone in `t`: the
      first octet is a decimal 1..255, the others 0..255, the port 0..65535,
      none with a leading zero, and the group is neither preceded nor
      followed by a digit. */
  predicate Canonical(t: string, m: Match)
  {
    && Decimal(m.fields.a, 1, 255) && Decimal(m.fields.b, 0, 255)
    && Decimal(m.fields.c, 0, 255) && Decimal(m.fields.d, 0, 255)
    && Decimal(m.fields.port, 0, 65535)
    && OccursAt(t, Render(m.fields), m.group)
    && (m.group == 0 || (m.group <= |t| && !IsDigit(t[m.group - 1])))
    && RightGuard(t, m.groupEnd)
  }

  lemma {:induction false} MatchCanonical(t: string, q: nat, consume: bool)
    requires q <= |t| && MatchAt(t, q, consume).Some?
    ensures Canonical(t, MatchAt(t, q, consume).value)
  {
    var m := MatchAt(t, q, consume).value;
    MatchAnatomy(t, q, consume);
    FirstOctetFormIsDecimal(m.fields.a);
    OctetFormIsDecimal(m.fields.b);
    OctetFormIsDecimal(m.fields.c);
    OctetFormIsDecimal(m.fields.d);
    PortFormIsDecimal(m.fields.port);
  }

  /** Every group the pattern finds is a canonical endpoint. Holds for the
      pattern as written and for the look-ahead form. */
  lemma {:induction false} ScannedGroupsCanonical(t: string, consume: bool)
    ensures var ms := Scan(t, 0, consume);
      forall i :: 0 <= i < |ms| ==> Canonical(t, ms[i])
  {
    var ms := Scan(t, 0, consume);
    forall i | 0 <= i < |ms|
      ensures Canonical(t, ms[i])
    {
      ScanByElement(|t|, Matcher(t, consume), 0, i);
      MatchCanonical(t, ms[i].start, consume);
    }
  }

  // ---------------------------------------------------------------------
  // Newline-separated lists: the pattern as written against the look-ahead
  // ---------------------------------------------------------------------

  function Renders(fs: seq<Fields>): (rs: seq<string>)
    ensures |rs| == |fs|
  {
    if fs == [] then [] else [Render(fs[0])] + Renders(fs[1..])
  }

  /** Group 1 spans at least nine characters, `d.d.d.d:d`. */
  lemma {:induction false} RenderLength(f: Fields)
    requires WellFormed(f)
    ensures |Render(f)| >= 9
  {
    WellFormedNumerals(f);
  }

  /** A scan over a stretch where no match can start yields nothing. */
  lemma {:induction false} ScanByNone(n: nat, at: nat -> Option<Match>, p: nat)
    requires p <= n && Advances(n, at)
    requires forall q: nat :: p <= q <= n ==> at(q).None?
    ensures ScanBy(n, at, p) == []
    decreases n - p
  {
    if p < n {
      ScanByNone(n, at, p + 1);
    }
  }

  lemma {:induction false} TextsCons(m: Match, rest: seq<Match>)
    ensures Texts([m] + rest) == [Render(m.fields)] + Texts(rest)
  {
    assert ([m] + rest)[1..] == rest;
  }

  /** The search from the end of a non-empty text finds nothing. */
  lemma {:induction false} ScanAtEnd(t: string, consume: bool)
    requires |t| > 0
    ensures Scan(t, |t|, consume) == []
  {
    assert MatchAt(t, |t|, consume).None?;
    assert Matcher(t, consume)(|t|).None?;
  }

  /** `MatchAtGuard` for a known group 1. */
  lemma {:induction false} MatchAtGuardOf(t: string, q: nat, g: Group, consume: bool)
    requires 0 < q < |t| && !IsDigit(t[q]) && GroupAt(t, q + 1) == Some(g)
    ensures g.end <= |t|
    ensures MatchAt(t, q, consume) == Some(Match(q, q + 1, g.fields, g.end, if consume && g.end < |t| then g.end + 1 else g.end))
  {
  }

  /** After position 0, a match needs the leading non-digit and group 1 right after it. */
  lemma {:induction false} MatchAtGuard(t: string, q: nat, consume: bool)
    requires 0 < q < |t| && !IsDigit(t[q]) && GroupAt(t, q + 1).Some?
    ensures MatchAt(t, q, consume) == Some(Close(t, q, q + 1, GroupAt(t, q + 1).value, consume))
  {
  }

  /** `Join` of a list with at least two entries splits off its head. */
  lemma {:induction false} JoinCons(rs: seq<string>, sep: string)
    requires |rs| >= 2
    ensures Join(rs, sep) == rs[0] + sep + Join(rs[1..], sep)
  {
  }

  lemma {:induction false} RendersCons(fs: seq<Fields>)
    requires |fs| > 0
    ensures Renders(fs) == [Render(fs[0])] + Renders(fs[1..])
  {
  }

  /** One step of `finditer`: the match at `p`, then the search from its end. */
  lemma {:induction false} ScanStep(t: string, p: nat, consume: bool)
    requires p <= |t| && MatchAt(t, p, consume).Some?
    ensures var m := MatchAt(t, p, consume).value;
      Scan(t, p, consume) == [m] + Scan(t, m.end, consume)
  {
    assert Matcher(t, consume)(p) == MatchAt(t, p, consume);
  }

  /** A newline-separated list laid out from `o` to the end of `t` begins with
      its first entry, followed, when there is a second, by a newline and the
      rest of the list. */
  lemma {:induction false} ListAt(t: string, o: nat, fs: seq<Fields>)
    requires |fs| > 0
    requires OccursAt(t, Join(Renders(fs), "\n"), o) && o + |Join(Renders(fs), "\n")| == |t|
    ensures var r := Render(fs[0]);
      && OccursAt(t, r, o)
      && (|fs| == 1 ==> o + |r| == |t|)
      && (|fs| > 1 ==>
            && o + |r| < |t| && t[o + |r|] == '\n'
            && OccursAt(t, Join(Renders(fs[1..]), "\n"), o + |r| + 1)
            && o + |r| + 1 + |Join(Renders(fs[1..]), "\n")| == |t|)
  {
    var r := Render(fs[0]);
    var rs := Renders(fs);
    RendersCons(fs);
    if |fs| == 1 {
      assert Join(rs, "\n") == r;
    } else {
      var tailText := Join(rs[1..], "\n");
      JoinCons(rs, "\n");
      assert Join(rs, "\n") == r + ['\n'] + tailText;
      OccursSplit(t, r, '\n', tailText, o);
    }
  }

  /** Every entry of the list is well-formed. */
  predicate AllWellFormed(fs: seq<Fields>)
  {
    fs == [] || (WellFormed(fs[0]) && AllWellFormed(fs[1..]))
  }

  /** With the look-ahead guard, group 1 `f` right after the non-digit at
      `p` is the first text found from `p`, and the search goes on where it
      ends. */
  lemma {:induction false} ScanHead(t: string, p: nat, f: Fields, e: nat)
    requires 0 < p < |t| && !IsDigit(t[p]) && WellFormed(f)
    requires e == p + 1 + |Render(f)| && OccursAt(t, Render(f), p + 1) && RightGuard(t, e)
    ensures e <= |t| && Texts(Scan(t, p, false)) == [Render(f)] + Texts(Scan(t, e, false))
  {
    GroupAtComplete(t, p + 1, f);
    ScanHeadOf(t, p, f, e);
  }

  /** `ScanHead` once group 1 is known to be `f`, ending at `e`. */
  lemma {:induction false} ScanHeadOf(t: string, p: nat, f: Fields, e: nat)
    requires 0 < p < |t| && !IsDigit(t[p]) && GroupAt(t, p + 1) == Some(Group(f, e))
    ensures e <= |t| && Texts(Scan(t, p, false)) == [Render(f)] + Texts(Scan(t, e, false))
  {
    MatchAtGuardOf(t, p, Group(f, e), false);
    ScanStep(t, p, false);
    TextsCons(MatchAt(t, p, false).value, Scan(t, e, false));
  }

  /** With the look-ahead guard, each entry of a newline-separated list that
      follows the non-digit at `p` is found, in order. */
  lemma {:induction false} ScanLines(t: string, p: nat, fs: seq<Fields>)
    requires 0 < p < |t| && !IsDigit(t[p]) && |fs| > 0
    requires AllWellFormed(fs)
    requires OccursAt(t, Join(Renders(fs), "\n"), p + 1) && p + 1 + |Join(Renders(fs), "\n")| == |t|
    ensures Texts(Scan(t, p, false)) == Renders(fs)
    decreases |fs|
  {
    var f := fs[0];
    var e := p + 1 + |Render(f)|;
    ListAt(t, p + 1, fs);
    RendersCons(fs);
    ScanHead(t, p, f, e);
    if |fs| == 1 {
      ScanAtEnd(t, false);
    } else {
      ScanLines(t, e, fs[1..]);
    }
  }

  /** The match at the start of a text that begins with group 1 `f`. */
  lemma {:induction false} MatchAtStart(t: string, f: Fields, consume: bool)
    requires WellFormed(f) && OccursAt(t, Render(f), 0) && RightGuard(t, |Render(f)|)
    ensures var e := |Render(f)|;
      MatchAt(t, 0, consume) == Some(Match(0, 0, f, e, if consume && e < |t| then e + 1 else e))
  {
    GroupAtComplete(t, 0, f);
    MatchAtZero(t, Group(f, |Render(f)|), consume);
  }

  /** At position 0 the `^` branch is taken whenever group 1 starts there. */
  lemma {:induction false} MatchAtZero(t: string, g: Group, consume: bool)
    requires GroupAt(t, 0) == Some(g)
    ensures g.end <= |t|
    ensures MatchAt(t, 0, consume) == Some(Match(0, 0, g.fields, g.end, if consume && g.end < |t| then g.end + 1 else g.end))
  {
  }

  /** With the look-ahead guard, the pattern reads back every entry of a
      newline-separated list of endpoints, in order. */
  lemma {:induction false} LookaheadReadsList(fs: seq<Fields>)
    requires |fs| > 0 && AllWellFormed(fs)
    ensures FinditerLookahead(Join(Renders(fs), "\n")) == Renders(fs)
  {
    var t := Join(Renders(fs), "\n");
    var f := fs[0];
    var e := |Render(f)|;
    assert t[0..|t|] == t;
    ListAt(t, 0, fs);
    RendersCons(fs);
    ListHead(t, f, e);
    if |fs| == 1 {
      RenderLength(f);
      ScanAtEnd(t, false);
    } else {
      ScanLines(t, e, fs[1..]);
    }
  }

  /** With the look-ahead guard, a text that begins with group 1 `f` yields
      `f` first and goes on searching where `f` ends. */
  lemma {:induction false} ListHead(t: string, f: Fields, e: nat)
    requires WellFormed(f) && e == |Render(f)| && e <= |t|
    requires OccursAt(t, Render(f), 0) && (e == |t| || t[e] == '\n')
    ensures Texts(Scan(t, 0, false)) == [Render(f)] + Texts(Scan(t, e, false))
  {
    MatchAtStart(t, f, false);
    ScanStep(t, 0, false);
    TextsCons(MatchAt(t, 0, false).value, Scan(t, e, false));
  }

  /** No match starts after position 0 fewer than ten characters before the
      end: the guard and group 1 need at least that many. */
  lemma {:induction false} NoMatchNearEnd(t: string, q: nat, consume: bool)
    requires 0 < q <= |t| < q + 10
    ensures MatchAt(t, q, consume).None?
  {
    if q < |t| && !IsDigit(t[q]) && GroupAt(t, q + 1).Some? {
      GroupAtSound(t, q + 1);
      RenderLength(GroupAt(t, q + 1).value.fields);
    }
  }

  /** Number of characters of `s` that are not ASCII digits. */
  function NonDigits(s: string): nat
  {
    if s == [] then 0 else (if IsDigit(s[0]) then 0 else 1) + NonDigits(s[1..])
  }

  lemma {:induction false} NonDigitsConcat(a: string, b: string)
    ensures NonDigits(a + b) == NonDigits(a) + NonDigits(b)
  {
    if a != [] {
      assert (a + b)[0] == a[0];
      assert (a + b)[1..] == a[1..] + b;
      NonDigitsConcat(a[1..], b);
    } else {
      assert a + b == b;
    }
  }

  lemma {:induction false} NonDigitsOfDigits(s: string)
    requires AllDigits(s)
    ensures NonDigits(s) == 0
  {
    if s != [] {
      NonDigitsOfDigits(s[1..]);
    }
  }

  /** Group 1 holds exactly four non-digits: three dots and a colon. */
  lemma {:induction false} NonDigitsRender(f: Fields)
    requires NumeralsOf(f)
    ensures NonDigits(Render(f)) == 4
  {
    NonDigitsOfDigits(f.a);
    NonDigitsOfDigits(f.b);
    NonDigitsOfDigits(f.c);
    NonDigitsOfDigits(f.d);
    NonDigitsOfDigits(f.port);
    var last := f.d + ":" + f.port;
    NonDigitsConcat(f.d + ":", f.port);
    NonDigitsConcat(f.d, ":");
    var third := f.c + "." + last;
    NonDigitsConcat(f.c + ".", last);
    NonDigitsConcat(f.c, ".");
    var second := f.b + "." + third;
    NonDigitsConcat(f.b + ".", third);
    NonDigitsConcat(f.b, ".");
    NonDigitsConcat(f.a + ".", second);
    NonDigitsConcat(f.a, ".");
  }

  /** Past a non-digit of `r`, fewer non-digits remain than `r` holds. */
  lemma {:induction false} NonDigitsAfter(r: string, k: nat, j: nat)
    requires k < |r| && !IsDigit(r[k]) && k + 1 <= j <= |r|
    ensures NonDigits(r[k + 1..j]) < NonDigits(r)
  {
    assert r == r[..k] + [r[k]] + r[k + 1..j] + r[j..];
    NonDigitsConcat(r[..k] + [r[k]] + r[k + 1..j], r[j..]);
    NonDigitsConcat(r[..k] + [r[k]], r[k + 1..j]);
    NonDigitsConcat(r[..k], [r[k]]);
    assert NonDigits([r[k]]) == 1;
  }

  /** After position 0, no match starts at the end, at a digit, or at a
      non-digit not followed by group 1. */
  lemma {:induction false} MatchAtNone(t: string, q: nat, consume: bool)
    requires 0 < q <= |t|
    requires q == |t| || IsDigit(t[q]) || GroupAt(t, q + 1).None?
    ensures MatchAt(t, q, consume).None?
  {
  }

  /** A stretch that starts right after a non-digit of the suffix `r2` has
      fewer non-digits than `r2`. */
  lemma {:induction false} FewerNonDigitsAfter(t: string, o: nat, q: nat, w: string)
    requires o <= q < |t| && !IsDigit(t[q]) && OccursAt(t, w, q + 1)
    ensures NonDigits(w) < NonDigits(t[o..])
  {
    var r2 := t[o..];
    var k := q - o;
    var j := k + 1 + |w|;
    assert r2[k] == t[q];
    assert w == r2[k + 1..j];
    NonDigitsAfter(r2, k, j);
  }

  /** Group 1 holds four non-digits, so it cannot start after a non-digit of a
      suffix that holds only four. */
  lemma {:induction false} NoGroupAfter(t: string, o: nat, q: nat)
    requires o <= q < |t| && !IsDigit(t[q]) && NonDigits(t[o..]) <= 4
    ensures GroupAt(t, q + 1).None?
  {
    if GroupAt(t, q + 1).Some? {
      var f := GroupFields(t, q + 1);
      NoEndpointAfter(t, o, q, f);
    }
  }

  /** The numerals group 1 finds at `s`, spelled out there. */
  lemma {:induction false} GroupFields(t: string, s: nat) returns (f: Fields)
    requires s <= |t| && GroupAt(t, s).Some?
    ensures WellFormed(f) && OccursAt(t, Render(f), s)
  {
    GroupAtSound(t, s);
    f := GroupAt(t, s).value.fields;
  }

  lemma {:induction false} NoEndpointAfter(t: string, o: nat, q: nat, f: Fields)
    requires o <= q < |t| && !IsDigit(t[q]) && NonDigits(t[o..]) <= 4 && WellFormed(f)
    ensures !OccursAt(t, Render(f), q + 1)
  {
    WellFormedNumerals(f);
    if OccursAt(t, Render(f), q + 1) {
      NonDigitsRender(f);
      FewerNonDigitsAfter(t, o, q, Render(f));
    }
  }

  /** In `r1` `\n` `r2`, no match starts inside `r2` once the search is past
      the newline: right after it comes a digit, and past any later
      non-digit fewer than four separators remain. */
  lemma {:induction false} NoMatchInSecond(r1: string, f2: Fields, q: nat, consume: bool)
    requires WellFormed(f2)
    requires var t := r1 + "\n" + Render(f2); |r1| + 1 <= q <= |t|
    ensures MatchAt(r1 + "\n" + Render(f2), q, consume).None?
  {
    var r2 := Render(f2);
    var t := r1 + "\n" + r2;
    var o := |r1| + 1;
    assert t[o..] == r2;
    WellFormedNumerals(f2);
    if q < |t| && !IsDigit(t[q]) {
      assert q != o by { assert t[o] == f2.a[0]; }
      NonDigitsRender(f2);
      NoGroupAfter(t, o, q);
    }
    MatchAtNone(t, q, consume);
  }

  /** As written, the trailing guard eats the newline, so the first digit of
      the next line cannot be preceded by the leading guard: of a two-line
      list, only the first entry is found, whatever the entries. */
  lemma {:induction false} AsWrittenDropsSecondLine(f1: Fields, f2: Fields)
    requires WellFormed(f1) && WellFormed(f2)
    ensures Finditer(Render(f1) + "\n" + Render(f2)) == [Render(f1)]
  {
    var r1 := Render(f1);
    var t := r1 + "\n" + Render(f2);
    SecondLineSkipped(r1, f2, t);
    FirstLineOnly(f1, r1, t);
  }

  /** A text that begins with group 1 and a newline, and in which nothing
      is found past the newline, yields group 1 alone. */
  lemma {:induction false} FirstLineOnly(f1: Fields, r1: string, t: string)
    requires WellFormed(f1) && r1 == Render(f1)
    requires |t| > |r1| && t[..|r1|] == r1 && t[|r1|] == '\n'
    requires Scan(t, |r1| + 1, true) == []
    ensures Finditer(t) == [r1]
  {
    FirstLineMatch(f1, r1, t);
    OnlyMatch(t, Match(0, 0, f1, |r1|, |r1| + 1), |r1| + 1);
  }

  /** A text whose search finds `m` at the start and nothing after it. */
  lemma {:induction false} OnlyMatch(t: string, m: Match, e: nat)
    requires MatchAt(t, 0, true) == Some(m) && m.end == e && e <= |t| && Scan(t, e, true) == []
    ensures Finditer(t) == [Render(m.fields)]
  {
    ScanStep(t, 0, true);
    TextsCons(m, []);
  }

  /** As written, the match at the start of the list ends past the newline. */
  lemma {:induction false} FirstLineMatch(f1: Fields, r1: string, t: string)
    requires WellFormed(f1) && r1 == Render(f1)
    requires |t| > |r1| && t[..|r1|] == r1 && t[|r1|] == '\n'
    ensures MatchAt(t, 0, true) == Some(Match(0, 0, f1, |r1|, |r1| + 1))
  {
    assert t[0..|r1|] == r1;
    MatchAtStart(t, f1, true);
  }

  /** The search that resumes past the newline finds nothing. */
  lemma {:induction false} SecondLineSkipped(r1: string, f2: Fields, t: string)
    requires WellFormed(f2) && t == r1 + "\n" + Render(f2)
    ensures Scan(t, |r1| + 1, true) == []
  {
    forall q: nat | |r1| + 1 <= q <= |t|
      ensures Matcher(t, true)(q).None?
    {
      NoMatchInSecond(r1, f2, q, true);
    }
    ScanByNone(|t|, Matcher(t, true), |r1| + 1);
  }

  /** The input that shows it. */
  lemma {:induction false} AsWrittenSkipsSecondLine()
    ensures Finditer("1.1.1.1:80\n2.2.2.2:80") == ["1.1.1.1:80"]
  {
    var f1 := Fields("1", "1", "1", "1", "80");
    var f2 := Fields("2", "2", "2", "2", "80");
    assert Render(f1) == "1.1.1.1:80" && Render(f2) == "2.2.2.2:80";
    assert WellFormed(f1) && WellFormed(f2);
    assert Render(f1) + "\n" + Render(f2) == "1.1.1.1:80\n2.2.2.2:80";
    AsWrittenDropsSecondLine(f1, f2);
  }

  /** The look-ahead form reads both lines of the same text. */
  lemma {:induction false} LookaheadReadsBothLines()
    ensures FinditerLookahead("1.1.1.1:80\n2.2.2.2:80") == ["1.1.1.1:80", "2.2.2.2:80"]
  {
    var f1 := Fields("1", "1", "1", "1", "80");
    var f2 := Fields("2", "2", "2", "2", "80");
    assert Render(f1) == "1.1.1.1:80" && Render(f2) == "2.2.2.2:80";
    assert WellFormed(f1) && WellFormed(f2);
    var fs := [f1, f2];
    assert Renders(fs) == ["1.1.1.1:80", "2.2.2.2:80"];
    assert Join(Renders(fs), "\n") == "1.1.1.1:80\n2.2.2.2:80";
    LookaheadReadsList(fs);
  }
}
