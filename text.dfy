/** The Python string operations the core relies on, stated over `string`
    (a sequence of characters): substring tests, `rstrip("\n")`, `strip()`,
    `str.isalnum`, `int(str)`, `str(int)` and POSIX `os.path.join`. */
module Text {
  import opened Exceptions

  /** `s.startswith(p)` */
  predicate StartsWith(s: string, p: string) {
    |p| <= |s| && s[..|p|] == p
  }

  /** `s.endswith(p)` */
  predicate EndsWith(s: string, p: string) {
    |p| <= |s| && s[|s| - |p|..] == p
  }

  /** `sub in s`: a case-sensitive substring test. */
  predicate Contains(s: string, sub: string)
    decreases |s|
  {
    StartsWith(s, sub) || (s != [] && Contains(s[1..], sub))
  }

  /** `sub` occurs in `s` at position `i`. */
  predicate OccursAt(s: string, sub: string, i: nat) {
    i + |sub| <= |s| && s[i..i + |sub|] == sub
  }

  lemma {:induction false} ContainsAt(s: string, sub: string, i: nat)
    requires OccursAt(s, sub, i)
    ensures Contains(s, sub)
    decreases i
  {
    if i > 0 {
      assert s[1..][i - 1..i - 1 + |sub|] == s[i..i + |sub|];
      ContainsAt(s[1..], sub, i - 1);
    }
  }

  lemma {:induction false} ContainsWitness(s: string, sub: string) returns (i: nat)
    requires Contains(s, sub)
    ensures OccursAt(s, sub, i)
    decreases |s|
  {
    if StartsWith(s, sub) {
      i := 0;
    } else {
      var j := ContainsWitness(s[1..], sub);
      assert s[j + 1..j + 1 + |sub|] == s[1..][j..j + |sub|];
      i := j + 1;
    }
  }

  /** `Contains` means exactly "occurs at some position". */
  lemma ContainsIff(s: string, sub: string)
    ensures Contains(s, sub) <==> exists i: nat :: OccursAt(s, sub, i)
  {
    if Contains(s, sub) {
      var i := ContainsWitness(s, sub);
    }
    if exists i: nat :: OccursAt(s, sub, i) {
      var i: nat :| OccursAt(s, sub, i);
      ContainsAt(s, sub, i);
    }
  }

  /** `s.rstrip("\n")`: every trailing newline removed. */
  function RStripNewlines(s: string): (r: string)
    ensures r == [] || r[|r| - 1] != '\n'
    ensures r <= s && forall i :: |r| <= i < |s| ==> s[i] == '\n'
    decreases |s|
  {
    if s != [] && s[|s| - 1] == '\n' then RStripNewlines(s[..|s| - 1]) else s
  }

  /** The ASCII characters Python's `str.strip()` and `int()` treat as
      whitespace: space, tab, the line and form feeds, carriage return and
      the four separators 0x1c to 0x1f. */
  predicate IsSpace(c: char) {
    c == ' ' || c == '\t' || c == '\n' || c == '\r' || c as int == 11 || c as int == 12 || 28 <= c as int <= 31
  }

  function LStripSpaces(s: string): (r: string)
    ensures r == [] || !IsSpace(r[0])
    ensures |r| <= |s| && (r != [] ==> r[|r| - 1] == s[|s| - 1])
    decreases |s|
  {
    if s != [] && IsSpace(s[0]) then LStripSpaces(s[1..]) else s
  }

  function RStripSpaces(s: string): (r: string)
    ensures r == [] || !IsSpace(r[|r| - 1])
    ensures r <= s
    decreases |s|
  {
    if s != [] && IsSpace(s[|s| - 1]) then RStripSpaces(s[..|s| - 1]) else s
  }

  /** `s.strip()` for ASCII whitespace. */
  function StripSpaces(s: string): (r: string)
    ensures r == [] || (!IsSpace(r[0]) && !IsSpace(r[|r| - 1]))
  {
    LStripSpaces(RStripSpaces(s))
  }

  /** `lstrip()` removes a run of leading whitespace and nothing else. */
  lemma {:induction false} LStripSpacesDrops(s: string) returns (p: nat)
    ensures p <= |s| && LStripSpaces(s) == s[p..]
    ensures forall i :: 0 <= i < p ==> IsSpace(s[i])
    decreases |s|
  {
    if s != [] && IsSpace(s[0]) {
      var p' := LStripSpacesDrops(s[1..]);
      p := p' + 1;
      assert s[1..][p'..] == s[p..];
      forall i | 0 <= i < p ensures IsSpace(s[i]) {
        if i > 0 { assert s[i] == s[1..][i - 1]; }
      }
    } else {
      p := 0;
    }
  }

  /** `rstrip()` removes a run of trailing whitespace and nothing else. */
  lemma {:induction false} RStripSpacesTakes(s: string) returns (q: nat)
    ensures q <= |s| && RStripSpaces(s) == s[..q]
    ensures forall i :: q <= i < |s| ==> IsSpace(s[i])
    decreases |s|
  {
    if s != [] && IsSpace(s[|s| - 1]) {
      var t := s[..|s| - 1];
      q := RStripSpacesTakes(t);
      assert t[..q] == s[..q];
      forall i | q <= i < |s| ensures IsSpace(s[i]) {
        if i < |t| { assert s[i] == t[i]; }
      }
    } else {
      q := |s|;
    }
  }

  /** `s.strip()` is `s` with only whitespace taken off its two ends. */
  lemma StripSpacesTrims(s: string)
    ensures exists p, q :: 0 <= p <= q <= |s| && StripSpaces(s) == s[p..q] &&
              forall i :: 0 <= i < |s| && (i < p || q <= i) ==> IsSpace(s[i])
  {
    var q := RStripSpacesTakes(s);
    var t := s[..q];
    var p := LStripSpacesDrops(t);
    assert StripSpaces(s) == s[p..q] by {
      assert t[p..] == s[p..q];
    }
    forall i | 0 <= i < |s| && (i < p || q <= i) ensures IsSpace(s[i]) {
      if i < p { assert s[i] == t[i]; }
    }
  }

  predicate IsDigit(c: char) {
    '0' <= c <= '9'
  }

  /** `str.isalnum` restricted to ASCII letters and digits. */
  predicate IsAlnum(c: char) {
    IsDigit(c) || ('a' <= c <= 'z') || ('A' <= c <= 'Z')
  }

  function DigitValue(c: char): (d: nat)
    ensures d < 10
  {
    if IsDigit(c) then c as int - '0' as int else 0
  }

  function DigitChar(d: nat): (c: char)
    requires d < 10
    ensures IsDigit(c) && DigitValue(c) == d
  {
    ('0' as int + d) as char
  }

  /** The digit part Python's `int()` accepts after the sign: digits,
      optionally separated by single underscores. */
  predicate IsDigitGroup(b: string) {
    && |b| > 0
    && IsDigit(b[0])
    && IsDigit(b[|b| - 1])
    && (forall i :: 0 <= i < |b| ==> IsDigit(b[i]) || b[i] == '_')
    && (forall i :: 0 <= i < |b| - 1 ==> b[i] != '_' || b[i + 1] != '_')
  }

  /** The decimal value of the digits of `b`, underscores skipped. */
  function DecimalValue(b: string): nat
    decreases |b|
  {
    if b == [] then 0
    else if b[|b| - 1] == '_' then DecimalValue(b[..|b| - 1])
    else DecimalValue(b[..|b| - 1]) * 10 + DigitValue(b[|b| - 1])
  }

  /** `int(s)` on a string: surrounding whitespace ignored, an optional sign,
      then a digit group; anything else is a ValueError (here `None`). */
  function ParseInt(s: string): Option<int> {
    var t := StripSpaces(s);
    if t == [] then None
    else
      var body := if t[0] == '-' || t[0] == '+' then t[1..] else t;
      var magnitude: int := DecimalValue(body);
      if !IsDigitGroup(body) then None
      else if t[0] == '-' then Some(-magnitude)
      else Some(magnitude)
  }

  /** `int()` takes an optional sign. */
  lemma ParseIntSigned()
    ensures ParseInt("-7") == Some(-7) && ParseInt("+7") == Some(7)
  {
    assert ParseInt("-7") == Some(-7) by {
      assert StripSpaces("-7") == "-7";
      assert "-7"[1..] == "7";
      assert IsDigitGroup("7") && DecimalValue("7") == 7;
    }
    assert ParseInt("+7") == Some(7) by {
      assert StripSpaces("+7") == "+7";
      assert "+7"[1..] == "7";
      assert IsDigitGroup("7") && DecimalValue("7") == 7;
    }
  }

  /** `int()` ignores surrounding whitespace, a trailing newline included,
      and single underscores between digits. */
  lemma ParseIntUnderscores()
    ensures ParseInt(" 2_048\n") == Some(2048)
  {
    var t := " 2_048\n";
    assert RStripSpaces(t) == " 2_048" by {
      assert t[..6] == " 2_048";
      assert RStripSpaces(" 2_048") == " 2_048";
    }
    assert LStripSpaces(" 2_048") == "2_048" by {
      assert " 2_048"[1..] == "2_048";
    }
    assert IsDigitGroup("2_048");
    assert DecimalValue("2_048") == 2048 by {
      assert "2_048"[..4] == "2_04" && "2_04"[..3] == "2_0" && "2_0"[..2] == "2_" && "2_"[..1] == "2";
    }
  }

  /** The separators 0x1c to 0x1f count as whitespace for `int()`. */
  lemma ParseIntSeparators()
    ensures ParseInt([28 as char, '2', '0']) == Some(20)
  {
    var x := [28 as char, '2', '0'];
    assert RStripSpaces(x) == x;
    assert LStripSpaces(x) == "20" by { assert x[1..] == "20"; }
    assert DecimalValue("20") == 20 by { assert "20"[..1] == "2"; }
  }

  /** `int()` rejects doubled, leading and trailing underscores. */
  lemma ParseIntRejectsUnderscores()
    ensures ParseInt("2__0") == None && ParseInt("_2") == None && ParseInt("2_") == None
  {
    assert ParseInt("2__0") == None by {
      assert StripSpaces("2__0") == "2__0";
      assert "2__0"[1] == '_' && "2__0"[2] == '_';
    }
    assert ParseInt("_2") == None by { assert StripSpaces("_2") == "_2"; }
    assert ParseInt("2_") == None by { assert StripSpaces("2_") == "2_"; }
  }

  /** `int()` rejects an empty or blank text, a lone sign and a word. */
  lemma ParseIntRejectsBlank()
    ensures ParseInt("") == None && ParseInt(" ") == None && ParseInt("-") == None && ParseInt("true") == None
  {
    assert ParseInt(" ") == None by { assert RStripSpaces(" ") == "" by { assert " "[..0] == ""; } }
    assert ParseInt("-") == None by { assert StripSpaces("-") == "-"; assert "-"[1..] == ""; }
    assert ParseInt("true") == None by { assert StripSpaces("true") == "true"; }
  }

  /** `str(n)` for a natural number. */
  function NatToString(n: nat): (r: string)
    ensures |r| > 0 && forall i :: 0 <= i < |r| ==> IsDigit(r[i])
    decreases n
  {
    if n < 10 then [DigitChar(n)] else NatToString(n / 10) + [DigitChar(n % 10)]
  }

  /** `str(n)` for an integer. */
  function IntToString(n: int): (r: string)
    ensures |r| > 0 && (IsDigit(r[0]) || r[0] == '-')
    ensures forall i :: 0 < i < |r| ==> IsDigit(r[i])
  {
    if n < 0 then "-" + NatToString(-n) else NatToString(n)
  }

  lemma {:induction false} DecimalValueOfNatToString(n: nat)
    ensures DecimalValue(NatToString(n)) == n
    decreases n
  {
    if n >= 10 {
      var p := NatToString(n / 10);
      var s := p + [DigitChar(n % 10)];
      assert s[..|s| - 1] == p;
      DecimalValueOfNatToString(n / 10);
    }
  }

  lemma StripSpacesOfIntToString(n: int)
    ensures StripSpaces(IntToString(n)) == IntToString(n)
  {
    var s := IntToString(n);
    assert RStripSpaces(s) == s;
    assert LStripSpaces(s) == s;
  }

  lemma DigitGroupOfNatToString(n: nat)
    ensures IsDigitGroup(NatToString(n))
  {
  }

  /** `int(str(n)) == n`: the integer text the serialisers write reads back. */
  lemma ParseIntOfIntToString(n: int)
    ensures ParseInt(IntToString(n)) == Some(n)
  {
    var s := IntToString(n);
    StripSpacesOfIntToString(n);
    var m: nat := if n < 0 then -n else n;
    DigitGroupOfNatToString(m);
    DecimalValueOfNatToString(m);
    if n < 0 {
      assert s[1..] == NatToString(m);
    } else {
      assert s[0] != '-' && s[0] != '+';
    }
  }

  /** The text `str(n)` contains only digits and a leading minus sign. */
  lemma IntToStringChars(n: int)
    ensures forall i :: 0 <= i < |IntToString(n)| ==> IsDigit(IntToString(n)[i]) || IntToString(n)[i] == '-'
  {
  }

  /** Every ASCII letter and digit of `s`, in order. */
  function FilterAlnum(s: string): (r: string)
    ensures forall i :: 0 <= i < |r| ==> IsAlnum(r[i])
    ensures |r| <= |s|
  {
    if s == [] then [] else (if IsAlnum(s[0]) then [s[0]] else []) + FilterAlnum(s[1..])
  }

  /** Filtering works character by character: the filter of a concatenation
      is the concatenation of the filters. */
  lemma {:induction false} FilterAlnumConcat(a: string, b: string)
    ensures FilterAlnum(a + b) == FilterAlnum(a) + FilterAlnum(b)
    decreases |a|
  {
    if a == [] {
      assert a + b == b;
    } else {
      assert (a + b)[1..] == a[1..] + b;
      FilterAlnumConcat(a[1..], b);
    }
  }

  /** A text of letters and digits is kept whole. */
  lemma {:induction false} FilterAlnumKeeps(s: string)
    requires forall i :: 0 <= i < |s| ==> IsAlnum(s[i])
    ensures FilterAlnum(s) == s
    decreases |s|
  {
    if s != [] {
      FilterAlnumKeeps(s[1..]);
    }
  }

  /** One character is kept exactly when it is a letter or a digit. */
  lemma FilterAlnumChar(c: char)
    ensures FilterAlnum([c]) == if IsAlnum(c) then [c] else []
  {
    assert [c][1..] == [];
  }

  /** `s.replace(a, b)` for single characters. */
  function ReplaceChar(s: string, a: char, b: char): (r: string)
    ensures |r| == |s|
    ensures forall i :: 0 <= i < |s| ==> r[i] == if s[i] == a then b else s[i]
  {
    if s == [] then [] else [if s[0] == a then b else s[0]] + ReplaceChar(s[1..], a, b)
  }

  /** POSIX `os.path.join(a, b)` for two components. */
  function PathJoin(a: string, b: string): (r: string)
    ensures StartsWith(b, "/") ==> r == b
    ensures !StartsWith(b, "/") ==> EndsWith(r, b) && StartsWith(r, a)
  {
    if StartsWith(b, "/") then b
    else if a == [] || a[|a| - 1] == '/' then a + b
    else a + "/" + b
  }

  /** The exact joined text: `b` itself when it is absolute, otherwise `a`
      and `b` with one `/` between them unless `a` is empty or already ends
      with `/`. */
  lemma PathJoinExact(a: string, b: string)
    ensures StartsWith(b, "/") ==> PathJoin(a, b) == b
    ensures !StartsWith(b, "/") && (a == [] || EndsWith(a, "/")) ==> PathJoin(a, b) == a + b
    ensures !StartsWith(b, "/") && a != [] && !EndsWith(a, "/") ==> PathJoin(a, b) == a + "/" + b
  {
    if a != [] {
      assert EndsWith(a, "/") <==> a[|a| - 1] == '/' by {
        assert a[|a| - 1..] == [a[|a| - 1]];
      }
    }
  }

  /** `s.split(c)` for a one-character separator: the pieces between the
      separators, always at least one. */
  function Split(s: string, c: char): (parts: seq<string>)
    ensures |parts| >= 1
    ensures forall i :: 0 <= i < |parts| ==> c !in parts[i]
    decreases |s|
  {
    if s == [] then [""]
    else
      var rest := Split(s[1..], c);
      if s[0] == c then [""] + rest else [[s[0]] + rest[0]] + rest[1..]
  }

  lemma {:induction false} SplitNoSeparator(s: string, c: char)
    requires c !in s
    ensures Split(s, c) == [s]
    decreases |s|
  {
    if s != [] {
      SplitNoSeparator(s[1..], c);
      assert [s[0]] + s[1..] == s;
    }
  }

  lemma {:induction false} SplitPrefix(a: string, rest: string, c: char)
    requires c !in a
    ensures Split(a + rest, c) == [a + Split(rest, c)[0]] + Split(rest, c)[1..]
    decreases |a|
  {
    var sr := Split(rest, c);
    if a == [] {
      assert a + rest == rest;
      assert a + sr[0] == sr[0];
      assert sr == [sr[0]] + sr[1..];
    } else {
      assert (a + rest)[0] == a[0] && (a + rest)[1..] == a[1..] + rest;
      SplitPrefix(a[1..], rest, c);
      var r := Split(a[1..] + rest, c);
      assert r[0] == a[1..] + sr[0] && r[1..] == sr[1..];
      assert Split(a + rest, c) == [[a[0]] + r[0]] + r[1..];
      assert [a[0]] + (a[1..] + sr[0]) == a + sr[0];
    }
  }

  /** Splitting `a + c + b` with a single separator gives back `a` and `b`. */
  lemma SplitOnce(a: string, b: string, c: char)
    requires c !in a && c !in b
    ensures Split(a + [c] + b, c) == [a, b]
  {
    SplitNoSeparator(b, c);
    var cb := [c] + b;
    assert cb[0] == c && cb[1..] == b;
    assert Split(cb, c) == [""] + Split(b, c);
    assert a + [c] + b == a + cb;
    SplitPrefix(a, cb, c);
    assert a + "" == a;
  }

  /** `sep.join(xs)` */
  function Join(xs: seq<string>, sep: string): string
    decreases |xs|
  {
    if xs == [] then "" else if |xs| == 1 then xs[0] else xs[0] + sep + Join(xs[1..], sep)
  }

  /** Joining the parts of `s.split(c)` with `c` gives back `s`. */
  lemma {:induction false} SplitJoin(s: string, c: char)
    ensures Join(Split(s, c), [c]) == s
    decreases |s|
  {
    if s != [] {
      var rest := Split(s[1..], c);
      SplitJoin(s[1..], c);
      if s[0] == c {
        assert ([""] + rest)[1..] == rest;
        assert Join(Split(s, c), [c]) == "" + [c] + Join(rest, [c]);
        assert [s[0]] + s[1..] == s;
      } else if |rest| == 1 {
        assert Join(Split(s, c), [c]) == [s[0]] + rest[0];
        assert Join(rest, [c]) == rest[0];
        assert [s[0]] + s[1..] == s;
      } else {
        var parts := [[s[0]] + rest[0]] + rest[1..];
        assert parts[1..] == rest[1..];
        assert Join(parts, [c]) == [s[0]] + rest[0] + [c] + Join(rest[1..], [c]);
        assert Join(rest, [c]) == rest[0] + [c] + Join(rest[1..], [c]);
        assert [s[0]] + s[1..] == s;
      }
    }
  }

  /** Splitting parts joined with `c` gives them back, as long as no part
      contains `c`. */
  lemma {:induction false} JoinSplit(parts: seq<string>, c: char)
    requires |parts| >= 1 && forall i :: 0 <= i < |parts| ==> c !in parts[i]
    ensures Split(Join(parts, [c]), c) == parts
    decreases |parts|
  {
    if |parts| == 1 {
      SplitNoSeparator(parts[0], c);
    } else {
      var j := Join(parts[1..], [c]);
      JoinSplit(parts[1..], c);
      var cj := [c] + j;
      assert cj[0] == c && cj[1..] == j;
      assert Split(cj, c) == [""] + parts[1..];
      assert Join(parts, [c]) == parts[0] + cj;
      SplitPrefix(parts[0], cj, c);
      assert parts[0] + "" == parts[0];
      assert parts == [parts[0]] + parts[1..];
    }
  }
}
