/** Shared vocabulary: optional and failing results, the dynamic cell value
    of a record, and the handful of Python `str` operations the services
    rely on (`isspace`, `strip`, `split`, `join`, `lower`, `isdigit`,
    `replace`, `startswith`, `float()`). Strings are sequences of code points. */
module Base {

  datatype Option<T> = None | Some(value: T)

  /** A Python call that either returns a value or raises an exception. */
  datatype Result<T> = Ok(value: T) | Err(msg: string)

  /** A dynamically typed record value: Python `None`, a `str`, or a
      number (`int` and `float` alike; floats are modelled as reals). */
  datatype Value = VNone | VStr(s: string) | VNum(x: real)

  /** A record (a reservation, a form answer, a CSV row): column name to
      cell value. */
  type Record = map<string, Value>

  /** A row read from a sheet or a CSV export, where every cell is text:
      column name to cell text. */
  type Row = map<string, string>

  /** `row.get(k, "")`. */
  function Raw(row: Row, k: string): string {
    if k in row then row[k] else ""
  }

  /** `str(row.get(k, "")).strip()`. */
  function Cell(row: Row, k: string): string {
    Strip(Raw(row, k))
  }

  /** `record.get(key, default)`. */
  function GetOr(m: Record, k: string, default: Value): (r: Value)
    ensures k in m ==> r == m[k]
    ensures k !in m ==> r == default
  {
    if k in m then m[k] else default
  }

  /** `record.get(key)`: `None` for a missing key. */
  function Get(m: Record, k: string): Value {
    GetOr(m, k, VNone)
  }

  /** Python truthiness of a record value. */
  predicate Truthy(v: Value) {
    match v
    case VNone => false
    case VStr(s) => s != ""
    case VNum(x) => x != 0.0
  }

  // ---------------------------------------------------------------------
  // Characters

  /** Python `str.isspace` for a single code point. */
  predicate IsSpace(c: char) {
    c == ' ' || ('\t' <= c <= '\r') || ('\U{1c}' <= c <= '\U{1f}')
    || c == '\U{85}' || c == '\U{a0}' || c == '\U{1680}'
    || ('\U{2000}' <= c <= '\U{200a}') || c == '\U{2028}' || c == '\U{2029}'
    || c == '\U{202f}' || c == '\U{205f}' || c == '\U{3000}'
  }

  /** An ASCII decimal digit (the model reads only ASCII digits). */
  predicate IsDigit(c: char) {
    '0' <= c <= '9'
  }

  /** Python `str.isdigit` restricted to ASCII: non-empty and all digits. */
  predicate AllDigits(s: string) {
    |s| > 0 && forall i :: 0 <= i < |s| ==> IsDigit(s[i])
  }

  function DigitValue(c: char): nat
    requires IsDigit(c)
  {
    (c as int - '0' as int) as nat
  }

  function DigitChar(d: nat): char
    requires d < 10
  {
    (d + '0' as int) as char
  }

  /** ASCII lower-casing of one code point. */
  function LowerChar(c: char): char {
    if 'A' <= c <= 'Z' then (c as int + 32) as char else c
  }

  /** ASCII upper-casing of one code point. */
  function UpperChar(c: char): char {
    if 'a' <= c <= 'z' then (c as int - 32) as char else c
  }

  /** Python `str.upper` on the ASCII letters. */
  function Upper(s: string): (r: string)
    ensures |r| == |s|
    ensures forall i :: 0 <= i < |s| ==> r[i] == UpperChar(s[i])
  {
    if s == [] then [] else [UpperChar(s[0])] + Upper(s[1..])
  }

  /** Python `a < b` on texts: code-point lexicographic order. */
  predicate LexLess(a: string, b: string) {
    if a == [] then b != []
    else if b == [] then false
    else if a[0] != b[0] then a[0] < b[0]
    else LexLess(a[1..], b[1..])
  }

  /** No text is below itself. */
  lemma {:induction false} LexLessIrreflexive(a: string)
    ensures !LexLess(a, a)
  {
    if a != [] {
      LexLessIrreflexive(a[1..]);
    }
  }

  lemma {:induction false} LexLessTransitive(a: string, b: string, c: string)
    requires LexLess(a, b) && LexLess(b, c)
    ensures LexLess(a, c)
  {
    if a != [] && b != [] && c != [] && a[0] == b[0] && b[0] == c[0] {
      LexLessTransitive(a[1..], b[1..], c[1..]);
    }
  }

  /** Two different texts are ordered one way or the other. */
  lemma {:induction false} LexLessTotal(x: string, y: string)
    requires x != y
    ensures LexLess(x, y) || LexLess(y, x)
  {
    if x != [] && y != [] && x[0] == y[0] {
      assert x == [x[0]] + x[1..] && y == [y[0]] + y[1..];
      LexLessTotal(x[1..], y[1..]);
    }
  }

  /** Python `str.lower` on the ASCII letters. */
  function Lower(s: string): (r: string)
    ensures |r| == |s|
    ensures forall i :: 0 <= i < |s| ==> r[i] == LowerChar(s[i])
  {
    if s == [] then [] else [LowerChar(s[0])] + Lower(s[1..])
  }

  // ---------------------------------------------------------------------
  // Trimming

  /** Python `str.lstrip()`: drops the leading whitespace run. */
  function LStrip(s: string): (r: string)
    ensures |r| <= |s|
    ensures r == [] || !IsSpace(r[0])
    ensures forall i :: 0 <= i < |s| - |r| ==> IsSpace(s[i])
  {
    if s != [] && IsSpace(s[0]) then LStrip(s[1..]) else s
  }

  /** Python `str.rstrip()`: drops the trailing whitespace run. */
  function RStrip(s: string): (r: string)
    ensures |r| <= |s|
    ensures r == [] || !IsSpace(r[|r| - 1])
    ensures forall i :: |r| <= i < |s| ==> IsSpace(s[i])
  {
    if s != [] && IsSpace(s[|s| - 1]) then RStrip(s[..|s| - 1]) else s
  }

  /** `lstrip` keeps a suffix of the text. Stated apart from `LStrip`
      so that every trimmed cell does not bring the slice into a proof. */
  lemma {:induction false} LStripIsSuffix(s: string)
    ensures LStrip(s) == s[|s| - |LStrip(s)|..]
  {
    if s != [] && IsSpace(s[0]) {
      LStripIsSuffix(s[1..]);
    }
  }

  /** `rstrip` keeps a prefix of the text. */
  lemma {:induction false} RStripIsPrefix(s: string)
    ensures RStrip(s) == s[..|RStrip(s)|]
  {
    if s != [] && IsSpace(s[|s| - 1]) {
      RStripIsPrefix(s[..|s| - 1]);
    }
  }

  /** Python `str.strip()`. */
  function Strip(s: string): (r: string)
    ensures r == [] || (!IsSpace(r[0]) && !IsSpace(r[|r| - 1]))
    ensures |r| <= |s|
  {
    RStripIsPrefix(LStrip(s));
    RStrip(LStrip(s))
  }

  /** A text with no whitespace at either end. */
  predicate Trimmed(s: string) {
    s == [] || (!IsSpace(s[0]) && !IsSpace(s[|s| - 1]))
  }

  lemma StripTrimmed(s: string)
    ensures Trimmed(Strip(s))
  {
  }

  /** A text that is empty or all whitespace, that is `s.strip() == ""`. */
  predicate Blank(s: string) {
    forall i :: 0 <= i < |s| ==> IsSpace(s[i])
  }

  lemma StripEmptyIffBlank(s: string)
    ensures Strip(s) == [] <==> Blank(s)
  {
    LStripIsSuffix(s);
  }

  lemma StripOfStripped(s: string)
    requires s == [] || (!IsSpace(s[0]) && !IsSpace(s[|s| - 1]))
    ensures Strip(s) == s
  {
  }

  // ---------------------------------------------------------------------
  // Splitting and joining

  /** The leading run of non-whitespace characters. */
  function Word(s: string): (r: string)
    ensures |r| <= |s| && r == s[..|r|]
    ensures forall i :: 0 <= i < |r| ==> !IsSpace(r[i])
    ensures |r| == |s| || IsSpace(s[|r|])
  {
    if s == [] || IsSpace(s[0]) then [] else [s[0]] + Word(s[1..])
  }

  /** A word of Python's `str.split()`: non-empty and free of whitespace. */
  predicate IsWord(w: string) {
    w != [] && forall i :: 0 <= i < |w| ==> !IsSpace(w[i])
  }

  /** Python `str.split()` with no separator: the maximal whitespace-free
      runs, in order. */
  function Split(s: string): (r: seq<string>)
    ensures forall k :: 0 <= k < |r| ==> IsWord(r[k])
    decreases |s|
  {
    var t := LStrip(s);
    if t == [] then []
    else
      var w := Word(t);
      assert w != [] by { assert Word(t) == [t[0]] + Word(t[1..]); }
      var rest := t[|w|..];
      assert |rest| < |s|;
      var tail := Split(rest);
      assert forall k :: 0 <= k < |tail| ==> IsWord(tail[k]);
      [w] + tail
  }

  /** Python `sep.join(parts)`. */
  function Join(sep: string, parts: seq<string>): string {
    if parts == [] then []
    else if |parts| == 1 then parts[0]
    else parts[0] + sep + Join(sep, parts[1..])
  }

  /** Python `text.startswith(p)`. */
  predicate StartsWith(text: string, p: string) {
    |p| <= |text| && text[..|p|] == p
  }

  /** Python `str.replace(a, b)` for a one-character `a`. */
  function ReplaceChar(s: string, a: char, b: string): (r: string)
    ensures a !in b ==> a !in r
  {
    if s == [] then []
    else (if s[0] == a then b else [s[0]]) + ReplaceChar(s[1..], a, b)
  }

  /** Python `str.replace(p, "")`: deletes the non-overlapping occurrences
      of `p`, scanning left to right. */
  function RemoveAll(s: string, p: string): string
    requires p != []
    decreases |s|
  {
    if |s| < |p| then s
    else if s[..|p|] == p then RemoveAll(s[|p|..], p)
    else [s[0]] + RemoveAll(s[1..], p)
  }

  /** `str.replace` with a one-character pattern brings in only the
      characters of its replacement. */
  lemma {:induction false} ReplaceCharFrom(s: string, a: char, b: string)
    ensures forall c :: c in ReplaceChar(s, a, b) ==> (c in s && c != a) || c in b
  {
    if s != [] {
      ReplaceCharFrom(s[1..], a, b);
      assert ReplaceChar(s, a, b) == (if s[0] == a then b else [s[0]]) + ReplaceChar(s[1..], a, b);
    }
  }

  /** Deleting a pattern keeps only characters of the text. */
  lemma {:induction false} RemoveAllFrom(s: string, p: string)
    requires p != []
    ensures forall c :: c in RemoveAll(s, p) ==> c in s
    decreases |s|
  {
    if |s| >= |p| {
      if s[..|p|] == p {
        RemoveAllFrom(s[|p|..], p);
        assert forall c :: c in s[|p|..] ==> c in s;
      } else {
        RemoveAllFrom(s[1..], p);
        assert forall c :: c in s[1..] ==> c in s;
      }
    }
  }

  /** Trimming keeps only characters of the text. */
  lemma StripFrom(s: string)
    ensures forall c :: c in Strip(s) ==> c in s
  {
    LStripIsSuffix(s);
    RStripIsPrefix(LStrip(s));
    var l := LStrip(s);
    assert forall c :: c in l ==> c in s;
  }

  /** `a` is `b` with some characters left out, the rest in order. */
  predicate Subsequence(a: string, b: string)
    decreases |b|
  {
    if a == [] then true
    else if b == [] then false
    else (a[0] == b[0] && Subsequence(a[1..], b[1..])) || Subsequence(a, b[1..])
  }

  /** Deletes every character of the set `cs` (a regex `re.sub("[...]", "")`):
      what is left is every other character of `s`, each as often as in
      `s`, in the order of `s`. */
  function RemoveChars(s: string, cs: set<char>): (r: string)
    ensures forall i :: 0 <= i < |r| ==> r[i] !in cs
    ensures forall c :: c in r ==> c in s
    ensures |r| <= |s|
  {
    if s == [] then []
    else if s[0] in cs then RemoveChars(s[1..], cs)
    else [s[0]] + RemoveChars(s[1..], cs)
  }

  /** What `RemoveChars` leaves is every character outside `cs`, each as
      often as in `s` and in the order of `s`. */
  lemma {:induction false} RemoveCharsKeepsRest(s: string, cs: set<char>, r: string)
    requires r == RemoveChars(s, cs)
    ensures forall c :: multiset(r)[c] == if c in cs then 0 else multiset(s)[c]
    ensures Subsequence(r, s)
  {
    if s != [] {
      assert s == [s[0]] + s[1..];
      var rest := RemoveChars(s[1..], cs);
      RemoveCharsKeepsRest(s[1..], cs, rest);
      if s[0] !in cs {
        assert r[1..] == rest;
      }
    }
  }

  /** The digits of a text and the occurrences of `mark`, in order. */
  function DigitsAnd(s: string, mark: char): (r: string)
    ensures |r| <= |s|
  {
    if s == [] then []
    else (if IsDigit(s[0]) || s[0] == mark then [s[0]] else []) + DigitsAnd(s[1..], mark)
  }

  lemma DigitsAndCons(c: char, s: string, mark: char)
    ensures DigitsAnd([c] + s, mark) == (if IsDigit(c) || c == mark then [c] else []) + DigitsAnd(s, mark)
  {
    assert ([c] + s)[0] == c;
    assert ([c] + s)[1..] == s;
  }

  lemma {:induction false} DigitsAndAppend(a: string, b: string, mark: char)
    ensures DigitsAnd(a + b, mark) == DigitsAnd(a, mark) + DigitsAnd(b, mark)
  {
    if a == [] {
      assert a + b == b;
    } else {
      var c, tail := a[0], a[1..];
      assert a == [c] + tail;
      assert a + b == [c] + (tail + b);
      DigitsAndCons(c, tail, mark);
      DigitsAndCons(c, tail + b, mark);
      DigitsAndAppend(tail, b, mark);
      var head := if IsDigit(c) || c == mark then [c] else [];
      assert head + (DigitsAnd(tail, mark) + DigitsAnd(b, mark))
             == (head + DigitsAnd(tail, mark)) + DigitsAnd(b, mark);
    }
  }

  /** A text with neither digits nor `mark` contributes nothing. */
  lemma {:induction false} DigitsAndNone(s: string, mark: char)
    requires forall i :: 0 <= i < |s| ==> !IsDigit(s[i]) && s[i] != mark
    ensures DigitsAnd(s, mark) == []
  {
    if s != [] {
      DigitsAndNone(s[1..], mark);
    }
  }

  /** Deleting characters that are neither digits nor `mark` keeps the
      digits and marks. */
  lemma {:induction false} DigitsAndRemoveChars(s: string, cs: set<char>, mark: char)
    requires forall c :: c in cs ==> !IsDigit(c) && c != mark
    ensures DigitsAnd(RemoveChars(s, cs), mark) == DigitsAnd(s, mark)
  {
    if s != [] {
      DigitsAndRemoveChars(s[1..], cs, mark);
      if s[0] !in cs {
        DigitsAndCons(s[0], RemoveChars(s[1..], cs), mark);
      }
    }
  }

  /** Deleting a pattern free of digits and `mark` keeps the digits and
      marks. */
  lemma {:induction false} DigitsAndRemoveAll(s: string, p: string, mark: char)
    requires p != []
    requires forall i :: 0 <= i < |p| ==> !IsDigit(p[i]) && p[i] != mark
    ensures DigitsAnd(RemoveAll(s, p), mark) == DigitsAnd(s, mark)
    decreases |s|
  {
    if |s| >= |p| {
      if s[..|p|] == p {
        DigitsAndRemoveAll(s[|p|..], p, mark);
        assert s == p + s[|p|..];
        DigitsAndAppend(p, s[|p|..], mark);
        DigitsAndNone(p, mark);
      } else {
        DigitsAndRemoveAll(s[1..], p, mark);
        DigitsAndCons(s[0], RemoveAll(s[1..], p), mark);
        assert s == [s[0]] + s[1..];
        DigitsAndCons(s[0], s[1..], mark);
      }
    }
  }

  /** Whitespace holds neither digits nor a non-space mark. */
  lemma DigitsAndSpaces(w: string, mark: char)
    requires !IsSpace(mark)
    requires forall i :: 0 <= i < |w| ==> IsSpace(w[i])
    ensures DigitsAnd(w, mark) == []
  {
    assert forall i :: 0 <= i < |w| ==> !IsDigit(w[i]) && w[i] != mark;
    DigitsAndNone(w, mark);
  }

  lemma DigitsAndLStrip(s: string, mark: char)
    requires !IsSpace(mark)
    ensures DigitsAnd(LStrip(s), mark) == DigitsAnd(s, mark)
  {
    var l := LStrip(s);
    LStripIsSuffix(s);
    var lead := s[..|s| - |l|];
    assert s == lead + l;
    DigitsAndAppend(lead, l, mark);
    DigitsAndSpaces(lead, mark);
  }

  lemma DigitsAndRStrip(s: string, mark: char)
    requires !IsSpace(mark)
    ensures DigitsAnd(RStrip(s), mark) == DigitsAnd(s, mark)
  {
    var m := RStrip(s);
    RStripIsPrefix(s);
    var trail := s[|m|..];
    assert s == m + trail;
    assert forall i :: 0 <= i < |trail| ==> IsSpace(trail[i]);
    DigitsAndAppend(m, trail, mark);
    DigitsAndSpaces(trail, mark);
  }

  /** Trimming keeps the digits and marks when the mark is not
      whitespace. */
  lemma DigitsAndStrip(s: string, mark: char)
    requires !IsSpace(mark)
    ensures DigitsAnd(Strip(s), mark) == DigitsAnd(s, mark)
  {
    DigitsAndLStrip(s, mark);
    DigitsAndRStrip(LStrip(s), mark);
  }

  /** Turning each `a` into `b` turns the marks `a` into marks `b`. */
  lemma {:induction false} DigitsAndReplace(s: string, a: char, b: char)
    requires b !in s && !IsDigit(a) && !IsDigit(b)
    ensures DigitsAnd(ReplaceChar(s, a, [b]), b) == ReplaceChar(DigitsAnd(s, a), a, [b])
  {
    if s != [] {
      var c, tail := s[0], s[1..];
      assert b !in tail by {
        assert forall x :: x in tail ==> x in s;
      }
      DigitsAndReplace(tail, a, b);
      var head := if c == a then [b] else [c];
      assert ReplaceChar(s, a, [b]) == head + ReplaceChar(tail, a, [b]);
      DigitsAndAppend(head, ReplaceChar(tail, a, [b]), b);
      var kept := if IsDigit(c) || c == a then [c] else [];
      assert DigitsAnd(s, a) == kept + DigitsAnd(tail, a);
      ReplaceCharAppend(kept, DigitsAnd(tail, a), a, [b]);
      if c == a {
        assert DigitsAnd(head, b) == [b] by { DigitsAndCons(b, [], b); assert [b] + [] == [b]; }
        assert ReplaceChar(kept, a, [b]) == [b] + ReplaceChar([], a, [b]);
      } else if IsDigit(c) {
        assert DigitsAnd(head, b) == [c] by { DigitsAndCons(c, [], b); assert [c] + [] == [c]; }
        assert ReplaceChar(kept, a, [b]) == [c] + ReplaceChar([], a, [b]);
      } else {
        assert c != b;
        assert DigitsAnd(head, b) == [] by { DigitsAndCons(c, [], b); }
      }
    }
  }

  /** Python `s.count(c)` for one character. */
  function CountChar(s: string, c: char): nat {
    if s == [] then 0 else (if s[0] == c then 1 else 0) + CountChar(s[1..], c)
  }

  // ---------------------------------------------------------------------
  // Numbers as text

  /** The value of a run of ASCII digits. */
  function DigitsValue(s: string): nat
    requires forall i :: 0 <= i < |s| ==> IsDigit(s[i])
  {
    if s == [] then 0 else DigitValue(s[0]) * Pow10Nat(|s| - 1) + DigitsValue(s[1..])
  }

  /** Python `str(n)` for a natural number. */
  function NatToString(n: nat): (r: string)
    ensures AllDigits(r)
  {
    if n < 10 then [DigitChar(n)] else NatToString(n / 10) + [DigitChar(n % 10)]
  }

  /** Python `str(i)` for an integer. */
  function IntToString(i: int): string {
    if i < 0 then "-" + NatToString(-i) else NatToString(i)
  }

  /** `n` written with exactly `width` digits, zero-padded on the left
      (`%02d`, `%04d`); a wider number is written in full. */
  function Padded(n: nat, width: nat): (r: string)
    ensures AllDigits(r)
    decreases width
  {
    if width <= 1 then NatToString(n)
    else if n < Pow10Nat(width - 1) then "0" + Padded(n, width - 1)
    else NatToString(n)
  }

  function Pow10Nat(e: nat): (r: nat)
    ensures r >= 1
  {
    if e == 0 then 1 else 10 * Pow10Nat(e - 1)
  }

  function Pow10(e: nat): (r: real)
    ensures r >= 1.0
  {
    if e == 0 then 1.0 else 10.0 * Pow10(e - 1)
  }

  /** Python `int(x)` for a float: truncation toward zero. */
  function Trunc(x: real): int {
    if x >= 0.0 then x.Floor else -((-x).Floor)
  }

  /** The body of a decimal literal: digits with an optional fraction
      (`12`, `12.`, `12.5`, `.5`) and an optional exponent (`1e3`, `2.5E-2`),
      as Python's `float()` reads it after trimming and an optional sign. */
  function ParseUnsigned(s: string): Option<real> {
    var mant := TakeDigits(s);
    var rest := s[|mant|..];
    var hasDot := rest != [] && rest[0] == '.';
    var frac := if hasDot then TakeDigits(rest[1..]) else [];
    var rest2 := if hasDot then rest[1 + |frac|..] else rest;
    if mant == [] && frac == [] then None
    else ScaleByExponent(DecimalValue(mant, frac), rest2)
  }

  /** The value of the decimal literal `<mant>.<frac>`. */
  function DecimalValue(mant: string, frac: string): real
    requires forall i :: 0 <= i < |mant| ==> IsDigit(mant[i])
    requires forall i :: 0 <= i < |frac| ==> IsDigit(frac[i])
  {
    DigitsValue(mant) as real + DigitsValue(frac) as real / Pow10(|frac|)
  }

  /** The optional exponent part `e<digits>` / `E<sign><digits>` applied to
      `base`; any other trailing text makes the literal invalid. */
  function ScaleByExponent(base: real, rest: string): Option<real> {
    if rest == [] then Some(base)
    else if rest[0] == 'e' || rest[0] == 'E' then
      var e := rest[1..];
      var neg := e != [] && e[0] == '-';
      var digits := if e != [] && (e[0] == '+' || e[0] == '-') then e[1..] else e;
      if AllDigits(digits) then
        var p := Pow10(DigitsValue(digits));
        Some(if neg then base / p else base * p)
      else None
    else None
  }

  /** The leading run of ASCII digits. */
  function TakeDigits(s: string): (r: string)
    ensures |r| <= |s| && r == s[..|r|]
    ensures forall i :: 0 <= i < |r| ==> IsDigit(r[i])
    ensures |r| == |s| || !IsDigit(s[|r|])
  {
    if s != [] && IsDigit(s[0]) then [s[0]] + TakeDigits(s[1..]) else []
  }

  /** Python `float(s)` for a text: `Some` of the value, or `None` where
      Python raises ValueError. */
  function ParseFloat(s: string): Option<real> {
    var t := Strip(s);
    if t != [] && (t[0] == '+' || t[0] == '-') then
      match ParseUnsigned(t[1..])
      case Some(x) => Some(if t[0] == '-' then -x else x)
      case None => None
    else ParseUnsigned(t)
  }

  /** Python `float(v)` for a record value: `None` where Python raises
      (a `None` value or a text that is not a number). */
  function FloatOf(v: Value): Option<real> {
    match v
    case VNone => None
    case VNum(x) => Some(x)
    case VStr(s) => ParseFloat(s)
  }

  // ---------------------------------------------------------------------
  // Facts about reading numbers

  lemma {:induction false} ReplaceCharAppend(a: string, b: string, c: char, r: string)
    ensures ReplaceChar(a + b, c, r) == ReplaceChar(a, c, r) + ReplaceChar(b, c, r)
    decreases |a|
  {
    if a != [] {
      var ab := a + b;
      assert ab[0] == a[0] && ab[1..] == a[1..] + b;
      var head := if a[0] == c then r else [a[0]];
      assert ReplaceChar(ab, c, r) == head + ReplaceChar(a[1..] + b, c, r);
      assert ReplaceChar(a, c, r) == head + ReplaceChar(a[1..], c, r);
      ReplaceCharAppend(a[1..], b, c, r);
    } else {
      assert a + b == b;
    }
  }

  lemma {:induction false} ReplaceCharAbsent(a: string, c: char, r: string)
    requires c !in a
    ensures ReplaceChar(a, c, r) == a
    decreases |a|
  {
    if a != [] {
      assert a[0] != c;
      ReplaceCharAbsent(a[1..], c, r);
      assert [a[0]] + a[1..] == a;
    }
  }

  /** The leading digit run of digits followed by a non-digit is exactly
      those digits. */
  lemma {:induction false} TakeDigitsPrefix(a: string, b: string)
    requires forall i :: 0 <= i < |a| ==> IsDigit(a[i])
    requires b == [] || !IsDigit(b[0])
    ensures TakeDigits(a + b) == a
    decreases |a|
  {
    if a == [] {
      assert a + b == b;
    } else {
      assert (a + b)[0] == a[0];
      assert (a + b)[1..] == a[1..] + b;
      TakeDigitsPrefix(a[1..], b);
      assert [a[0]] + a[1..] == a;
    }
  }

  lemma UnsignedDecimal(m: string, f: string)
    requires forall i :: 0 <= i < |m| ==> IsDigit(m[i])
    requires forall i :: 0 <= i < |f| ==> IsDigit(f[i])
    requires m != [] || f != []
    ensures ParseUnsigned(m + "." + f) == Some(DecimalValue(m, f))
  {
    var s := m + "." + f;
    assert s == m + ("." + f);
    TakeDigitsPrefix(m, "." + f);
    assert TakeDigits(s) == m;
    var rest := s[|m|..];
    assert rest == "." + f;
    assert rest != [] && rest[0] == '.';
    assert rest[1..] == f;
    TakeDigitsPrefix(f, []);
    assert f + [] == f;
    assert TakeDigits(rest[1..]) == f;
    assert rest[1 + |f|..] == [];
  }

  lemma UnsignedInteger(m: string)
    requires AllDigits(m)
    ensures ParseUnsigned(m) == Some(DigitsValue(m) as real)
  {
    TakeDigitsPrefix(m, []);
    assert m + [] == m;
    assert TakeDigits(m) == m;
    assert m[|m|..] == [];
    assert TakeDigits([]) == [];
  }

  /** A text with no surrounding whitespace and no leading sign is read
      by `float()` exactly as its unsigned body. */
  lemma ParseFloatPlain(s: string)
    requires s != [] && !IsSpace(s[0]) && !IsSpace(s[|s| - 1])
    requires s[0] != '+' && s[0] != '-'
    ensures ParseFloat(s) == ParseUnsigned(s)
  {
    StripOfStripped(s);
  }

  /** `float("<m>.<f>")` for digit strings `m` (non-empty) and `f`. */
  lemma ParseDecimal(m: string, f: string)
    requires AllDigits(m)
    requires forall i :: 0 <= i < |f| ==> IsDigit(f[i])
    ensures ParseFloat(m + "." + f) == Some(DecimalValue(m, f))
  {
    var s := m + "." + f;
    assert s[0] == m[0];
    assert !IsSpace(s[|s| - 1]) by {
      if f == [] { assert s[|s| - 1] == '.'; } else { assert s[|s| - 1] == f[|f| - 1]; }
    }
    ParseFloatPlain(s);
    UnsignedDecimal(m, f);
  }

  /** `float("<m>")` for a non-empty digit string. */
  lemma ParseInteger(m: string)
    requires AllDigits(m)
    ensures ParseFloat(m) == Some(DigitsValue(m) as real)
  {
    ParseFloatPlain(m);
    UnsignedInteger(m);
  }

  lemma {:induction false} DigitsValueSnoc(s: string, c: char)
    requires forall i :: 0 <= i < |s| ==> IsDigit(s[i])
    requires IsDigit(c)
    ensures DigitsValue(s + [c]) == 10 * DigitsValue(s) + DigitValue(c)
    decreases |s|
  {
    if s == [] {
      assert s + [c] == [c];
    } else {
      var t := s[1..];
      var d := DigitValue(s[0]);
      var p := Pow10Nat(|t|);
      assert (s + [c])[0] == s[0];
      assert (s + [c])[1..] == t + [c];
      assert DigitsValue(s + [c]) == d * Pow10Nat(|t| + 1) + DigitsValue(t + [c]);
      assert DigitsValue(s) == d * p + DigitsValue(t);
      DigitsValueSnoc(t, c);
      assert Pow10Nat(|t| + 1) == 10 * p;
      MulTen(d, p);
    }
  }

  lemma MulTen(d: int, p: int)
    ensures d * (10 * p) == 10 * (d * p)
  {
  }

  /** Concatenation regrouped, stated once so that long chains of `+`
      need not be regrouped by the solver. */
  lemma AppendAssoc(p: string, q: string, r: string)
    ensures p + (q + r) == p + q + r
  {
  }

  /** `int(str(n)) == n`. */
  lemma {:induction false} NatToStringValue(n: nat)
    ensures DigitsValue(NatToString(n)) == n
  {
    if n >= 10 {
      NatToStringValue(n / 10);
      DigitsValueSnoc(NatToString(n / 10), DigitChar(n % 10));
    }
  }

  // ---------------------------------------------------------------------
  // Facts about deleting characters

  lemma {:induction false} RemoveCharsAppend(a: string, b: string, cs: set<char>)
    ensures RemoveChars(a + b, cs) == RemoveChars(a, cs) + RemoveChars(b, cs)
    decreases |a|
  {
    if a == [] {
      assert a + b == b;
    } else {
      assert (a + b)[0] == a[0];
      assert (a + b)[1..] == a[1..] + b;
      RemoveCharsAppend(a[1..], b, cs);
    }
  }

  /** Deleting characters a text does not hold leaves it alone. */
  lemma {:induction false} RemoveCharsAbsent(a: string, cs: set<char>)
    requires forall i :: 0 <= i < |a| ==> a[i] !in cs
    ensures RemoveChars(a, cs) == a
    decreases |a|
  {
    if a != [] {
      RemoveCharsAbsent(a[1..], cs);
      assert [a[0]] + a[1..] == a;
    }
  }

  /** Deleting one set of characters and then another deletes both. */
  lemma {:induction false} RemoveCharsTwice(a: string, xs: set<char>, ys: set<char>)
    ensures RemoveChars(RemoveChars(a, xs), ys) == RemoveChars(a, xs + ys)
    decreases |a|
  {
    if a != [] {
      var head := if a[0] in xs then [] else [a[0]];
      RemoveCharsAppend(head, RemoveChars(a[1..], xs), ys);
      RemoveCharsTwice(a[1..], xs, ys);
      if a[0] !in xs {
        assert RemoveChars(head, ys) == RemoveChars([a[0]], ys) == (if a[0] in ys then [] else [a[0]]);
      }
    }
  }

  /** `str.replace(p, "")` only starts deleting at the first character
      that opens `p`. */
  lemma {:induction false} RemoveAllSkips(x: string, y: string, p: string)
    requires p != [] && p[0] !in x
    ensures RemoveAll(x + y, p) == x + RemoveAll(y, p)
    decreases |x|
  {
    if x == [] {
      assert x + y == y;
    } else {
      var s := x + y;
      assert s[0] == x[0] && s[1..] == x[1..] + y;
      if |s| < |p| {
        RemoveAllShort(s, p);
        RemoveAllShort(y, p);
      } else {
        assert s[..|p|][0] == x[0];
        assert RemoveAll(s, p) == [x[0]] + RemoveAll(x[1..] + y, p);
        RemoveAllSkips(x[1..], y, p);
        assert [x[0]] + (x[1..] + RemoveAll(y, p)) == x + RemoveAll(y, p);
      }
    }
  }

  lemma RemoveAllShort(s: string, p: string)
    requires p != [] && |s| < |p|
    ensures RemoveAll(s, p) == s
  {
  }
}
