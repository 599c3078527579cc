/** The JavaScript string operations the core relies on: `trim`, `toLowerCase`,
    `indexOf`/`includes`/`startsWith`, `replace` with a string pattern, `split`
    on a one-character separator, and `parseInt` without a radix. */
module JsString {
  import opened Wrappers

  /** The WhiteSpace and LineTerminator code points of ECMAScript (ECMA-262,
      sections 12.2 and 12.3): the set `trim` removes and `parseInt` skips. */
  predicate IsSpace(c: char) {
    || c == '\t' || c == '\U{000B}' || c == '\U{000C}' || c == ' '
    || c == '\U{00A0}' || c == '\U{FEFF}' || c == '\U{1680}'
    || ('\U{2000}' <= c <= '\U{200A}')
    || c == '\U{202F}' || c == '\U{205F}' || c == '\U{3000}'
    || c == '\n' || c == '\r' || c == '\U{2028}' || c == '\U{2029}'
  }

  predicate IsBlank(s: string) {
    forall i :: 0 <= i < |s| ==> IsSpace(s[i])
  }

  /** Neither end is white space: what `trim` leaves. */
  predicate IsTrimmed(s: string) {
    s == [] || (!IsSpace(s[0]) && !IsSpace(s[|s| - 1]))
  }

  /** `s.trimStart()`: the suffix left after the leading run of white space. */
  function TrimStart(s: string): (r: string)
    ensures |r| <= |s| && r == s[|s| - |r|..]
    ensures r == [] || !IsSpace(r[0])
    ensures forall i :: 0 <= i < |s| - |r| ==> IsSpace(s[i])
  {
    if s == [] || !IsSpace(s[0]) then s else TrimStart(s[1..])
  }

  /** `s.trimEnd()`: the prefix left before the trailing run of white space. */
  function TrimEnd(s: string): (r: string)
    ensures |r| <= |s| && r == s[..|r|]
    ensures r == [] || !IsSpace(r[|r| - 1])
    ensures forall i :: |r| <= i < |s| ==> IsSpace(s[i])
  {
    if s == [] || !IsSpace(s[|s| - 1]) then s else TrimEnd(s[..|s| - 1])
  }

  /** `s.trim()`: `trimStart` followed by `trimEnd`. */
  function Trim(s: string): (r: string)
    ensures |r| <= |s|
    ensures IsTrimmed(r)
    ensures r == TrimEnd(TrimStart(s))
  {
    var t := TrimStart(s);
    var r := TrimEnd(t);
    assert r != [] ==> r[0] == t[0];
    r
  }

  /** `trim` yields the empty string exactly for a blank one. */
  lemma TrimEmptyIff(s: string)
    ensures Trim(s) == [] <==> IsBlank(s)
  {
    var t := TrimStart(s);
    if t != [] {
      assert t[0] == s[|s| - |t|] && !IsSpace(t[0]);
      assert TrimEnd(t) != [];
    }
  }

  lemma TrimUnchanged(s: string)
    requires s == [] || (!IsSpace(s[0]) && !IsSpace(s[|s| - 1]))
    ensures Trim(s) == s
  {
  }

  /** `trim` leaves exactly the trimmed strings alone. */
  lemma TrimFixedIff(s: string)
    ensures Trim(s) == s <==> IsTrimmed(s)
  {
    if IsTrimmed(s) {
      TrimUnchanged(s);
    }
  }

  lemma TrimIdempotent(s: string)
    ensures Trim(Trim(s)) == Trim(s)
  {
    TrimUnchanged(Trim(s));
  }

  /** `toLowerCase` on one character; only the ASCII letters are mapped. */
  function LowerChar(c: char): char {
    if 'A' <= c <= 'Z' then (c as int + 32) as char else c
  }

  /** `s.toLowerCase()`, restricted to ASCII letters. */
  function ToLower(s: string): (r: string)
    ensures |r| == |s|
    ensures forall i :: 0 <= i < |s| ==> r[i] == LowerChar(s[i])
  {
    seq(|s|, i requires 0 <= i < |s| => LowerChar(s[i]))
  }

  /** No ASCII capital letter: what `toLowerCase` leaves. */
  predicate IsLower(s: string) {
    forall i :: 0 <= i < |s| ==> !('A' <= s[i] <= 'Z')
  }

  /** `toLowerCase` leaves exactly the lower-case strings alone. */
  lemma LowerFixedIff(s: string)
    ensures ToLower(s) == s <==> IsLower(s)
  {
    if !IsLower(s) {
      var i :| 0 <= i < |s| && 'A' <= s[i] <= 'Z';
      assert ToLower(s)[i] != s[i];
    }
  }

  lemma ToLowerIsLower(s: string)
    ensures IsLower(ToLower(s))
  {
  }

  lemma ToLowerIdempotent(s: string)
    ensures ToLower(ToLower(s)) == ToLower(s)
  {
  }

  lemma {:induction false} TrimStartToLower(s: string)
    ensures TrimStart(ToLower(s)) == ToLower(TrimStart(s))
    decreases |s|
  {
    var l := ToLower(s);
    if s != [] && IsSpace(s[0]) {
      assert l[0] == s[0];
      assert l[1..] == ToLower(s[1..]);
      calc {
        TrimStart(l);
        TrimStart(l[1..]);
        { TrimStartToLower(s[1..]); }
        ToLower(TrimStart(s[1..]));
      }
    } else {
      assert l == [] || (l[0] == LowerChar(s[0]) && !IsSpace(l[0]));
      assert TrimStart(l) == l;
    }
  }

  lemma {:induction false} TrimEndToLower(s: string)
    ensures TrimEnd(ToLower(s)) == ToLower(TrimEnd(s))
    decreases |s|
  {
    var l := ToLower(s);
    if s != [] && IsSpace(s[|s| - 1]) {
      assert l[|s| - 1] == s[|s| - 1];
      assert l[..|s| - 1] == ToLower(s[..|s| - 1]);
      calc {
        TrimEnd(l);
        TrimEnd(l[..|s| - 1]);
        { TrimEndToLower(s[..|s| - 1]); }
        ToLower(TrimEnd(s[..|s| - 1]));
      }
    } else {
      assert l == [] || (l[|s| - 1] == LowerChar(s[|s| - 1]) && !IsSpace(l[|s| - 1]));
      assert TrimEnd(l) == l;
    }
  }

  /** Lower-casing never touches white space, so it commutes with `trim`. */
  lemma TrimToLower(s: string)
    ensures Trim(ToLower(s)) == ToLower(Trim(s))
  {
    TrimStartToLower(s);
    TrimEndToLower(TrimStart(s));
  }

  predicate StartsWith(s: string, prefix: string) {
    |prefix| <= |s| && s[..|prefix|] == prefix
  }

  predicate MatchAt(s: string, pat: string, i: int) {
    0 <= i && i + |pat| <= |s| && s[i..i + |pat|] == pat
  }

  /** `s.indexOf(pat, from)`, with `None` for -1. */
  function IndexOfFrom(s: string, pat: string, from: nat): (r: Option<nat>)
    ensures r.Some? ==> from <= r.value && MatchAt(s, pat, r.value)
    ensures r.Some? ==> forall j :: from <= j < r.value ==> !MatchAt(s, pat, j)
    ensures r.None? ==> forall j :: from <= j ==> !MatchAt(s, pat, j)
    decreases |s| - from
  {
    if MatchAt(s, pat, from) then Some(from)
    else if from + |pat| >= |s| then None
    else IndexOfFrom(s, pat, from + 1)
  }

  /** `s.indexOf(pat)`: the first position where `pat` occurs. */
  function IndexOf(s: string, pat: string): (r: Option<nat>)
    ensures r.Some? ==> MatchAt(s, pat, r.value)
    ensures r.Some? ==> forall j :: 0 <= j < r.value ==> !MatchAt(s, pat, j)
    ensures r.None? <==> forall j :: 0 <= j ==> !MatchAt(s, pat, j)
  {
    IndexOfFrom(s, pat, 0)
  }

  /** `s.includes(pat)`. */
  predicate Includes(s: string, pat: string) {
    IndexOf(s, pat).Some?
  }

  lemma IncludesAt(s: string, pat: string, i: int)
    requires MatchAt(s, pat, i)
    ensures Includes(s, pat)
  {
  }

  /** `s.replace(pat, rep)` with a string pattern: only the first occurrence is replaced. */
  function ReplaceFirst(s: string, pat: string, rep: string): (r: string)
    ensures !Includes(s, pat) ==> r == s
    ensures Includes(s, pat) ==>
              exists i :: && MatchAt(s, pat, i)
                          && (forall j :: 0 <= j < i ==> !MatchAt(s, pat, j))
                          && r == s[..i] + rep + s[i + |pat|..]
  {
    match IndexOf(s, pat)
    case Some(i) => s[..i] + rep + s[i + |pat|..]
    case None => s
  }

  /** `s.split(sep)` for a one-character separator. */
  function Split(s: string, sep: char): (r: seq<string>)
    ensures |r| >= 1
    ensures forall k :: 0 <= k < |r| ==> sep !in r[k]
    ensures Join(r, sep) == s
  {
    if s == [] then [""]
    else
      var rest := Split(s[1..], sep);
      if s[0] == sep then
        assert ([""] + rest)[1..] == rest;
        [""] + rest
      else
        var r := [[s[0]] + rest[0]] + rest[1..];
        assert r[1..] == rest[1..];
        assert s == [s[0]] + s[1..];
        r
  }

  /** `parts.join(sep)`, the inverse of `Split`. */
  function Join(parts: seq<string>, sep: char): string {
    if |parts| == 0 then ""
    else if |parts| == 1 then parts[0]
    else parts[0] + [sep] + Join(parts[1..], sep)
  }

  lemma {:induction false} SplitJoin(parts: seq<string>, sep: char)
    requires |parts| >= 1
    requires forall k :: 0 <= k < |parts| ==> sep !in parts[k]
    ensures Split(Join(parts, sep), sep) == parts
    decreases |parts|, |parts[0]|
  {
    var p := parts[0];
    if p == [] {
      if |parts| > 1 {
        var s := Join(parts, sep);
        assert s == [sep] + Join(parts[1..], sep);
        assert s[1..] == Join(parts[1..], sep);
        SplitJoin(parts[1..], sep);
        assert parts == [""] + parts[1..];
      }
    } else {
      var tail := [p[1..]] + parts[1..];
      assert tail[1..] == parts[1..];
      var s := Join(parts, sep);
      assert Join(tail, sep)
          == if |parts| == 1 then p[1..] else p[1..] + [sep] + Join(parts[1..], sep);
      assert s[0] == p[0] && s[1..] == Join(tail, sep);
      assert p[0] != sep by { assert p[0] in p; }
      assert sep !in tail[0] by {
        forall c | c in p[1..] ensures c in p { }
      }
      SplitJoin(tail, sep);
      assert [p[0]] + p[1..] == p;
    }
  }

  /** The value of a character as a digit in radix 36, or 36 when it is no digit at all. */
  function DigitValue(c: char): (v: nat)
    ensures v <= 36
  {
    if '0' <= c <= '9' then c as int - '0' as int
    else if 'a' <= c <= 'z' then c as int - 'a' as int + 10
    else if 'A' <= c <= 'Z' then c as int - 'A' as int + 10
    else 36
  }

  predicate IsDigit(c: char, radix: nat) {
    DigitValue(c) < radix
  }

  /** The length of the longest prefix of `s` made of digits of `radix`. */
  function DigitRun(s: string, radix: nat): (n: nat)
    ensures n <= |s|
    ensures forall i :: 0 <= i < n ==> IsDigit(s[i], radix)
    ensures n == |s| || !IsDigit(s[n], radix)
  {
    if s == [] || !IsDigit(s[0], radix) then 0 else 1 + DigitRun(s[1..], radix)
  }

  predicate AllDigits(d: string, radix: nat) {
    forall i :: 0 <= i < |d| ==> IsDigit(d[i], radix)
  }

  /** The value of a numeral in `radix`, most significant digit first. */
  function DigitsValue(d: string, radix: nat): nat
    requires AllDigits(d, radix)
  {
    if d == [] then 0
    else
      var init := d[..|d| - 1];
      assert AllDigits(init, radix) by {
        forall i | 0 <= i < |init| ensures IsDigit(init[i], radix) {
          assert init[i] == d[i];
        }
      }
      var high: nat := DigitsValue(init, radix);
      high * radix + DigitValue(d[|d| - 1])
  }

  /** The longest digit run at the start of `d`, as a number; `None` when there is none. */
  function ParseDigits(d: string, radix: nat): (r: Option<nat>)
  {
    var n := DigitRun(d, radix);
    if n == 0 then None
    else
      assert AllDigits(d[..n], radix) by {
        forall i | 0 <= i < n ensures IsDigit(d[..n][i], radix) {
          assert d[..n][i] == d[i];
        }
      }
      Some(DigitsValue(d[..n], radix))
  }

  /** No digit of any radix is white space or a sign. */
  lemma DigitIsNotSpace(c: char)
    requires DigitValue(c) < 36
    ensures !IsSpace(c) && c != '-' && c != '+'
  {
  }

  /** A string that does not start with white space is its own `trimStart`. */
  lemma TrimStartNoSpace(s: string)
    requires s == [] || !IsSpace(s[0])
    ensures TrimStart(s) == s
  {
  }

  /** The numeral after the sign: hexadecimal behind `0x`/`0X`, decimal otherwise. */
  function ParseUnsigned(u: string): (r: Option<nat>)
  {
    if |u| >= 2 && u[0] == '0' && (u[1] == 'x' || u[1] == 'X') then ParseDigits(u[2..], 16)
    else ParseDigits(u, 10)
  }

  /** `parseInt(s)` with no radix argument (ECMA-262, section 19.2.5): skip leading
      white space, take an optional sign and an optional `0x`/`0X` prefix, then the
      longest run of digits; `None` stands for `NaN`. */
  function ParseInt(s: string): Option<int> {
    ParseSigned(TrimStart(s))
  }

  /** `parseInt` yields a number only when the first character after the white space
      is a sign or a decimal digit, and a negative one only behind a minus sign. */
  lemma ParseIntStart(s: string)
    ensures var t := TrimStart(s);
            ParseInt(s).Some? ==> t != [] && (t[0] == '-' || t[0] == '+' || IsDigit(t[0], 10))
    ensures var t := TrimStart(s);
            ParseInt(s).Some? && ParseInt(s).value < 0 ==> t != [] && t[0] == '-'
  {
    var t := TrimStart(s);
    if !(|t| > 0 && (t[0] == '-' || t[0] == '+')) {
      ParseUnsignedStart(t);
    }
  }

  lemma ParseUnsignedStart(u: string)
    ensures ParseUnsigned(u).Some? ==> u != [] && IsDigit(u[0], 10)
  {
    if !(|u| >= 2 && u[0] == '0' && (u[1] == 'x' || u[1] == 'X')) {
      ParseDigitsStart(u, 10);
    }
  }

  lemma ParseDigitsStart(d: string, radix: nat)
    ensures ParseDigits(d, radix).Some? ==> d != [] && IsDigit(d[0], radix)
  {
  }

  /** `parseInt` after the leading white space: an optional sign, then the numeral. */
  function ParseSigned(t: string): Option<int> {
    if |t| > 0 && t[0] == '-' then
      match ParseUnsigned(t[1..])
      case Some(v) => Some(-(v as int))
      case None => None
    else if |t| > 0 && t[0] == '+' then
      match ParseUnsigned(t[1..])
      case Some(v) => Some(v as int)
      case None => None
    else
      match ParseUnsigned(t)
      case Some(v) => Some(v as int)
      case None => None
  }

  function DigitChar(k: nat): (c: char)
    requires k < 10
    ensures DigitValue(c) == k
  {
    ('0' as int + k) as char
  }

  /** The decimal numeral of `n`, as `String(n)` writes it. */
  function Decimal(n: nat): (r: string)
    ensures |r| >= 1
    ensures AllDigits(r, 10)
    ensures r[0] == '0' ==> n == 0
  {
    if n < 10 then [DigitChar(n)] else Decimal(n / 10) + [DigitChar(n % 10)]
  }

  lemma {:induction false} DecimalValue(n: nat)
    ensures DigitsValue(Decimal(n), 10) == n
  {
    if n >= 10 {
      var d := Decimal(n);
      assert d[..|d| - 1] == Decimal(n / 10);
      DecimalValue(n / 10);
    }
  }

  /** The digits of `String(n)` followed by anything that does not continue the
      numeral: a digit run of exactly the numeral's length. */
  lemma DecimalRun(n: nat, tail: string)
    requires tail == [] || DigitValue(tail[0]) == 36
    ensures DigitRun(Decimal(n) + tail, 10) == |Decimal(n)|
    ensures (Decimal(n) + tail)[..|Decimal(n)|] == Decimal(n)
  {
    var d := Decimal(n);
    var s := d + tail;
    if |d| < |s| { assert s[|d|] == tail[0]; }
  }

  lemma ParseUnsignedDecimal(n: nat, tail: string)
    requires tail == [] || DigitValue(tail[0]) == 36
    ensures ParseUnsigned(Decimal(n) + tail) == Some(n)
  {
    var d := Decimal(n);
    var s := d + tail;
    assert !(|s| >= 2 && s[0] == '0' && (s[1] == 'x' || s[1] == 'X')) by {
      if |s| >= 2 && s[0] == '0' {
        assert |d| == 1;
        assert s[1] == tail[0];
      }
    }
    DecimalRun(n, tail);
    DecimalValue(n);
  }

  /** `parseInt` reads back the numeral `String(n)` wrote, whatever follows it
      as long as that does not continue the numeral. */
  lemma ParseIntDecimal(n: nat, tail: string)
    requires tail == [] || DigitValue(tail[0]) == 36
    ensures ParseInt(Decimal(n) + tail) == Some(n)
  {
    var d := Decimal(n);
    var s := d + tail;
    assert s[0] == d[0] && IsDigit(d[0], 10);
    DigitIsNotSpace(s[0]);
    TrimStartNoSpace(s);
    ParseUnsignedDecimal(n, tail);
    assert ParseSigned(s) == Some(n);
  }

  lemma ParseIntNumeral(n: nat)
    ensures ParseInt(Decimal(n)) == Some(n)
  {
    assert Decimal(n) + [] == Decimal(n);
    ParseIntDecimal(n, []);
  }

  /** A leading minus sign negates the numeral that follows it. */
  lemma ParseSignedNegative(u: string, n: nat)
    requires ParseUnsigned(u) == Some(n)
    ensures ParseSigned("-" + u) == Some(-(n as int))
  {
    assert ("-" + u)[1..] == u;
  }

  /** The same with a leading minus sign: `parseInt("-" + String(n))` is `-n`. */
  lemma ParseIntNegativeDecimal(n: nat, tail: string)
    requires tail == [] || DigitValue(tail[0]) == 36
    ensures ParseInt("-" + Decimal(n) + tail) == Some(-(n as int))
  {
    var u := Decimal(n) + tail;
    assert "-" + Decimal(n) + tail == "-" + u;
    TrimStartNoSpace("-" + u);
    ParseUnsignedDecimal(n, tail);
    ParseSignedNegative(u, n);
  }
}
