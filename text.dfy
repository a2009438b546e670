/** Decimal rendering, zero padding and the few JavaScript string operations
    (String.prototype.split on one character, parseInt without a radix) that the
    dashboard's formatters and parsers rely on. Strings are seq<char>. */
module Text {

  datatype Option<T> = None | Some(value: T)

  predicate IsDigit(c: char) { '0' <= c <= '9' }

  function DigitChar(d: nat): (c: char)
    requires d < 10
    ensures IsDigit(c) && (c as int) - ('0' as int) == d
  {
    (('0' as int) + d) as char
  }

  function DigitValue(c: char): (d: nat)
    requires IsDigit(c)
    ensures d < 10 && DigitChar(d) == c
  {
    (c as int) - ('0' as int)
  }

  predicate AllDigits(s: string) { forall i :: 0 <= i < |s| ==> IsDigit(s[i]) }

  /** Number.prototype.toString() of a non-negative integer: decimal, no leading zeros. */
  function NatToString(n: nat): (s: string)
    ensures |s| >= 1 && AllDigits(s)
    ensures (n < 10) == (|s| == 1)
    ensures |s| > 1 ==> s[0] != '0'
  {
    if n < 10 then [DigitChar(n)] else NatToString(n / 10) + [DigitChar(n % 10)]
  }

  /** Number.prototype.toString() of any integer: a minus sign for negatives. */
  function IntToString(i: int): (s: string)
  {
    if i < 0 then "-" + NatToString(-i) else NatToString(i)
  }

  /** The value of a string of decimal digits, read most significant first. */
  function DigitsValue(s: string): (n: nat)
    requires AllDigits(s)
  {
    if |s| == 0 then 0 else DigitsValue(s[..|s| - 1]) * 10 + DigitValue(s[|s| - 1])
  }

  lemma {:induction false} NatToStringRoundTrip(n: nat)
    ensures DigitsValue(NatToString(n)) == n
  {
    if n >= 10 {
      var s := NatToString(n);
      assert s[..|s| - 1] == NatToString(n / 10);
      NatToStringRoundTrip(n / 10);
    }
  }

  lemma {:induction false} NatToStringInjective(a: nat, b: nat)
    ensures NatToString(a) == NatToString(b) ==> a == b
  {
    NatToStringRoundTrip(a);
    NatToStringRoundTrip(b);
  }

  /** `n.toString().padStart(width, '0')`: left-pad with zeros up to `width` characters. */
  function PadStart(n: nat, width: nat): (s: string)
    ensures |s| == if |NatToString(n)| >= width then |NatToString(n)| else width
    ensures AllDigits(s)
    ensures DigitsValue(s) == n
  {
    var t := NatToString(n);
    NatToStringRoundTrip(n);
    if |t| >= width then t
    else
      ZerosPrefixValue(width - |t|, t);
      Zeros(width - |t|) + t
  }

  function Zeros(k: nat): (s: string)
    ensures |s| == k && AllDigits(s)
    ensures forall i :: 0 <= i < k ==> s[i] == '0'
  {
    if k == 0 then "" else "0" + Zeros(k - 1)
  }

  lemma {:induction false} ZerosPrefixValue(k: nat, t: string)
    requires AllDigits(t)
    ensures AllDigits(Zeros(k) + t) && DigitsValue(Zeros(k) + t) == DigitsValue(t)
  {
    if |t| == 0 {
      assert Zeros(k) + t == Zeros(k);
      ZerosValue(k);
    } else {
      var u := Zeros(k) + t;
      assert u[..|u| - 1] == Zeros(k) + t[..|t| - 1];
      ZerosPrefixValue(k, t[..|t| - 1]);
    }
  }

  lemma {:induction false} ZerosValue(k: nat)
    ensures DigitsValue(Zeros(k)) == 0
  {
    if k > 0 {
      ZerosSnoc(k - 1);
      var z := Zeros(k);
      assert z[..k - 1] == Zeros(k - 1);
      ZerosValue(k - 1);
    }
  }

  lemma {:induction false} ZerosSnoc(k: nat)
    ensures Zeros(k + 1) == Zeros(k) + "0"
  {
    if k > 0 {
      ZerosSnoc(k - 1);
    }
  }

  /** Two-digit zero padding, `padStart(2, '0')`. For values below 100 it is exactly two digits. */
  function Pad2(n: nat): (s: string)
    ensures n < 100 ==> |s| == 2
    ensures AllDigits(s) && DigitsValue(s) == n
  {
    PadStart(n, 2)
  }

  // ---------------------------------------------------------------------------
  // String.prototype.split with a one-character separator, and its inverse.

  /** `s.split(sep)`: the maximal runs between separators; never empty. */
  function Split(s: string, sep: char): (parts: seq<string>)
    ensures |parts| >= 1
    ensures forall k :: 0 <= k < |parts| ==> sep !in parts[k]
    decreases |s|
  {
    if |s| == 0 then [""]
    else if s[0] == sep then [""] + Split(s[1..], sep)
    else
      var rest := Split(s[1..], sep);
      [[s[0]] + rest[0]] + rest[1..]
  }

  /** `parts.join(sep)`. */
  function Join(parts: seq<string>, sep: char): string
    requires |parts| >= 1
  {
    if |parts| == 1 then parts[0] else parts[0] + [sep] + Join(parts[1..], sep)
  }

  lemma {:induction false} JoinSplit(s: string, sep: char)
    ensures Join(Split(s, sep), sep) == s
    decreases |s|
  {
    if |s| == 0 {
    } else if s[0] == sep {
      JoinSplit(s[1..], sep);
      var r := Split(s[1..], sep);
      assert Split(s, sep)[1..] == r;
    } else {
      JoinSplit(s[1..], sep);
      var rest := Split(s[1..], sep);
      var parts := Split(s, sep);
      if |rest| == 1 {
        assert parts == [[s[0]] + rest[0]];
      } else {
        assert parts[1..] == rest[1..];
        assert Join(rest, sep) == rest[0] + [sep] + Join(rest[1..], sep);
      }
    }
  }

  lemma {:induction false} SplitJoin(parts: seq<string>, sep: char)
    requires |parts| >= 1
    requires forall k :: 0 <= k < |parts| ==> sep !in parts[k]
    ensures Split(Join(parts, sep), sep) == parts
    decreases |parts|, |parts[0]|
  {
    if |parts[0]| == 0 {
      if |parts| == 1 {
      } else {
        var j := Join(parts, sep);
        assert j == [sep] + Join(parts[1..], sep);
        assert j[1..] == Join(parts[1..], sep);
        SplitJoin(parts[1..], sep);
      }
    } else {
      var p0 := parts[0];
      var shorter := [p0[1..]] + parts[1..];
      assert forall k :: 0 <= k < |shorter| ==> sep !in shorter[k] by {
        assert forall c :: c in p0[1..] ==> c in p0;
      }
      assert Join(parts, sep) == [p0[0]] + Join(shorter, sep) by {
        if |parts| == 1 {
          assert p0 == [p0[0]] + p0[1..];
        } else {
          assert shorter[1..] == parts[1..];
          assert p0 == [p0[0]] + p0[1..];
        }
      }
      var j := Join(parts, sep);
      assert j[0] == p0[0] && j[1..] == Join(shorter, sep);
      SplitJoin(shorter, sep);
      assert p0[0] != sep;
      assert [p0[0]] + p0[1..] == p0;
      assert parts == [p0] + shorter[1..];
    }
  }

  /** A separator-free text splits into itself alone. */
  lemma {:induction false} SplitOne(s: string, sep: char)
    requires sep !in s
    ensures Split(s, sep) == [s]
  {
    SplitJoin([s], sep);
  }

  /** Two separator-free pieces joined by the separator split back into the two. */
  lemma {:induction false} SplitTwo(a: string, b: string, sep: char)
    requires sep !in a && sep !in b
    ensures Split(a + [sep] + b, sep) == [a, b]
  {
    assert [a, b][1..] == [b];
    assert Join([a, b], sep) == a + [sep] + b;
    SplitJoin([a, b], sep);
  }

  lemma {:induction false} SplitThree(a: string, b: string, c: string, sep: char)
    requires sep !in a && sep !in b && sep !in c
    ensures Split(a + [sep] + b + [sep] + c, sep) == [a, b, c]
  {
    assert [a, b, c][1..] == [b, c] && [b, c][1..] == [c];
    assert Join([b, c], sep) == b + [sep] + c;
    assert Join([a, b, c], sep) == a + [sep] + (b + [sep] + c);
    assert a + [sep] + b + [sep] + c == a + [sep] + (b + [sep] + c);
    SplitJoin([a, b, c], sep);
  }

  /** Only the text before the first separator decides the first part. */
  lemma {:induction false} SplitHead(a: string, rest: string, sep: char)
    requires sep !in a
    ensures Split(a + [sep] + rest, sep)[0] == a
    decreases |a|
  {
    var s := a + [sep] + rest;
    if |a| == 0 {
      assert s[0] == sep;
    } else {
      assert s[1..] == a[1..] + [sep] + rest;
      assert a[0] in a;
      SplitHead(a[1..], rest, sep);
      assert [a[0]] + a[1..] == a;
    }
  }

  /** `s.split(sep)[k]`, which is `undefined` (None) past the last part. */
  function Part(s: string, sep: char, k: nat): Option<string>
  {
    var parts := Split(s, sep);
    if k < |parts| then Some(parts[k]) else None
  }

  /** JavaScript template rendering of an optional string: `undefined` prints as "undefined". */
  function Show(p: Option<string>): string
  {
    match p
    case Some(s) => s
    case None => "undefined"
  }

  // ---------------------------------------------------------------------------
  // parseInt(s) without a radix (section 19.2.5 of ECMA-262): skip leading white space and
  // line terminators, an optional sign, then a "0x"/"0X" prefix selects base 16; the
  // longest run of digits of that base is read, and none at all is NaN.

  /** ECMA-262 WhiteSpace and LineTerminator: tab, VT, FF, space, NBSP, ZWNBSP, the
      space separators of category Zs, LF, CR, LS and PS. */
  predicate IsSpace(c: char)
  {
    c == '\t' || c == '\n' || c == '\U{000B}' || c == '\U{000C}' || c == '\r' || c == ' '
    || c == '\U{00A0}' || c == '\U{1680}' || ('\U{2000}' <= c <= '\U{200A}')
    || c == '\U{2028}' || c == '\U{2029}' || c == '\U{202F}' || c == '\U{205F}'
    || c == '\U{3000}' || c == '\U{FEFF}'
  }

  function TrimStart(s: string): (t: string)
    ensures |t| <= |s| && t == s[|s| - |t|..]
    ensures |t| > 0 ==> !IsSpace(t[0])
  {
    if |s| > 0 && IsSpace(s[0]) then TrimStart(s[1..]) else s
  }

  predicate IsHexDigit(c: char) { IsDigit(c) || 'a' <= c <= 'f' || 'A' <= c <= 'F' }

  function HexDigitValue(c: char): (d: nat)
    requires IsHexDigit(c)
    ensures d < 16
    ensures IsDigit(c) ==> d == DigitValue(c)
  {
    if IsDigit(c) then DigitValue(c)
    else if 'a' <= c <= 'f' then (c as int) - ('a' as int) + 10
    else (c as int) - ('A' as int) + 10
  }

  predicate AllHexDigits(s: string) { forall i :: 0 <= i < |s| ==> IsHexDigit(s[i]) }

  /** The value of a string of hexadecimal digits, read most significant first. */
  function HexValue(s: string): (n: nat)
    requires AllHexDigits(s)
  {
    if |s| == 0 then 0 else HexValue(s[..|s| - 1]) * 16 + HexDigitValue(s[|s| - 1])
  }

  /** The longest prefix of `s` made of decimal digits. */
  function LeadingDigits(s: string): (d: string)
    ensures |d| <= |s| && d == s[..|d|] && AllDigits(d)
    ensures |d| < |s| ==> !IsDigit(s[|d|])
  {
    if |s| > 0 && IsDigit(s[0]) then [s[0]] + LeadingDigits(s[1..]) else ""
  }

  /** The longest prefix of `s` made of hexadecimal digits. */
  function LeadingHexDigits(s: string): (d: string)
    ensures |d| <= |s| && d == s[..|d|] && AllHexDigits(d)
    ensures |d| < |s| ==> !IsHexDigit(s[|d|])
  {
    if |s| > 0 && IsHexDigit(s[0]) then [s[0]] + LeadingHexDigits(s[1..]) else ""
  }

  /** Whether the unsigned text starts with the `0x`/`0X` prefix of base 16. */
  predicate HasHexPrefix(s: string) { |s| >= 2 && s[0] == '0' && (s[1] == 'x' || s[1] == 'X') }

  /** The magnitude read after the sign: None when no digit of the base follows. */
  function Magnitude(body: string): Option<nat>
  {
    if HasHexPrefix(body) then
      var d := LeadingHexDigits(body[2..]);
      if |d| == 0 then None else Some(HexValue(d))
    else
      var d := LeadingDigits(body);
      if |d| == 0 then None else Some(DigitsValue(d))
  }

  /** parseInt without a radix; None stands for NaN. */
  function ParseInt(s: string): Option<int>
  {
    ParseTrimmed(TrimStart(s))
  }

  /** parseInt of a text that no longer starts with white space: the sign, then the magnitude. */
  function ParseTrimmed(t: string): Option<int>
  {
    var negative := |t| > 0 && t[0] == '-';
    var body := if |t| > 0 && (t[0] == '-' || t[0] == '+') then t[1..] else t;
    match Magnitude(body)
    case None => None
    case Some(v) => Some(if negative then -(v as int) else v as int)
  }

  lemma {:induction false} LeadingDigitsOfDigits(s: string, rest: string)
    requires AllDigits(s)
    requires |rest| == 0 || !IsDigit(rest[0])
    ensures LeadingDigits(s + rest) == s
    decreases |s|
  {
    if |s| > 0 {
      assert (s + rest)[1..] == s[1..] + rest;
      LeadingDigitsOfDigits(s[1..], rest);
    } else {
      assert s + rest == rest;
    }
  }

  lemma {:induction false} LeadingHexDigitsOfHexDigits(s: string, rest: string)
    requires AllHexDigits(s)
    requires |rest| == 0 || !IsHexDigit(rest[0])
    ensures LeadingHexDigits(s + rest) == s
    decreases |s|
  {
    if |s| > 0 {
      assert (s + rest)[1..] == s[1..] + rest;
      LeadingHexDigitsOfHexDigits(s[1..], rest);
    } else {
      assert s + rest == rest;
    }
  }

  /** parseInt reads back a zero-padded decimal number followed by a non-digit (or nothing),
      unless that is a lone `0` followed by `x`/`X`, which starts a hexadecimal number. */
  lemma {:induction false} ParseIntOfDigits(s: string, rest: string)
    requires |s| > 0 && AllDigits(s)
    requires |rest| == 0 || !IsDigit(rest[0])
    requires !(s == "0" && |rest| > 0 && (rest[0] == 'x' || rest[0] == 'X'))
    ensures ParseInt(s + rest) == Some(DigitsValue(s))
  {
    var t := s + rest;
    assert t[0] == s[0] && IsDigit(t[0]) && !IsSpace(t[0]);
    assert TrimStart(t) == t;
    assert !HasHexPrefix(t) by {
      if |s| >= 2 {
        assert t[1] == s[1];
      } else if |rest| > 0 {
        assert t[1] == rest[0];
      }
    }
    LeadingDigitsOfDigits(s, rest);
    assert LeadingDigits(t) == s;
  }

  /** A sign (or none) in front of a text that starts with neither space nor sign. */
  lemma {:induction false} ParseIntOfSigned(sign: string, body: string, v: nat)
    requires sign == "" || sign == "-" || sign == "+"
    requires |body| > 0 && !IsSpace(body[0]) && body[0] != '-' && body[0] != '+'
    requires Magnitude(body) == Some(v)
    ensures ParseInt(sign + body) == Some(if sign == "-" then -(v as int) else v)
  {
    var u := sign + body;
    assert u[0] == (if sign == "" then body[0] else sign[0]) && !IsSpace(u[0]);
    assert TrimStart(u) == u;
    if sign == "" {
      assert u == body;
    } else {
      assert u[1..] == body;
    }
  }

  lemma {:induction false} MagnitudeOfHex(x: char, s: string, rest: string)
    requires x == 'x' || x == 'X'
    requires |s| > 0 && AllHexDigits(s)
    requires |rest| == 0 || !IsHexDigit(rest[0])
    ensures Magnitude(['0', x] + s + rest) == Some(HexValue(s))
  {
    var body := ['0', x] + s + rest;
    assert HasHexPrefix(body);
    assert body[2..] == s + rest;
    LeadingHexDigitsOfHexDigits(s, rest);
  }

  /** A sign (or none), `0x`/`0X` and hexadecimal digits are read in base 16 up to the first
      character that is not a hexadecimal digit. */
  lemma {:induction false} ParseIntOfSignedHex(sign: string, x: char, s: string, rest: string)
    requires sign == "" || sign == "-" || sign == "+"
    requires x == 'x' || x == 'X'
    requires |s| > 0 && AllHexDigits(s)
    requires |rest| == 0 || !IsHexDigit(rest[0])
    ensures var v: int := HexValue(s);
      ParseInt(sign + (['0', x] + s + rest)) == Some(if sign == "-" then -v else v)
  {
    var body := ['0', x] + s + rest;
    assert body[0] == '0' && !IsSpace('0');
    MagnitudeOfHex(x, s, rest);
    ParseIntOfSigned(sign, body, HexValue(s));
  }

  /** The same after leading white space. */
  lemma {:induction false} ParseIntOfHex(ws: string, sign: string, x: char, s: string, rest: string)
    requires forall i :: 0 <= i < |ws| ==> IsSpace(ws[i])
    requires sign == "" || sign == "-" || sign == "+"
    requires x == 'x' || x == 'X'
    requires |s| > 0 && AllHexDigits(s)
    requires |rest| == 0 || !IsHexDigit(rest[0])
    ensures var v: int := HexValue(s);
      ParseInt(ws + sign + ['0', x] + s + rest) == Some(if sign == "-" then -v else v)
  {
    Regroup(ws, sign, ['0', x], s, rest);
    ParseIntOfSignedHex(sign, x, s, rest);
    ParseIntSkipsSpace(ws, sign + (['0', x] + s + rest));
  }

  lemma {:induction false} Regroup(a: string, b: string, c: string, d: string, e: string)
    ensures a + b + c + d + e == a + (b + (c + d + e))
  {
    assert a + b + c + d + e == a + (b + (c + d + e));
  }

  /** `parseInt("0x1A")` is 26, not 0. */
  lemma {:induction false} ParseIntHexExample()
    ensures ParseInt("0x1A") == Some(26)
  {
    assert AllHexDigits("1A") && HexValue("1A") == 26 by {
      assert "1A"[..1] == "1" && "1"[..0] == "";
    }
    MagnitudeOfHex('x', "1A", "");
    assert ['0', 'x'] + "1A" + "" == "0x1A";
    ParseIntOfSigned("", "0x1A", 26);
    assert "" + "0x1A" == "0x1A";
  }

  /** Leading white space of any kind, line terminators included, is skipped. */
  lemma {:induction false} TrimStartSkipsSpace(ws: string, s: string)
    requires forall i :: 0 <= i < |ws| ==> IsSpace(ws[i])
    ensures TrimStart(ws + s) == TrimStart(s)
    decreases |ws|
  {
    if |ws| > 0 {
      assert (ws + s)[0] == ws[0];
      assert (ws + s)[1..] == ws[1..] + s;
      TrimStartSkipsSpace(ws[1..], s);
    } else {
      assert ws + s == s;
    }
  }

  lemma {:induction false} ParseIntSkipsSpace(ws: string, s: string)
    requires forall i :: 0 <= i < |ws| ==> IsSpace(ws[i])
    ensures ParseInt(ws + s) == ParseInt(s)
  {
    TrimStartSkipsSpace(ws, s);
  }
}
