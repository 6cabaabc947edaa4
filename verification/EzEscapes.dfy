/** What the encoder of ezxml may and may not put out, and what every numeric reference decodes to. */
module EzEscapes {
  import opened Seqs
  import opened EzUtf8
  import opened EzEntities
  import opened EzRoundTrip

  /** Characters that may not stand in the output: the ones a parser would take for markup, or change. */
  predicate Unsafe(c: char, attr: bool) {
    c == '<' || c == '>' || c == '\r' || (attr && (c == '"' || c == '\n' || c == '\t'))
  }

  /** What may follow an ampersand of the output. */
  const REFERENCES: seq<string> := ["amp;", "lt;", "gt;", "quot;", "#xA;", "#x9;", "#xD;"]

  ghost predicate StartsReference(s: string, i: nat) {
    i < |s| && exists k :: 0 <= k < |REFERENCES| && StartsWith(s[i + 1..], REFERENCES[k])
  }

  ghost predicate Escaped(s: string, attr: bool) {
    && (forall i :: 0 <= i < |s| ==> !Unsafe(s[i], attr))
    && (forall i: nat :: i < |s| && s[i] == '&' ==> StartsReference(s, i))
  }

  lemma StartsLonger(s: string, p: string, x: string)
    requires StartsWith(s, p)
    ensures StartsWith(s + x, p)
  {
    assert (s + x)[..|p|] == s[..|p|];
  }

  /** The code of one character is escaped on its own. */
  lemma CodeIsEscaped(c: char, attr: bool)
    ensures Escaped(EncodeChar(c, attr), attr)
  {
    var s := EncodeChar(c, attr);
    forall i: nat | i < |s| && s[i] == '&' ensures StartsReference(s, i) {
      var k := if c == '&' then 0 else if c == '<' then 1 else if c == '>' then 2 else if c == '"' then 3
        else if c == '\n' then 4 else if c == '\t' then 5 else 6;
      assert i == 0 && s[1..] == REFERENCES[k];
      assert StartsWith(s[i + 1..], REFERENCES[k]);
    }
  }

  lemma EscapedAppend(a: string, b: string, attr: bool)
    requires Escaped(a, attr) && Escaped(b, attr)
    ensures Escaped(a + b, attr)
  {
    forall i: nat | i < |a + b| && (a + b)[i] == '&' ensures StartsReference(a + b, i) {
      if i < |a| {
        assert StartsReference(a, i);
        var k :| 0 <= k < |REFERENCES| && StartsWith(a[i + 1..], REFERENCES[k]);
        StartsLonger(a[i + 1..], REFERENCES[k], b);
        assert (a + b)[i + 1..] == a[i + 1..] + b;
      } else {
        assert StartsReference(b, i - |a|);
        assert (a + b)[i + 1..] == b[i - |a| + 1..];
      }
    }
  }

  /** The output holds no angle bracket and no carriage return, in attributes no quote, newline or tab
      either, and every ampersand in it starts one of the references the encoder writes. */
  lemma {:induction false} EncodedIsEscaped(s: string, attr: bool)
    ensures Escaped(Encode(s, attr), attr)
  {
    hide EncodeChar, Escaped;
    if s == "" || s[0] == '\0' {
      NothingEscaped(attr);
    } else {
      EncodedIsEscaped(s[1..], attr);
      CodeIsEscaped(s[0], attr);
      EscapedAppend(EncodeChar(s[0], attr), Encode(s[1..], attr), attr);
    }
  }

  lemma NothingEscaped(attr: bool)
    ensures Escaped("", attr)
  {
  }

  /** A text stays as it is exactly when it has no NUL, no ampersand and nothing unsafe. */
  lemma PlainExactly(s: string, attr: bool)
    ensures Encode(s, attr) == s <==> forall i :: 0 <= i < |s| ==> s[i] != '\0' && s[i] != '&' && !Unsafe(s[i], attr)
  {
    hide Encode, Unsafe, StartsReference;
    if Encode(s, attr) == s {
      EncodedIsEscaped(s, attr);
      EncodedNoNul(s, attr);
      NoNul(s);
      AmpersandCosts(s, attr);
    } else if forall i :: 0 <= i < |s| ==> s[i] != '\0' && s[i] != '&' && !Unsafe(s[i], attr) {
      PlainStays(s, attr);
    }
  }

  lemma {:induction false} PlainStays(s: string, attr: bool)
    requires forall i :: 0 <= i < |s| ==> s[i] != '\0' && s[i] != '&' && !Unsafe(s[i], attr)
    ensures Encode(s, attr) == s
  {
    if s != "" {
      PlainStays(s[1..], attr);
      assert s == [s[0]] + s[1..];
    }
  }

  /** No code is shorter than its character, and that of an ampersand is longer. */
  lemma {:induction false} AmpersandCosts(s: string, attr: bool)
    ensures |Encode(s, attr)| >= |UpToNul(s)| && ('&' in UpToNul(s) ==> |Encode(s, attr)| > |UpToNul(s)|)
  {
    if s != "" && s[0] != '\0' {
      AmpersandCosts(s[1..], attr);
    }
  }

  lemma {:induction false} EncodedNoNul(s: string, attr: bool)
    ensures '\0' !in Encode(s, attr)
  {
    if s != "" && s[0] != '\0' {
      EncodedNoNul(s[1..], attr);
    }
  }

  // ----- numeric references

  predicate Numeral(s: string, base: nat) { s != "" && forall i :: 0 <= i < |s| ==> Digit(s[i], base) >= 0 }

  /** The number a digit string stands for. */
  function Value(s: string, base: nat): int {
    if s == "" then 0 else Value(s[..|s| - 1], base) * base + Digit(s[|s| - 1], base)
  }

  function Power(base: nat, n: nat): nat { if n == 0 then 1 else base * Power(base, n - 1) }

  lemma {:induction false} ValueCons(s: string, base: nat)
    requires s != ""
    ensures Value(s, base) == Digit(s[0], base) * Power(base, |s| - 1) + Value(s[1..], base)
  {
    if |s| > 1 {
      var k := |s| - 1;
      ValueCons(s[..k], base);
      assert s[..k][1..] == s[1..][..k - 1];
      Step(Digit(s[0], base), Power(base, k - 1), base, Value(s[..k][1..], base));
    } else {
      assert s[..0] == "" && s[1..] == "";
    }
  }

  lemma Step(d: int, p: int, base: int, v: int)
    ensures (d * p + v) * base == d * (base * p) + v * base
  {
    assert d * p * base == d * (base * p);
  }

  lemma {:induction false} DigitsRead(s: string, base: nat, acc: nat, y: string)
    requires forall i :: 0 <= i < |s| ==> Digit(s[i], base) >= 0
    requires y == "" || Digit(y[0], base) < 0
    ensures Digits(s + y, base, acc) == Num(acc * Power(base, |s|) + Value(s, base), |s|)
  {
    hide Digit;
    if s == "" {
      assert s + y == y;
    } else {
      assert (s + y)[1..] == s[1..] + y;
      var next := acc * base + Digit(s[0], base);
      DigitsRead(s[1..], base, next, y);
      ValueCons(s, base);
      Spread(acc, base, Digit(s[0], base), Power(base, |s| - 1));
    }
  }

  lemma Spread(acc: int, base: int, d: int, p: int)
    ensures (acc * base + d) * p == acc * (base * p) + d * p
  {
    assert acc * base * p == acc * (base * p);
  }

  lemma NumeralIsPlain(s: string, base: nat, y: string)
    requires Numeral(s, base) && (base == 10 || base == 16)
    requires y == "" || (y[0] != 'x' && y[0] != 'X')
    ensures SkipSpace(s + y) == 0 && !HasSign((s + y)[0..]) && !HasHexPrefix((s + y)[0..])
  {
    assert (s + y)[0] == s[0] && (s + y)[0..] == s + y;
    assert Digit(s[0], base) >= 0;
    if |s| > 1 {
      assert Digit(s[1], base) >= 0 && (s + y)[1] == s[1];
    } else if |s + y| > 1 {
      assert (s + y)[1] == y[0];
    }
  }

  /** strtol stops at any character that is no digit. */
  lemma NumeralRead(s: string, base: nat, y: string)
    requires Numeral(s, base) && (base == 10 || base == 16)
    requires y == "" || (Digit(y[0], base) < 0 && y[0] != 'x' && y[0] != 'X')
    ensures StrToL(s + y, base) == Num(Clamped(Value(s, base)), |s|)
  {
    hide SkipSpace, HasSign, HasHexPrefix, Digits, Value, Power, Digit;
    NumeralIsPlain(s, base, y);
    NumeralDigits(s, base);
    DigitsRead(s, base, 0, y);
    assert (s + y)[0..] == s + y;
  }

  lemma DelimiterIsNoDigit(y: string, base: nat)
    requires y == "" || y[0] == ';'
    ensures y == "" || Digit(y[0], base) < 0
  {
  }

  lemma NumeralDigits(s: string, base: nat)
    requires Numeral(s, base)
    ensures s != "" && forall i :: 0 <= i < |s| ==> Digit(s[i], base) >= 0
  {
  }

  /** Every numeric reference, decimal or hexadecimal, with any leading zeros and in either case, is the
      character of its number: one byte below 128, else the bytes of section 3 of RFC 3629. */
  lemma ReferenceDecodes(mode: Mode, digits: string, hex: bool, x: string)
    requires mode != Cdata && Numeral(digits, if hex then 16 else 10)
      && 0 < Value(digits, if hex then 16 else 10) < 0x11_0000
    ensures var n := Value(digits, if hex then 16 else 10);
      DecodeFrom(mode, "&#" + (if hex then "x" else "") + digits + ";" + x)
        == (if n < 0x80 then [n as char] else Chars(Standard(n))) + DecodeFrom(mode, x)
  {
    hide StrToL, DecodeFrom, Written, Standard, Value, Chars, Numeral, Digit;
    var base := if hex then 16 else 10;
    var n := Value(digits, base);
    var s := "&#" + (if hex then "x" else "") + digits + ";" + x;
    var off := if hex then 3 else 2;
    DelimiterIsNoDigit(";" + x, base);
    NumeralRead(digits, base, ";" + x);
    assert s[off..] == digits + (";" + x);
    FirstDigit(digits, base);
    assert s[0] == '&' && s[1] == '#' && s[..2] == "&#" && s[2] == if hex then 'x' else digits[0];
    assert s[off + |digits|] == ';' && s[off + |digits| + 1..] == x;
    WrittenIsStandard(n);
    RefDecodes(mode, s);
  }

  lemma FirstDigit(digits: string, base: nat)
    requires Numeral(digits, base)
    ensures digits != "" && digits[0] != 'x'
  {
    assert Digit(digits[0], base) >= 0;
  }

  /** The fifth predefined entity, which the encoder does not write. */
  lemma ApostropheName(x: string)
    ensures Entity("&apos;" + x) == Some(Ref("&#39;", 6))
  {
    assert "&" + "apos;" == "&apos;";
    var p := Starts("apos;", x);
    NotStarts(p, "lt;", 0);
    NotStarts(p, "gt;", 0);
    NotStarts(p, "quot;", 0);
  }

  /** The five predefined entities of section 4.6 of XML 1.0 decode to their characters. */
  lemma PredefinedDecode(mode: Mode, x: string)
    requires mode != Cdata
    ensures DecodeFrom(mode, "&amp;" + x) == "&" + DecodeFrom(mode, x)
    ensures DecodeFrom(mode, "&lt;" + x) == "<" + DecodeFrom(mode, x)
    ensures DecodeFrom(mode, "&gt;" + x) == ">" + DecodeFrom(mode, x)
    ensures DecodeFrom(mode, "&quot;" + x) == "\"" + DecodeFrom(mode, x)
    ensures DecodeFrom(mode, "&apos;" + x) == "'" + DecodeFrom(mode, x)
  {
    hide DecodeFrom, Entity;
    EntityNames(x);
    ApostropheName(x);
    TwoSteps(mode, "&amp;", '3', '8', x);
    TwoSteps(mode, "&lt;", '6', '0', x);
    TwoSteps(mode, "&gt;", '6', '2', x);
    TwoSteps(mode, "&quot;", '3', '4', x);
    TwoSteps(mode, "&apos;", '3', '9', x);
  }
}
