/** What the decoder of ezxml leaves alone: line ends, plain text, cdata and ampersands that name nothing. */
module EzLiterals {
  import opened Seqs
  import opened EzUtf8
  import opened EzEntities
  import opened EzRoundTrip
  import opened EzEscapes

  // ----- line ends

  /** The first pass as section 2.11 of XML 1.0 has it: text up to the first carriage return stays, the return
      becomes a newline together with a newline behind it, and the rest follows. */
  lemma LineEnds(a: string, b: string)
    requires '\r' !in a && b != ""
    ensures Lines(a + "\r\n" + b) == Prepend(a + "\n", Lines(b))
    ensures b[0] != '\n' ==> Lines(a + "\r" + b) == Prepend(a + "\n", Lines(b))
  {
    hide Lines, Prepend;
    OneLineEnd(b);
    BeforeReturn(a, "\r\n" + b);
    BeforeReturn(a, "\r" + b);
    PrependTwice(a, "\n", Lines(b));
    assert a + ("\r\n" + b) == a + "\r\n" + b && a + ("\r" + b) == a + "\r" + b;
  }

  lemma OneLineEnd(b: string)
    requires b != ""
    ensures Lines("\r\n" + b) == Prepend("\n", Lines(b))
    ensures b[0] != '\n' ==> Lines("\r" + b) == Prepend("\n", Lines(b))
  {
    hide Prepend;
    var s, t := "\r\n" + b, "\r" + b;
    assert s[0] == '\r' && s[1] == '\n' && s[2..] == b;
    assert t[0] == '\r' && t[1..] == b && t[1] == b[0];
  }

  lemma {:induction false} BeforeReturn(a: string, x: string)
    requires '\r' !in a
    ensures Lines(a + x) == Prepend(a, Lines(x))
  {
    hide Prepend;
    if a == "" {
      assert a + x == x;
      PrependTwice("", "", Lines(x));
    } else {
      assert '\r' !in a[1..] by {
        assert forall c :: c in a[1..] ==> c in a;
      }
      assert a[0] != '\r' && (a + x)[0] == a[0] && (a + x)[1..] == a[1..] + x;
      BeforeReturn(a[1..], x);
      PrependTwice([a[0]], a[1..], Lines(x));
      assert [a[0]] + a[1..] == a;
    }
  }

  // ----- literals

  /** White space in attribute values is a space. */
  function Blanked(mode: Mode, s: string): (r: string)
    ensures |r| == |s| && forall i :: 0 <= i < |s| ==> r[i] == if mode == Attribute && IsSpace(s[i]) then ' ' else s[i]
  {
    seq(|s|, i requires 0 <= i < |s| => if mode == Attribute && IsSpace(s[i]) then ' ' else s[i])
  }

  lemma BlankedFirst(mode: Mode, s: string)
    requires s != ""
    ensures Blanked(mode, s) == (if mode == Attribute && IsSpace(s[0]) then " " else [s[0]]) + Blanked(mode, s[1..])
  {
  }

  /** Text without an ampersand, and all of a cdata section, keeps its characters; only in attribute values
      does white space become a space. */
  lemma {:induction false} LiteralStays(mode: Mode, s: string, x: string)
    requires mode == Cdata || '&' !in s
    ensures DecodeFrom(mode, s + x) == Blanked(mode, s) + DecodeFrom(mode, x)
  {
    hide DecodeFrom, CharRef, Entity, IsSpace, Blanked;
    if s == "" {
      assert s + x == x && Blanked(mode, s) == "";
    } else {
      assert (s + x)[0] == s[0] && (s + x)[1..] == s[1..] + x;
      assert mode == Cdata || '&' !in s[1..] by {
        assert forall c :: c in s[1..] ==> c in s;
      }
      assert s[0] == '&' ==> mode == Cdata;
      OneStep(mode, s + x);
      LiteralStays(mode, s[1..], x);
      BlankedFirst(mode, s);
    }
  }

  /** One character is passed over where no reference starts. */
  lemma OneStep(mode: Mode, s: string)
    requires s != ""
    requires mode == Cdata || s[0] != '&' || if StartsWith(s, "&#") then CharRef(s).None? else Entity(s).None?
    ensures DecodeFrom(mode, s) ==
      (if mode == Attribute && IsSpace(s[0]) then " " else [s[0]]) + DecodeFrom(mode, s[1..])
  {
    hide DecodeFrom, CharRef, Entity, IsSpace;
    DecodeStep(mode, s);
    assert StartsWith(s, "&#") ==> s[0] == '&';
  }

  lemma AmpersandStays(mode: Mode, x: string)
    requires mode == Cdata || if StartsWith("&" + x, "&#") then CharRef("&" + x).None? else Entity("&" + x).None?
    ensures DecodeFrom(mode, "&" + x) == "&" + DecodeFrom(mode, x)
  {
    hide DecodeFrom, CharRef, Entity;
    assert ("&" + x)[0] == '&' && ("&" + x)[1..] == x;
    OneStep(mode, "&" + x);
  }

  const NAMES: seq<string> := ["lt;", "gt;", "quot;", "apos;", "amp;"]

  /** An ampersand that starts neither a numeric reference nor one of the five names stays. */
  lemma UnknownStays(mode: Mode, x: string)
    requires !StartsWith(x, "#") && forall k :: 0 <= k < |NAMES| ==> !StartsWith(x, NAMES[k])
    ensures DecodeFrom(mode, "&" + x) == "&" + DecodeFrom(mode, x)
  {
    hide DecodeFrom;
    var s := "&" + x;
    assert s[1..] == x;
    assert NAMES[0] == "lt;" && NAMES[1] == "gt;" && NAMES[2] == "quot;" && NAMES[3] == "apos;" && NAMES[4] == "amp;";
    assert Entity(s).None?;
    assert x != "" ==> s[1] == x[0] && s[..2] == "&" + x[..1];
    assert !StartsWith(s, "&#") by {
      assert "&#"[1] == '#' && "#" == ['#'];
      assert x != "" ==> x[..1] == [x[0]];
    }
    AmpersandStays(mode, x);
  }

  /** A number that is zero, or not closed by a semicolon, leaves its ampersand in place. */
  lemma BrokenStays(mode: Mode, digits: string, hex: bool, y: string)
    requires Numeral(digits, if hex then 16 else 10)
    requires y == "" || (Digit(y[0], if hex then 16 else 10) < 0 && y[0] != 'x' && y[0] != 'X')
    requires (y == "" || y[0] != ';') || Value(digits, if hex then 16 else 10) == 0
    ensures var x := "#" + (if hex then "x" else "") + digits + y;
      DecodeFrom(mode, "&" + x) == "&" + DecodeFrom(mode, x)
  {
    hide StrToL, DecodeFrom, Written, Value, Chars, Numeral, Digit;
    var base := if hex then 16 else 10;
    var x := "#" + (if hex then "x" else "") + digits + y;
    var s := "&" + x;
    var off := if hex then 3 else 2;
    NumeralRead(digits, base, y);
    FirstDigit(digits, base);
    assert s[off..] == digits + y;
    assert s[..2] == "&#" && s[2] == if hex then 'x' else digits[0];
    assert y != "" ==> s[off + |digits|] == y[0];
    assert Clamped(0) == 0;
    assert CharRef(s).None?;
    AmpersandStays(mode, x);
  }
}
