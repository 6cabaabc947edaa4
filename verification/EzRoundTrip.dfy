/** Decoding undoes encoding: for all character content, and exactly which attribute values. */
module EzRoundTrip {
  import opened Seqs
  import opened EzUtf8
  import opened EzEntities

  function ModeOf(attr: bool): Mode { if attr then Attribute else Text }

  /** Vertical tab and form feed are not encoded, but attribute decoding makes them spaces. */
  predicate Fragile(c: char) { c as int == 0x0B || c as int == 0x0C }

  function Back(c: char, attr: bool): char { if attr && Fragile(c) then ' ' else c }

  // ----- character references of the table

  lemma TwoDigits(a: char, b: char, x: string)
    requires '0' <= a <= '9' && '0' <= b <= '9'
    ensures StrToL([a, b, ';'] + x, 10) == Num(10 * (a as int - '0' as int) + (b as int - '0' as int), 2)
  {
    var s := [a, b, ';'] + x;
    assert s[0..] == s;
    var m, n := a as int - '0' as int, b as int - '0' as int;
    assert s[1..] == [b, ';'] + x && s[1..][1..] == [';'] + x;
    assert Digits(s[1..][1..], 10, 10 * m + n) == Num(10 * m + n, 0);
    assert Digits(s[1..], 10, m) == Num(10 * m + n, 1);
    assert Digits(s, 10, 0) == Num(10 * m + n, 2);
  }

  lemma DecimalRef(a: char, b: char, x: string)
    requires '0' <= a <= '9' && '0' <= b <= '9'
    requires 0 < 10 * (a as int - '0' as int) + (b as int - '0' as int) < 0x80
    ensures var s := ['&', '#', a, b, ';'] + x;
      CharRef(s) == Some(Ref([(10 * (a as int - '0' as int) + (b as int - '0' as int)) as char], 5)) && s[5..] == x
        && StartsWith(s, "&#")
  {
    hide StrToL;
    var s := ['&', '#', a, b, ';'] + x;
    assert s[2..] == [a, b, ';'] + x;
    TwoDigits(a, b, x);
  }

  lemma OneHexDigit(a: char, x: string)
    requires Digit(a, 16) > 0
    ensures StrToL([a, ';'] + x, 16) == Num(Digit(a, 16), 1)
  {
    var s := [a, ';'] + x;
    assert s[0..] == s && s[1..] == [';'] + x;
    assert Digits(s[1..], 16, Digit(a, 16)).used == 0;
  }

  lemma HexRef(a: char, x: string)
    requires Digit(a, 16) > 0
    ensures var s := ['&', '#', 'x', a, ';'] + x;
      CharRef(s) == Some(Ref([Digit(a, 16) as char], 5)) && s[5..] == x && StartsWith(s, "&#")
  {
    hide StrToL;
    var s := ['&', '#', 'x', a, ';'] + x;
    assert s[3..] == [a, ';'] + x;
    OneHexDigit(a, x);
  }

  /** A reference, then the rest. */
  lemma RefDecodes(mode: Mode, s: string)
    requires mode != Cdata && s != "" && StartsWith(s, "&#") && CharRef(s).Some?
    ensures DecodeFrom(mode, s) == CharRef(s).value.bytes + DecodeFrom(mode, s[CharRef(s).value.len..])
  {
    hide DecodeFrom, CharRef;
    DecodeStep(mode, s);
  }

  /** The two-step expansion of the predefined entities: name to reference, reference to character. */
  lemma TwoSteps(mode: Mode, name: string, a: char, b: char, x: string)
    requires mode != Cdata && '0' <= a <= '9' && '0' <= b <= '9'
    requires 0 < 10 * (a as int - '0' as int) + (b as int - '0' as int) < 0x80
    requires 4 <= |name| && name[0] == '&' && name[1] != '#'
      && Entity(name + x) == Some(Ref(['&', '#', a, b, ';'], |name|))
    ensures DecodeFrom(mode, name + x) ==
      [(10 * (a as int - '0' as int) + (b as int - '0' as int)) as char] + DecodeFrom(mode, x)
  {
    hide DecodeFrom, CharRef, Entity;
    var s := name + x;
    assert s[0] == '&' && s[1] == name[1];
    NotStarts(s, "&#", 1);
    DecodeStep(mode, s);
    assert s[|name|..] == x;
    var t := ['&', '#', a, b, ';'] + x;
    DecimalRef(a, b, x);
    RefDecodes(mode, t);
  }

  lemma NotStarts(s: string, p: string, i: nat)
    requires i < |s| && i < |p| && s[i] != p[i]
    ensures !StartsWith(s, p)
  {
    assert |p| <= |s| ==> s[..|p|][i] == s[i];
  }

  lemma Starts(name: string, x: string) returns (s: string)
    requires name != ""
    ensures s == ("&" + name + x)[1..] && StartsWith(s, name) && forall i :: 0 <= i < |name| ==> s[i] == name[i]
    ensures |s| >= |name| && ("&" + name + x)[1 + |name|..] == x
  {
    s := name + x;
    assert ("&" + name + x)[1..] == s;
  }

  lemma EntityNames(x: string)
    ensures Entity("&amp;" + x) == Some(Ref("&#38;", 5))
    ensures Entity("&lt;" + x) == Some(Ref("&#60;", 4))
    ensures Entity("&gt;" + x) == Some(Ref("&#62;", 4))
    ensures Entity("&quot;" + x) == Some(Ref("&#34;", 6))
  {
    assert "&" + "amp;" == "&amp;" && "&" + "lt;" == "&lt;" && "&" + "gt;" == "&gt;" && "&" + "quot;" == "&quot;";
    var a := Starts("amp;", x);
    NotStarts(a, "lt;", 0);
    NotStarts(a, "gt;", 0);
    NotStarts(a, "quot;", 0);
    NotStarts(a, "apos;", 1);
    var l := Starts("lt;", x);
    var g := Starts("gt;", x);
    NotStarts(g, "lt;", 0);
    var q := Starts("quot;", x);
    NotStarts(q, "lt;", 0);
    NotStarts(q, "gt;", 0);
  }

  // ----- one character

  /** Whatever follows, the code of a character decodes to that character. */
  lemma CharDecodes(c: char, attr: bool, x: string)
    ensures DecodeFrom(ModeOf(attr), EncodeChar(c, attr) + x) == [Back(c, attr)] + DecodeFrom(ModeOf(attr), x)
  {
    var mode := ModeOf(attr);
    if c in "&<>" || (attr && c == '"') {
      NamedDecodes(c, attr, x);
    } else if c == '\r' || (attr && c in "\n\t") {
      HexDecodes(c, attr, x);
    } else {
      PlainDecodes(c, attr, x);
    }
  }

  lemma NamedDecodes(c: char, attr: bool, x: string)
    requires c in "&<>" || (attr && c == '"')
    ensures DecodeFrom(ModeOf(attr), EncodeChar(c, attr) + x) == [c] + DecodeFrom(ModeOf(attr), x)
  {
    hide DecodeFrom, Entity;
    var mode := ModeOf(attr);
    EntityNames(x);
    if c == '&' {
      TwoSteps(mode, "&amp;", '3', '8', x);
    } else if c == '<' {
      TwoSteps(mode, "&lt;", '6', '0', x);
    } else if c == '>' {
      TwoSteps(mode, "&gt;", '6', '2', x);
    } else {
      TwoSteps(mode, "&quot;", '3', '4', x);
    }
  }

  lemma HexDecodes(c: char, attr: bool, x: string)
    requires c == '\r' || (attr && c in "\n\t")
    ensures DecodeFrom(ModeOf(attr), EncodeChar(c, attr) + x) == [c] + DecodeFrom(ModeOf(attr), x)
  {
    hide DecodeFrom, CharRef;
    var d := if c == '\r' then 'D' else if c == '\n' then 'A' else '9';
    HexRef(d, x);
    assert EncodeChar(c, attr) == ['&', '#', 'x', d, ';'];
    RefDecodes(ModeOf(attr), ['&', '#', 'x', d, ';'] + x);
  }

  lemma PlainDecodes(c: char, attr: bool, x: string)
    requires EncodeChar(c, attr) == [c] && c != '&' && c != '\r' && !(attr && c in "\n\t")
    ensures DecodeFrom(ModeOf(attr), [c] + x) == [Back(c, attr)] + DecodeFrom(ModeOf(attr), x)
  {
    hide DecodeFrom, CharRef, Entity;
    var s := [c] + x;
    assert s[1..] == x;
    NotStarts(s, "&#", 0);
    DecodeStep(ModeOf(attr), s);
  }

  // ----- whole strings

  function BackAll(s: string, attr: bool): (r: string)
    ensures |r| == |s| && forall i :: 0 <= i < |s| ==> r[i] == Back(s[i], attr)
  {
    seq(|s|, i requires 0 <= i < |s| => Back(s[i], attr))
  }

  lemma {:induction false} EncodedDecodes(s: string, attr: bool)
    ensures DecodeFrom(ModeOf(attr), Encode(s, attr)) == BackAll(UpToNul(s), attr)
  {
    hide DecodeFrom, EncodeChar;
    if s == "" || s[0] == '\0' {
      DecodeNothing(ModeOf(attr));
    } else {
      EncodedDecodes(s[1..], attr);
      CharDecodes(s[0], attr, Encode(s[1..], attr));
      assert BackAll(UpToNul(s), attr) == [Back(s[0], attr)] + BackAll(UpToNul(s[1..]), attr);
    }
  }

  /** Without carriage returns the first pass changes nothing. */
  lemma {:induction false} LinesKeep(s: string)
    requires '\r' !in s
    ensures Lines(s) == Some(s)
  {
    if s != "" {
      assert s[0] != '\r' && '\r' !in s[1..];
      LinesKeep(s[1..]);
      assert s == [s[0]] + s[1..];
    }
  }

  lemma {:induction false} EncodedHasNoReturn(s: string, attr: bool)
    ensures '\r' !in Encode(s, attr)
  {
    hide EncodeChar;
    if s != "" && s[0] != '\0' {
      EncodedHasNoReturn(s[1..], attr);
      CodeHasNoReturn(s[0], attr);
    }
  }

  lemma CodeHasNoReturn(c: char, attr: bool)
    ensures '\r' !in EncodeChar(c, attr)
  {
  }

  /** Character content: decoding the encoding gives every text back, up to its first NUL. */
  lemma TextRoundTrip(s: string)
    ensures Decode(Text, Encode(s, false)) == Some(UpToNul(s))
  {
    hide DecodeFrom, Encode, Lines;
    EncodedHasNoReturn(s, false);
    LinesKeep(Encode(s, false));
    EncodedDecodes(s, false);
    assert BackAll(UpToNul(s), false) == UpToNul(s);
  }

  /** Attribute values come back exactly when they hold no vertical tab and no form feed. */
  lemma AttributeRoundTripExactly(s: string)
    ensures Decode(Attribute, Encode(s, true)) == Some(BackAll(UpToNul(s), true))
    ensures Decode(Attribute, Encode(s, true)) == Some(UpToNul(s))
       <==> forall i :: 0 <= i < |UpToNul(s)| ==> !Fragile(UpToNul(s)[i])
  {
    hide DecodeFrom, Encode, Lines;
    EncodedHasNoReturn(s, true);
    LinesKeep(Encode(s, true));
    EncodedDecodes(s, true);
    var u := UpToNul(s);
    if BackAll(u, true) == u {
      forall i | 0 <= i < |u| ensures !Fragile(u[i]) {
        assert BackAll(u, true)[i] == u[i];
      }
    }
  }

  lemma {:induction false} NoNul(s: string)
    requires '\0' !in s
    ensures UpToNul(s) == s
  {
    if s != "" {
      assert s[0] != '\0' && '\0' !in s[1..];
      NoNul(s[1..]);
    }
  }

  /** Characters of XML 1.0, section 2.2, that fit a byte: none of them is lost in either mode. */
  predicate XmlByte(c: char) { c == '\t' || c == '\n' || c == '\r' || c >= ' ' }

  lemma XmlRoundTrip(s: string, attr: bool)
    requires forall i :: 0 <= i < |s| ==> XmlByte(s[i])
    ensures Decode(ModeOf(attr), Encode(s, attr)) == Some(s)
  {
    hide DecodeFrom, Encode, Lines;
    NoNul(s);
    if attr {
      AttributeRoundTripExactly(s);
    } else {
      TextRoundTrip(s);
    }
  }

  // ----- the first pass

  /** Ending lines runs past the end of the text exactly when the text ends with CR or CR LF. */
  lemma {:induction false} LinesFailExactly(s: string)
    ensures Lines(s).None? <==>
      (|s| >= 1 && s[|s| - 1] == '\r') || (|s| >= 2 && s[|s| - 2] == '\r' && s[|s| - 1] == '\n')
    decreases |s|
  {
    if s == "" {
    } else if s[0] != '\r' {
      LinesFailExactly(s[1..]);
    } else {
      var rest := if |s| > 1 && s[1] == '\n' then s[2..] else s[1..];
      if rest != "" {
        LinesFailExactly(rest);
      }
    }
  }
}
