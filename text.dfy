/**
  The handful of Python string operations the proxy manager relies on:
  `str.split(sep)`, `str.strip()`, `str.lower()`, `str(int)` and `int(str)`,
  each with the inverse or characterisation that pins down what it computes.
*/
module Text {

  /** `str.split(sep)` for a non-empty separator: scans left to right and cuts at
      every non-overlapping occurrence of `sep`; there is always at least one piece. */
  function Split(s: string, sep: string): (pieces: seq<string>)
    requires |sep| > 0
    ensures |pieces| >= 1
    decreases |s|
  {
    if |s| < |sep| then [s]
    else if s[..|sep|] == sep then [""] + Split(s[|sep|..], sep)
    else
      var rest := Split(s[1..], sep);
      [[s[0]] + rest[0]] + rest[1..]
  }

  /** `sep.join(pieces)`: the inverse of `Split`. */
  function Join(pieces: seq<string>, sep: string): string
    requires |pieces| >= 1
    decreases |pieces|
  {
    if |pieces| == 1 then pieces[0] else pieces[0] + sep + Join(pieces[1..], sep)
  }

  /** `sep` occurs in `s` starting at index `i`. */
  predicate OccursAt(s: string, sep: string, i: int)
  {
    0 <= i <= |s| - |sep| && s[i..i + |sep|] == sep
  }

  /** `s` holds no occurrence of `sep` at any position. */
  ghost predicate NoOccurrence(s: string, sep: string)
  {
    forall i :: !OccursAt(s, sep, i)
  }

  /** `sub in s` for strings: `sub` occurs at some position of `s`. */
  function Contains(s: string, sub: string): (b: bool)
    ensures b <==> exists i :: OccursAt(s, sub, i)
    decreases |s|
  {
    if |s| < |sub| then false
    else if s[..|sub|] == sub then assert OccursAt(s, sub, 0); true
    else
      ContainsShift(s, sub);
      Contains(s[1..], sub)
  }

  /** Past the first position, `sub` occurs in `s` where it occurs in `s[1..]`, shifted by one. */
  lemma ContainsShift(s: string, sub: string)
    requires |s| >= 1 && !OccursAt(s, sub, 0)
    ensures (exists i :: OccursAt(s, sub, i)) <==> (exists i :: OccursAt(s[1..], sub, i))
  {
    if i :| OccursAt(s, sub, i) {
      assert s[1..][i - 1..i - 1 + |sub|] == s[i..i + |sub|];
      assert OccursAt(s[1..], sub, i - 1);
    }
    if i :| OccursAt(s[1..], sub, i) {
      assert s[1..][i..i + |sub|] == s[i + 1..i + 1 + |sub|];
      assert OccursAt(s, sub, i + 1);
    }
  }

  lemma {:induction false} JoinSplit(s: string, sep: string)
    requires |sep| > 0
    ensures Join(Split(s, sep), sep) == s
    decreases |s|
  {
    if |s| < |sep| {
    } else if s[..|sep|] == sep {
      var rest := Split(s[|sep|..], sep);
      JoinSplit(s[|sep|..], sep);
      assert Split(s, sep) == [""] + rest;
      assert ([""] + rest)[1..] == rest;
      assert s == sep + s[|sep|..];
    } else {
      var rest := Split(s[1..], sep);
      JoinSplit(s[1..], sep);
      assert Split(s, sep) == [[s[0]] + rest[0]] + rest[1..];
      JoinPrepend([s[0]], rest, sep);
      assert s == [s[0]] + s[1..];
    }
  }

  /** Gluing text onto the first piece glues it onto the joined string. */
  lemma JoinPrepend(x: string, pieces: seq<string>, sep: string)
    requires |pieces| >= 1
    ensures Join([x + pieces[0]] + pieces[1..], sep) == x + Join(pieces, sep)
  {
    var glued := [x + pieces[0]] + pieces[1..];
    assert glued[1..] == pieces[1..];
  }

  /** A string with no occurrence of the separator splits into itself alone. */
  lemma {:induction false} SplitWithoutSeparator(s: string, sep: string)
    requires |sep| > 0 && NoOccurrence(s, sep)
    ensures Split(s, sep) == [s]
    decreases |s|
  {
    if |s| >= |sep| {
      assert !OccursAt(s, sep, 0);
      assert s[..|sep|] == s[0..|sep|];
      var t := s[1..];
      forall i ensures !OccursAt(t, sep, i) {
        assert !OccursAt(s, sep, i + 1);
        if 0 <= i <= |t| - |sep| {
          assert t[i..i + |sep|] == s[i + 1..i + 1 + |sep|];
        }
      }
      SplitWithoutSeparator(t, sep);
      assert [s[0]] + t == s;
    }
  }

  /** When `head` holds no character equal to the separator's first one, the first
      cut falls exactly after `head`. */
  lemma {:induction false} SplitAfterHead(head: string, sep: string, tail: string)
    requires |sep| > 0
    requires forall i :: 0 <= i < |head| ==> head[i] != sep[0]
    ensures Split(head + sep + tail, sep) == [head] + Split(tail, sep)
    decreases |head|
  {
    var s := head + sep + tail;
    if |head| == 0 {
      assert s == sep + tail;
      assert s[..|sep|] == sep && s[|sep|..] == tail;
    } else {
      assert s[0] == head[0] && s[..|sep|][0] == s[0];
      assert s[..|sep|] != sep;
      assert s[1..] == head[1..] + sep + tail;
      SplitAfterHead(head[1..], sep, tail);
      assert [s[0]] + head[1..] == head;
    }
  }

  /** `a + ":" + b` with colon-free `a` and `b` splits on ":" into exactly `[a, b]`. */
  lemma SplitPair(a: string, b: string)
    requires ':' !in a && ':' !in b
    ensures Split(a + ":" + b, ":") == [a, b]
  {
    SplitAfterHead(a, ":", b);
    assert NoOccurrence(b, ":") by {
      forall i ensures !OccursAt(b, ":", i) {
        if 0 <= i <= |b| - 1 {
          assert b[i..i + 1][0] == b[i];
        }
      }
    }
    SplitWithoutSeparator(b, ":");
  }

  /** For a one-character separator, no piece contains it. */
  lemma {:induction false} SplitPiecesAvoidSeparator(s: string, c: char)
    ensures forall j :: 0 <= j < |Split(s, [c])| ==> c !in Split(s, [c])[j]
    decreases |s|
  {
    if |s| >= 1 {
      SplitPiecesAvoidSeparator(s[1..], c);
      if s[..1] != [c] {
        assert s[..1][0] == s[0];
      }
    }
  }

  /** `str.isspace()` on one character: the 29 characters Python classes as
      whitespace, among them the ASCII separators \x1c-\x1f. */
  predicate IsSpace(c: char)
  {
    || c == ' ' || '\t' <= c <= '\r' || IsSeparator(c)
    || c == '\U{0085}' || c == '\U{00A0}' || c == '\U{1680}' || '\U{2000}' <= c <= '\U{200A}'
    || c == '\U{2028}' || c == '\U{2029}' || c == '\U{202F}' || c == '\U{205F}' || c == '\U{3000}'
  }

  /** The file, group, record and unit separators \x1c-\x1f. */
  predicate IsSeparator(c: char)
  {
    '\U{001C}' <= c <= '\U{001F}'
  }

  /** Which characters a strip removes: `str.strip()` removes every whitespace
      character, while `int()` ignores all of them around its digits except the
      four separators, which make it raise. */
  datatype Whitespace = StrWhitespace | IntWhitespace
  {
    predicate Has(c: char)
    {
      IsSpace(c) && (IntWhitespace? ==> !IsSeparator(c))
    }
  }

  /** `str.lstrip()`: `s` without its leading whitespace. */
  function LStrip(s: string, ws: Whitespace := StrWhitespace): string
    decreases |s|
  {
    if |s| > 0 && ws.Has(s[0]) then LStrip(s[1..], ws) else s
  }

  /** `str.rstrip()`: `s` without its trailing whitespace. */
  function RStrip(s: string, ws: Whitespace := StrWhitespace): string
    decreases |s|
  {
    if |s| > 0 && ws.Has(s[|s| - 1]) then RStrip(s[..|s| - 1], ws) else s
  }

  /** `str.strip()`: `s` without leading and trailing whitespace. */
  function Strip(s: string, ws: Whitespace := StrWhitespace): string
  {
    RStrip(LStrip(s, ws), ws)
  }

  /** `lstrip()` gives the longest suffix of `s` that does not start with whitespace. */
  lemma {:induction false} LStripCharacterised(s: string, ws: Whitespace)
    ensures var r := LStrip(s, ws);
            && |r| <= |s| && r == s[|s| - |r|..]
            && (forall i :: 0 <= i < |s| - |r| ==> ws.Has(s[i]))
            && (r != [] ==> !ws.Has(r[0]))
    decreases |s|
  {
    if |s| > 0 && ws.Has(s[0]) {
      LStripCharacterised(s[1..], ws);
    }
  }

  /** `rstrip()` gives the longest prefix of `s` that does not end with whitespace. */
  lemma {:induction false} RStripCharacterised(s: string, ws: Whitespace)
    ensures var r := RStrip(s, ws);
            && |r| <= |s| && r == s[..|r|]
            && (forall i :: |r| <= i < |s| ==> ws.Has(s[i]))
            && (r != [] ==> !ws.Has(r[|r| - 1]))
    decreases |s|
  {
    if |s| > 0 && ws.Has(s[|s| - 1]) {
      RStripCharacterised(s[..|s| - 1], ws);
    }
  }

  /** `strip()` gives the infix of `s` that starts after its leading whitespace and
      neither starts nor ends with whitespace; everything outside it is whitespace. */
  lemma StripCharacterised(s: string, ws: Whitespace := StrWhitespace)
    ensures var r := Strip(s, ws);
            var lo := |s| - |LStrip(s, ws)|;
            && (r != [] ==> !ws.Has(r[0]) && !ws.Has(r[|r| - 1]))
            && 0 <= lo && lo + |r| <= |s| && r == s[lo..lo + |r|]
            && (forall i :: 0 <= i < lo ==> ws.Has(s[i]))
            && (forall i :: lo + |r| <= i < |s| ==> ws.Has(s[i]))
  {
    var l := LStrip(s, ws);
    LStripCharacterised(s, ws);
    RStripCharacterised(l, ws);
    var r := RStrip(l, ws);
    var lo := |s| - |l|;
    if r != [] {
      assert r[0] == l[0];
    }
    assert r == s[lo..lo + |r|];
    assert forall i :: lo + |r| <= i < |s| ==> s[i] == l[i - lo];
  }

  /** Stripping never removes a character that is not whitespace, so it keeps every colon. */
  lemma StripKeepsColons(s: string)
    ensures (':' in Strip(s)) <==> (':' in s)
  {
    StripCharacterised(s);
    var r := Strip(s);
    var lo := |s| - |LStrip(s)|;
    if ':' in s {
      var i :| 0 <= i < |s| && s[i] == ':';
      assert r[i - lo] == ':';
    }
  }

  /** `str.lower()` on one character, as Python does it for ASCII letters. */
  function LowerChar(c: char): char
  {
    if 'A' <= c <= 'Z' then (c as int + 32) as char else c
  }

  /** `str.lower()`, character by character. */
  function Lower(s: string): (r: string)
    ensures |r| == |s| && forall i :: 0 <= i < |s| ==> r[i] == LowerChar(s[i])
  {
    seq(|s|, i requires 0 <= i < |s| => LowerChar(s[i]))
  }

  predicate IsDigit(c: char)
  {
    '0' <= c <= '9'
  }

  function DigitChar(d: nat): (c: char)
    requires d < 10
    ensures IsDigit(c)
  {
    ('0' as int + d) as char
  }

  function DigitValue(c: char): (d: nat)
    requires IsDigit(c)
    ensures d < 10
  {
    c as int - '0' as int
  }

  /** `str(n)` for a non-negative integer: its decimal digits, most significant first. */
  function NatToString(n: nat): string
    decreases n
  {
    if n < 10 then [DigitChar(n)] else NatToString(n / 10) + [DigitChar(n % 10)]
  }

  /** `str(n)` for any integer: a minus sign before the digits of a negative number. */
  function IntToString(n: int): string
  {
    if n < 0 then "-" + NatToString(-n) else NatToString(n)
  }

  /** The value of a non-empty run of decimal digits. */
  function DigitsValue(s: string): (n: nat)
    requires forall i :: 0 <= i < |s| ==> IsDigit(s[i])
    decreases |s|
  {
    if |s| == 0 then 0 else DigitsValue(s[..|s| - 1]) * 10 + DigitValue(s[|s| - 1])
  }

  predicate AllDigits(s: string)
  {
    |s| >= 1 && forall i :: 0 <= i < |s| ==> IsDigit(s[i])
  }

  /** What `int()` accepts once surrounding whitespace is gone: decimal digits with
      an optional sign. */
  predicate IsIntegerLiteral(t: string)
  {
    AllDigits(t) || (|t| >= 2 && (t[0] == '-' || t[0] == '+') && AllDigits(t[1..]))
  }

  /** The value of an integer literal with no surrounding whitespace. */
  function LiteralValue(t: string): (r: Option<int>)
    ensures r.Some? <==> IsIntegerLiteral(t)
  {
    if AllDigits(t) then Some(DigitsValue(t))
    else if |t| >= 2 && t[0] == '-' && AllDigits(t[1..]) then Some(0 - DigitsValue(t[1..]))
    else if |t| >= 2 && t[0] == '+' && AllDigits(t[1..]) then Some(DigitsValue(t[1..]))
    else None
  }

  /** `int(s)` for a string: surrounding whitespace is ignored, then an optional sign
      and decimal digits; `None` stands for the `ValueError` Python raises on anything
      else. */
  function ParseInteger(s: string): (r: Option<int>)
    ensures r.Some? <==> IsIntegerLiteral(Strip(s, IntWhitespace))
  {
    LiteralValue(Strip(s, IntWhitespace))
  }

  /** A string that neither starts nor ends with whitespace is its own `strip()`. */
  lemma StripUnpadded(s: string, ws: Whitespace := StrWhitespace)
    requires s != [] ==> !ws.Has(s[0]) && !ws.Has(s[|s| - 1])
    ensures Strip(s, ws) == s
  {
  }

  /** `str(n)` of a natural number is a non-empty run of digits whose value is `n`. */
  lemma {:induction false} DigitsValueOfNatToString(n: nat)
    ensures AllDigits(NatToString(n)) && DigitsValue(NatToString(n)) == n
    decreases n
  {
    if n >= 10 {
      DigitsValueOfNatToString(n / 10);
      var s := NatToString(n);
      assert s[..|s| - 1] == NatToString(n / 10);
    }
  }

  /** `str(n)` is digits, with a leading '-' for a negative number. */
  lemma IntToStringShape(n: int)
    ensures var s := IntToString(n);
            && |s| >= 1
            && (forall i :: 0 <= i < |s| ==> IsDigit(s[i]) || (i == 0 && s[i] == '-'))
            && (n < 0 <==> s[0] == '-')
  {
    if n < 0 {
      DigitsValueOfNatToString(-n);
    } else {
      DigitsValueOfNatToString(n);
    }
  }

  /** `int(str(n)) == n`: parsing inverts formatting. */
  lemma ParseIntToString(n: int)
    ensures ParseInteger(IntToString(n)) == Some(n)
  {
    var s := IntToString(n);
    IntToStringShape(n);
    StripUnpadded(s, IntWhitespace);
    if n < 0 {
      assert s[1..] == NatToString(-n);
      DigitsValueOfNatToString(-n);
      assert !AllDigits(s) by { assert !IsDigit(s[0]); }
    } else {
      DigitsValueOfNatToString(n);
    }
    assert LiteralValue(s) == Some(n);
  }

  lemma LiteralExamples()
    ensures LiteralValue("80") == Some(80)
    ensures LiteralValue("080") == Some(80)
    ensures LiteralValue("+80") == Some(80)
    ensures LiteralValue("8a") == None
  {
    assert DigitsValue("80") == 80 by { assert "80"[..1] == "8"; }
    assert DigitsValue("080") == 80 by {
      assert "080"[..2] == "08";
      assert DigitsValue("08") == 8 by { assert "08"[..1] == "0"; }
    }
    assert "+80"[1..] == "80";
    assert !IsDigit("8a"[1]);
  }

  /** Leading zeros and a plus sign do not change the value: "080", "+80" and "80"
      all parse to 80; "8a" does not parse. */
  lemma ParseIntegerExamples()
    ensures ParseInteger("80") == Some(80)
    ensures ParseInteger("080") == Some(80)
    ensures ParseInteger("+80") == Some(80)
    ensures ParseInteger("8a") == None
  {
    LiteralExamples();
    StripUnpadded("80", IntWhitespace);
    StripUnpadded("080", IntWhitespace);
    StripUnpadded("+80", IntWhitespace);
    StripUnpadded("8a", IntWhitespace);
  }

  /** `" 80 ".strip()` is "80", and so is `"80\x1f".strip()`. */
  lemma StripExample()
    ensures Strip(" 80 ") == "80" && Strip(" 80 ", IntWhitespace) == "80"
    ensures Strip("80\U{001F}") == "80"
  {
    assert " 80 "[1..] == "80 " && "80 "[..2] == "80";
    assert LStrip(" 80 ") == "80 " && LStrip(" 80 ", IntWhitespace) == "80 ";
    assert "80\U{001F}"[..2] == "80";
  }

  /** Whitespace around the digits is ignored: `int(" 80 ") == 80`; a trailing
      separator is not: `int("80\x1f")` raises although `strip()` removes it. */
  lemma PaddedIntegerParses()
    ensures ParseInteger(" 80 ") == Some(80)
    ensures ParseInteger("80\U{001F}") == None
  {
    StripExample();
    ParseIntegerExamples();
    var t := "80\U{001F}";
    assert !IntWhitespace.Has(t[2]) && !IntWhitespace.Has(t[0]);
    StripUnpadded(t, IntWhitespace);
    assert !IsDigit(t[2]);
  }

  /** The decimal form of an integer holds neither ':' nor '/'. */
  lemma IntToStringPunctuation(n: int)
    ensures |IntToString(n)| >= 1
    ensures ':' !in IntToString(n) && '/' !in IntToString(n)
  {
    IntToStringShape(n);
  }

  datatype Option<T> = None | Some(value: T) {
    function GetOr(default: T): T
    {
      if Some? then value else default
    }
  }
}
