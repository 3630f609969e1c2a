/** Work identities as text: three percent-encoded components separated by `|`
    (percent-encoding as in section 2.1 of RFC 3986, applied to UTF-8). */
module UriIdentity {
  import opened Prelude
  import opened JsText

  datatype Identity = Identity(calendarId: string, id: string, recurrenceId: string)

  // ---- UTF-8 ----

  function Utf8(c: int): (bytes: seq<int>)
    requires 0 <= c < 0x110000
    ensures |bytes| >= 1 && forall i :: 0 <= i < |bytes| ==> 0 <= bytes[i] < 256
  {
    var c1 := c / 0x40;
    var c2 := c1 / 0x40;
    var c3 := c2 / 0x40;
    if c < 0x80 then [c]
    else if c < 0x800 then [0xC0 + c1, 0x80 + c % 0x40]
    else if c < 0x10000 then [0xE0 + c2, 0x80 + c1 % 0x40, 0x80 + c % 0x40]
    else [0xF0 + c3, 0x80 + c2 % 0x40, 0x80 + c1 % 0x40, 0x80 + c % 0x40]
  }

  // ---- percent-encoding ----

  predicate Unreserved(c: char) {
    'A' <= c <= 'Z' || 'a' <= c <= 'z' || '0' <= c <= '9' || c in "-_.!~*'()"
  }

  function HexDigit(n: int): char
    requires 0 <= n < 16
  {
    if n < 10 then ('0' as int + n) as char else ('A' as int + n - 10) as char
  }

  function HexValue(c: char): Option<int> {
    if '0' <= c <= '9' then Some(c as int - '0' as int)
    else if 'A' <= c <= 'F' then Some(c as int - 'A' as int + 10)
    else if 'a' <= c <= 'f' then Some(c as int - 'a' as int + 10)
    else None
  }

  function Percent(b: int): (s: string)
    requires 0 <= b < 256
    ensures |s| == 3
  {
    ['%', HexDigit(b / 16), HexDigit(b % 16)]
  }

  function PercentAll(bytes: seq<int>): string
    requires forall i :: 0 <= i < |bytes| ==> 0 <= bytes[i] < 256
  {
    if bytes == [] then "" else Percent(bytes[0]) + PercentAll(bytes[1..])
  }

  function EncodeChar(c: char): string {
    if Unreserved(c) then [c] else PercentAll(Utf8(c as int))
  }

  function EncodeComponent(s: string): string {
    if s == "" then "" else EncodeChar(s[0]) + EncodeComponent(s[1..])
  }

  /** One percent-encoded byte at the front of a text. */
  function ByteAt(s: string): Option<int> {
    if |s| < 3 || s[0] != '%' || HexValue(s[1]).None? || HexValue(s[2]).None? then None
    else Some(HexValue(s[1]).value * 16 + HexValue(s[2]).value)
  }

  /** n continuation bytes, folded into the code point read so far. */
  function Continuation(s: string, n: nat, acc: int): (r: Option<(int, string)>)
    ensures r.Some? ==> |r.value.1| <= |s|
  {
    if n == 0 then Some((acc, s))
    else match ByteAt(s)
         case None => None
         case Some(b) => if 0x80 <= b < 0xC0 then Continuation(s[3..], n - 1, acc * 0x40 + b - 0x80) else None
  }

  /** A code point that has no shorter encoding and is a Unicode scalar value. */
  function Scalar(c: int, least: nat): Option<char> {
    if least <= c < 0x110000 && !(0xD800 <= c < 0xE000) then Some(c as char) else None
  }

  /** The character a lead byte and its continuation bytes stand for. */
  function Finish(r: Option<(int, string)>, least: nat): Option<(char, string)> {
    match r
    case None => None
    case Some((c, rest)) =>
      match Scalar(c, least)
      case None => None
      case Some(ch) => Some((ch, rest))
  }

  /** One character at the front of an encoded text. */
  function DecodeChar(s: string): (r: Option<(char, string)>)
    requires s != ""
    ensures r.Some? ==> |r.value.1| < |s|
  {
    if s[0] != '%' then Some((s[0], s[1..]))
    else match ByteAt(s)
         case None => None
         case Some(b) =>
           if b < 0x80 then Some((b as char, s[3..]))
           else if b < 0xC0 || b >= 0xF8 then None
           else
             var n, lead, least := if b < 0xE0 then 1 else if b < 0xF0 then 2 else 3,
                                   if b < 0xE0 then b - 0xC0 else if b < 0xF0 then b - 0xE0 else b - 0xF0,
                                   if b < 0xE0 then 0x80 else if b < 0xF0 then 0x800 else 0x10000;
             Finish(Continuation(s[3..], n, lead), least)
  }

  /** `decodeURIComponent`; None where it throws. */
  function DecodeComponent(s: string): Option<string>
    decreases |s|
  {
    if s == "" then Some("")
    else match DecodeChar(s)
         case None => None
         case Some((c, rest)) =>
           match DecodeComponent(rest)
           case None => None
           case Some(text) => Some([c] + text)
  }

  lemma ByteRoundTrip(b: int, t: string)
    requires 0 <= b < 256
    ensures ByteAt(Percent(b) + t) == Some(b) && (Percent(b) + t)[3..] == t
  {
  }

  lemma ContinuationByte(b: int, n: nat, acc: int, t: string)
    requires 0x80 <= b < 0xC0
    ensures Continuation(Percent(b) + t, n + 1, acc) == Continuation(t, n, acc * 0x40 + b - 0x80)
  {
  }

  lemma DecodeLead(b: int, t: string)
    requires 0xC0 <= b < 0xF8
    ensures DecodeChar(Percent(b) + t) ==
            if b < 0xE0 then Finish(Continuation(t, 1, b - 0xC0), 0x80)
            else if b < 0xF0 then Finish(Continuation(t, 2, b - 0xE0), 0x800)
            else Finish(Continuation(t, 3, b - 0xF0), 0x10000)
  {
    ByteRoundTrip(b, t);
  }

  lemma DecodeTwo(k: int, t: string)
    requires 0x80 <= k < 0x800
    ensures DecodeChar(PercentAll(Utf8(k)) + t) == Some((k as char, t))
  {
    var b0, b1 := Utf8(k)[0], Utf8(k)[1];
    PercentTwo(b0, b1, t);
    DecodeLead(b0, Percent(b1) + t);
    ContinuationByte(b1, 0, b0 - 0xC0, t);
    hide PercentAll, Percent, ByteAt, DecodeChar;
    assert (b0 - 0xC0) * 0x40 + b1 - 0x80 == k;
  }

  lemma ThreeBytes(k: int) returns (b0: int, b1: int, b2: int)
    requires 0x800 <= k < 0x10000
    ensures Utf8(k) == [b0, b1, b2] && 0xE0 <= b0 < 0xF0 && 0x80 <= b1 < 0xC0 && 0x80 <= b2 < 0xC0
    ensures ((b0 - 0xE0) * 0x40 + b1 - 0x80) * 0x40 + b2 - 0x80 == k
  {
    b0, b1, b2 := Utf8(k)[0], Utf8(k)[1], Utf8(k)[2];
  }

  lemma DecodeThree(k: int, t: string)
    requires 0x800 <= k < 0x10000 && !(0xD800 <= k < 0xE000)
    ensures DecodeChar(PercentAll(Utf8(k)) + t) == Some((k as char, t))
  {
    hide Utf8, PercentAll, Percent, ByteAt, DecodeChar, HexDigit;
    var b0, b1, b2 := ThreeBytes(k);
    PercentThree(b0, b1, b2, t);
    var t2 := Percent(b2) + t;
    DecodeLead(b0, Percent(b1) + t2);
    ContinuationByte(b1, 1, b0 - 0xE0, t2);
    ContinuationByte(b2, 0, (b0 - 0xE0) * 0x40 + b1 - 0x80, t);
  }

  lemma FourBytes(k: int) returns (b0: int, b1: int, b2: int, b3: int)
    requires 0x10000 <= k < 0x110000
    ensures Utf8(k) == [b0, b1, b2, b3]
    ensures 0xF0 <= b0 < 0xF8 && 0x80 <= b1 < 0xC0 && 0x80 <= b2 < 0xC0 && 0x80 <= b3 < 0xC0
    ensures (((b0 - 0xF0) * 0x40 + b1 - 0x80) * 0x40 + b2 - 0x80) * 0x40 + b3 - 0x80 == k
  {
    b0, b1, b2, b3 := Utf8(k)[0], Utf8(k)[1], Utf8(k)[2], Utf8(k)[3];
  }

  lemma DecodeFour(k: int, t: string)
    requires 0x10000 <= k < 0x110000
    ensures DecodeChar(PercentAll(Utf8(k)) + t) == Some((k as char, t))
  {
    hide Utf8, PercentAll, Percent, ByteAt, DecodeChar, HexDigit;
    var b0, b1, b2, b3 := FourBytes(k);
    PercentFour(b0, b1, b2, b3, t);
    var t3 := Percent(b3) + t;
    var t2 := Percent(b2) + t3;
    DecodeLead(b0, Percent(b1) + t2);
    ContinuationByte(b1, 2, b0 - 0xF0, t2);
    ContinuationByte(b2, 1, (b0 - 0xF0) * 0x40 + b1 - 0x80, t3);
    ContinuationByte(b3, 0, ((b0 - 0xF0) * 0x40 + b1 - 0x80) * 0x40 + b2 - 0x80, t);
  }

  lemma DecodeEncodedChar(c: char, t: string)
    ensures EncodeChar(c) != "" && DecodeChar(EncodeChar(c) + t) == Some((c, t))
  {
    var k := c as int;
    if Unreserved(c) {
      assert ([c] + t)[1..] == t;
    } else if k < 0x80 {
      assert PercentAll([k]) == Percent(k) + "" == Percent(k);
      ByteRoundTrip(k, t);
    } else if k < 0x800 {
      DecodeTwo(k, t);
    } else if k < 0x10000 {
      DecodeThree(k, t);
    } else {
      DecodeFour(k, t);
    }
  }

  lemma PercentTwo(b0: int, b1: int, t: string)
    requires 0 <= b0 < 256 && 0 <= b1 < 256
    ensures PercentAll([b0, b1]) + t == Percent(b0) + (Percent(b1) + t)
  {
    assert [b0, b1][1..] == [b1] && [b1][1..] == [];
    assert PercentAll([b1]) == Percent(b1) + "" == Percent(b1);
  }

  lemma PercentThree(b0: int, b1: int, b2: int, t: string)
    requires 0 <= b0 < 256 && 0 <= b1 < 256 && 0 <= b2 < 256
    ensures PercentAll([b0, b1, b2]) + t == Percent(b0) + (Percent(b1) + (Percent(b2) + t))
  {
    PercentTwo(b1, b2, t);
    assert [b0, b1, b2][1..] == [b1, b2];
  }

  lemma PercentFour(b0: int, b1: int, b2: int, b3: int, t: string)
    requires 0 <= b0 < 256 && 0 <= b1 < 256 && 0 <= b2 < 256 && 0 <= b3 < 256
    ensures PercentAll([b0, b1, b2, b3]) + t == Percent(b0) + (Percent(b1) + (Percent(b2) + (Percent(b3) + t)))
  {
    PercentThree(b1, b2, b3, t);
    assert [b0, b1, b2, b3][1..] == [b1, b2, b3];
  }

  lemma {:induction false} ComponentRoundTrip(s: string)
    ensures DecodeComponent(EncodeComponent(s)) == Some(s)
  {
    if s != "" {
      DecodeEncodedChar(s[0], EncodeComponent(s[1..]));
      ComponentRoundTrip(s[1..]);
      assert s == [s[0]] + s[1..];
    }
  }

  // ---- strictness ----

  /** The front of a text spells these bytes, in digits of either case. */
  predicate Spells(s: string, bytes: seq<int>) {
    |s| >= 3 * |bytes| && forall i :: 0 <= i < |bytes| ==> ByteAt(s[3 * i..]) == Some(bytes[i])
  }

  /** Decoding is strict: at a percent sign a character is read if and only if exactly its UTF-8
      encoding is spelt there; no overlong form, surrogate or stray continuation byte is accepted. */
  lemma DecodeStrict(s: string, c: char, rest: string)
    requires s != "" && s[0] == '%'
    ensures DecodeChar(s) == Some((c, rest)) <==>
              Spells(s, Utf8(c as int)) && rest == s[3 * |Utf8(c as int)|..]
  {
    hide Utf8, HexValue, ByteAt, Continuation, Finish, DecodeChar;
    Utf8Lead(c as int);
    var b := ByteAt(s);
    assert s[0..] == s;
    ByteRange(s);
    if Spells(s, Utf8(c as int)) {
      assert ByteAt(s[3 * 0..]) == Some(Utf8(c as int)[0]);
    }
    if b == None {
      DecodeOther(s);
    } else if b.value < 0x80 {
      DecodeOther(s);
      Utf8Inverse(b.value);
    } else if 0xC0 <= b.value < 0xE0 {
      StrictTwo(s, b.value, c, rest);
    } else if 0xE0 <= b.value < 0xF0 {
      StrictThree(s, b.value, c, rest);
    } else if 0xF0 <= b.value < 0xF8 {
      StrictFour(s, b.value, c, rest);
    } else {
      DecodeOther(s);
    }
  }

  /** The lead byte tells how long an encoding is. */
  lemma Utf8Lead(k: int)
    requires 0 <= k < 0x110000
    ensures var u := Utf8(k);
            && (u[0] < 0x80 || 0xC0 <= u[0] < 0xF8)
            && (k < 0x80 <==> u[0] < 0x80) && (u[0] < 0x80 ==> u == [k])
            && |u| == if u[0] < 0x80 then 1 else if u[0] < 0xE0 then 2 else if u[0] < 0xF0 then 3 else 4
  {
  }

  lemma Utf8Inverse(k: int)
    requires 0 <= k < 0x80
    ensures Utf8(k) == [k]
  {
  }

  lemma DecodeOther(s: string)
    requires s != "" && s[0] == '%'
    requires var b := ByteAt(s); b.Some? ==> b.value < 0xC0 || b.value >= 0xF8
    ensures DecodeChar(s) == match ByteAt(s)
                             case None => None
                             case Some(b) => if 0 <= b < 0x80 then Some((b as char, s[3..])) else None
  {
  }

  lemma ByteRange(s: string)
    ensures ByteAt(s).Some? ==> |s| >= 3 && 0 <= ByteAt(s).value < 256
  {
  }

  /** What the bytes after a lead byte come to, one step at a time. */
  lemma ContinuationStep(s: string, n: nat, acc: int)
    requires n > 0
    ensures Continuation(s, n, acc) ==
            match ByteAt(s)
            case None => None
            case Some(b) => if 0x80 <= b < 0xC0 then Continuation(s[3..], n - 1, acc * 0x40 + b - 0x80) else None
    ensures ByteAt(s).Some? ==> |s| >= 3
    ensures Continuation(s, 0, acc) == Some((acc, s))
  {
  }

  lemma LeadByte(s: string, b: int)
    requires s != "" && s[0] == '%' && ByteAt(s) == Some(b) && 0xC0 <= b < 0xF8
    ensures |s| >= 3
    ensures DecodeChar(s) ==
            if b < 0xE0 then Finish(Continuation(s[3..], 1, b - 0xC0), 0x80)
            else if b < 0xF0 then Finish(Continuation(s[3..], 2, b - 0xE0), 0x800)
            else Finish(Continuation(s[3..], 3, b - 0xF0), 0x10000)
  {
  }

  lemma TwoBytes(k: int, b0: int, b1: int)
    requires 0 <= k < 0x110000 && 0xC0 <= b0 < 0xE0
    ensures 0x80 <= b1 < 0xC0 && k == (b0 - 0xC0) * 0x40 + b1 - 0x80 && k >= 0x80 ==> Utf8(k) == [b0, b1]
    ensures Utf8(k)[0] == b0 ==>
              && |Utf8(k)| == 2 && 0x80 <= Utf8(k)[1] < 0xC0 && 0x80 <= k < 0x800
              && k == (b0 - 0xC0) * 0x40 + Utf8(k)[1] - 0x80
  {
  }

  lemma StrictTwo(s: string, b0: int, c: char, rest: string)
    requires s != "" && s[0] == '%' && ByteAt(s) == Some(b0) && 0xC0 <= b0 < 0xE0
    ensures DecodeChar(s) == Some((c, rest)) <==>
              Spells(s, Utf8(c as int)) && rest == s[3 * |Utf8(c as int)|..]
  {
    hide Utf8, HexValue, ByteAt, Continuation, DecodeChar;
    LeadByte(s, b0);
    ContinuationStep(s[3..], 1, b0 - 0xC0);
    var b := ByteAt(s[3..]);
    assert s[0..] == s;
    TwoBytes(c as int, b0, if b.Some? then b.value else 0);
    if b.Some? {
      assert s[3..][3..] == s[6..];
      var k := (b0 - 0xC0) * 0x40 + b.value - 0x80;
      ContinuationStep(s[6..], 1, k);
    }
    if Spells(s, Utf8(c as int)) {
      assert ByteAt(s[3 * 0..]) == Some(Utf8(c as int)[0]);
      assert ByteAt(s[3 * 1..]) == Some(Utf8(c as int)[1]);
    }
  }

  lemma BytesOfThree(k: int, b0: int, b1: int, b2: int)
    requires 0 <= k < 0x110000 && 0xE0 <= b0 < 0xF0
    ensures 0x80 <= b1 < 0xC0 && 0x80 <= b2 < 0xC0 && k >= 0x800 &&
            k == ((b0 - 0xE0) * 0x40 + b1 - 0x80) * 0x40 + b2 - 0x80 ==>
              Utf8(k) == [b0, b1, b2]
    ensures Utf8(k)[0] == b0 ==>
              && |Utf8(k)| == 3 && 0x80 <= Utf8(k)[1] < 0xC0 && 0x80 <= Utf8(k)[2] < 0xC0 && 0x800 <= k < 0x10000
              && k == ((b0 - 0xE0) * 0x40 + Utf8(k)[1] - 0x80) * 0x40 + Utf8(k)[2] - 0x80
  {
  }

  lemma StrictThree(s: string, b0: int, c: char, rest: string)
    requires s != "" && s[0] == '%' && ByteAt(s) == Some(b0) && 0xE0 <= b0 < 0xF0
    ensures DecodeChar(s) == Some((c, rest)) <==>
              Spells(s, Utf8(c as int)) && rest == s[3 * |Utf8(c as int)|..]
  {
    hide Utf8, HexValue, ByteAt, Continuation, DecodeChar;
    LeadByte(s, b0);
    ContinuationStep(s[3..], 2, b0 - 0xE0);
    var b := ByteAt(s[3..]);
    var b1 := if b.Some? then b.value else 0;
    var d := if b.Some? then ByteAt(s[6..]) else None;
    var b2 := if d.Some? then d.value else 0;
    assert s[0..] == s;
    BytesOfThree(c as int, b0, b1, b2);
    if b.Some? {
      assert s[3..][3..] == s[6..];
      ContinuationStep(s[6..], 1, (b0 - 0xE0) * 0x40 + b1 - 0x80);
      if d.Some? {
        assert s[6..][3..] == s[9..];
        ContinuationStep(s[9..], 1, ((b0 - 0xE0) * 0x40 + b1 - 0x80) * 0x40 + b2 - 0x80);
      }
    }
    if Spells(s, Utf8(c as int)) {
      assert ByteAt(s[3 * 0..]) == Some(Utf8(c as int)[0]);
      assert ByteAt(s[3 * 1..]) == Some(Utf8(c as int)[1]);
      assert ByteAt(s[3 * 2..]) == Some(Utf8(c as int)[2]);
    }
  }

  lemma BytesOfFour(k: int, b0: int, b1: int, b2: int, b3: int)
    requires 0 <= k < 0x110000 && 0xF0 <= b0 < 0xF8
    ensures 0x80 <= b1 < 0xC0 && 0x80 <= b2 < 0xC0 && 0x80 <= b3 < 0xC0 && k >= 0x10000 &&
            k == (((b0 - 0xF0) * 0x40 + b1 - 0x80) * 0x40 + b2 - 0x80) * 0x40 + b3 - 0x80 ==>
              Utf8(k) == [b0, b1, b2, b3]
    ensures var u := Utf8(k);
            u[0] == b0 ==>
              && |u| == 4 && 0x80 <= u[1] < 0xC0 && 0x80 <= u[2] < 0xC0 && 0x80 <= u[3] < 0xC0 && 0x10000 <= k
              && k == (((b0 - 0xF0) * 0x40 + u[1] - 0x80) * 0x40 + u[2] - 0x80) * 0x40 + u[3] - 0x80
  {
  }

  lemma StrictFour(s: string, b0: int, c: char, rest: string)
    requires s != "" && s[0] == '%' && ByteAt(s) == Some(b0) && 0xF0 <= b0 < 0xF8
    ensures DecodeChar(s) == Some((c, rest)) <==>
              Spells(s, Utf8(c as int)) && rest == s[3 * |Utf8(c as int)|..]
  {
    hide Utf8, HexValue, ByteAt, Continuation, DecodeChar;
    LeadByte(s, b0);
    ContinuationStep(s[3..], 3, b0 - 0xF0);
    var b := ByteAt(s[3..]);
    var b1 := if b.Some? then b.value else 0;
    var d := if b.Some? then ByteAt(s[6..]) else None;
    var b2 := if d.Some? then d.value else 0;
    if b.Some? { ByteRange(s[6..]); }
    var e := if d.Some? then ByteAt(s[9..]) else None;
    var b3 := if e.Some? then e.value else 0;
    assert s[0..] == s;
    BytesOfFour(c as int, b0, b1, b2, b3);
    if b.Some? {
      assert s[3..][3..] == s[6..];
      ContinuationStep(s[6..], 2, (b0 - 0xF0) * 0x40 + b1 - 0x80);
      if d.Some? {
        assert s[6..][3..] == s[9..];
        ContinuationStep(s[9..], 1, ((b0 - 0xF0) * 0x40 + b1 - 0x80) * 0x40 + b2 - 0x80);
        if e.Some? {
          assert s[9..][3..] == s[12..];
          ContinuationStep(s[12..], 1, (((b0 - 0xF0) * 0x40 + b1 - 0x80) * 0x40 + b2 - 0x80) * 0x40 + b3 - 0x80);
        }
      }
    }
    if Spells(s, Utf8(c as int)) {
      assert ByteAt(s[3 * 0..]) == Some(Utf8(c as int)[0]);
      assert ByteAt(s[3 * 1..]) == Some(Utf8(c as int)[1]);
      assert ByteAt(s[3 * 2..]) == Some(Utf8(c as int)[2]);
      assert ByteAt(s[3 * 3..]) == Some(Utf8(c as int)[3]);
    }
  }

  // ---- identities ----

  const SEPARATOR := "|"

  function WriteIdentity(ref: Identity): Result<string, string> {
    if ref.calendarId == "" || ref.id == "" then Err("missing identity")
    else Ok(Join([EncodeComponent(ref.calendarId), EncodeComponent(ref.id), EncodeComponent(ref.recurrenceId)], SEPARATOR))
  }

  function ParseIdentity(value: Option<string>): Result<Option<Identity>, string> {
    if value.None? then Ok(None)
    else
      var parts := Split(value.value, SEPARATOR);
      if |parts| != 3 then Err("malformed currentWorkId")
      else
        match (DecodeComponent(parts[0]), DecodeComponent(parts[1]), DecodeComponent(parts[2]))
        case (Some(calendarId), Some(id), Some(recurrenceId)) =>
          if calendarId == "" || id == "" then Err("empty currentWorkId")
          else Ok(Some(Identity(calendarId, id, recurrenceId)))
        case _ => Err("malformed URI")
  }

  /** Encoding emits only unreserved characters and percent signs: no separator, no dollar. */
  predicate Plain(s: string) {
    forall c :: c in s ==> Unreserved(c) || c == '%'
  }

  lemma {:induction false} PercentAllPlain(bytes: seq<int>)
    requires forall i :: 0 <= i < |bytes| ==> 0 <= bytes[i] < 256
    ensures Plain(PercentAll(bytes))
  {
    if bytes != [] { PercentAllPlain(bytes[1..]); }
  }

  lemma {:induction false} EncodedPlain(s: string)
    ensures Plain(EncodeComponent(s))
  {
    if s != "" {
      EncodedPlain(s[1..]);
      if !Unreserved(s[0]) { PercentAllPlain(Utf8(s[0] as int)); }
    }
  }

  lemma SplitThree(a: string, b: string, c: string)
    requires '|' !in a && '|' !in b && '|' !in c
    ensures Split(Join([a, b, c], SEPARATOR), SEPARATOR) == [a, b, c]
  {
    assert [a, b, c][1..] == [b, c] && [b, c][1..] == [c];
    NoSeparator(c);
    CutSeparator(b, c);
    assert Split(Join([b, c], SEPARATOR), SEPARATOR) == [b] + Split(c, SEPARATOR);
    CutSeparator(a, Join([b, c], SEPARATOR));
    assert Split(Join([a, b, c], SEPARATOR), SEPARATOR) == [a] + Split(Join([b, c], SEPARATOR), SEPARATOR);
  }

  lemma CutSeparator(a: string, t: string)
    requires '|' !in a
    ensures Cut(a + (SEPARATOR + t), SEPARATOR) == Some((a, t))
  {
    assert NothingBegins(a, SEPARATOR + t, SEPARATOR) by {
      forall j | 0 <= j < |a| ensures !(SEPARATOR <= a[j..] + (SEPARATOR + t)) {
        assert (a[j..] + (SEPARATOR + t))[0] == a[j];
      }
    }
    CutSkip(a, SEPARATOR + t, SEPARATOR);
  }

  lemma {:induction false} NoSeparator(c: string)
    requires '|' !in c
    ensures Cut(c, SEPARATOR).None?
  {
    if c != "" {
      assert c[0] in c;
      NoSeparator(c[1..]);
    }
  }

  /** Parsing undoes writing, for every identity that can be written. */
  lemma IdentityRoundTrip(ref: Identity)
    requires WriteIdentity(ref).Ok?
    ensures ParseIdentity(Some(WriteIdentity(ref).value)) == Ok(Some(ref))
  {
    hide EncodeComponent, DecodeComponent, Join, Split;
    var a, b, c := EncodeComponent(ref.calendarId), EncodeComponent(ref.id), EncodeComponent(ref.recurrenceId);
    EncodedPlain(ref.calendarId);
    EncodedPlain(ref.id);
    EncodedPlain(ref.recurrenceId);
    SplitThree(a, b, c);
    ComponentRoundTrip(ref.calendarId);
    ComponentRoundTrip(ref.id);
    ComponentRoundTrip(ref.recurrenceId);
  }

  /** Exactly what is parsed: three parts that decode, the first two to something non-empty. */
  lemma ParseLaw(a: string, b: string, c: string, ref: Identity)
    requires '|' !in a && '|' !in b && '|' !in c
    ensures ParseIdentity(Some(a + (SEPARATOR + (b + (SEPARATOR + c))))) == Ok(Some(ref)) <==>
              && DecodeComponent(a) == Some(ref.calendarId) && DecodeComponent(b) == Some(ref.id)
              && DecodeComponent(c) == Some(ref.recurrenceId)
              && ref.calendarId != "" && ref.id != ""
  {
    hide DecodeComponent, Join, Split;
    SplitThree(a, b, c);
    JoinThree(a, b, c);
  }

  /** Different identities are written differently. */
  lemma IdentityInjective(a: Identity, b: Identity)
    requires WriteIdentity(a).Ok? && WriteIdentity(a) == WriteIdentity(b)
    ensures a == b
  {
    IdentityRoundTrip(a);
    IdentityRoundTrip(b);
  }

  /** A written identity contains no dollar sign and no newline. */
  lemma IdentityPlain(ref: Identity)
    requires WriteIdentity(ref).Ok?
    ensures '$' !in WriteIdentity(ref).value && '\n' !in WriteIdentity(ref).value
  {
    hide EncodeComponent, Join;
    EncodedPlain(ref.calendarId);
    EncodedPlain(ref.id);
    EncodedPlain(ref.recurrenceId);
    var a, b, c := EncodeComponent(ref.calendarId), EncodeComponent(ref.id), EncodeComponent(ref.recurrenceId);
    JoinThree(a, b, c);
  }

  lemma JoinThree(a: string, b: string, c: string)
    ensures Join([a, b, c], SEPARATOR) == a + (SEPARATOR + (b + (SEPARATOR + c)))
  {
    assert [a, b, c] == [a] + ([b] + [c]);
    JoinTwo(a, SEPARATOR, [b] + [c]);
    JoinTwo(b, SEPARATOR, [c]);
  }

  // ---- the alphabet, character by character ----

  lemma UnreservedCharacters(c: char)
    ensures Unreserved(c) <==>
              || c in "ABCDEFGHIJKLMNOPQRSTUVWXYZ" || c in "abcdefghijklmnopqrstuvwxyz" || c in "0123456789"
              || c == '-' || c == '_' || c == '.' || c == '!' || c == '~' || c == '*' || c == '\'' || c == '(' || c == ')'
  {
    var digits, upper, lower := "0123456789", "ABCDEFGHIJKLMNOPQRSTUVWXYZ", "abcdefghijklmnopqrstuvwxyz";
    assert forall i :: 0 <= i < 10 ==> digits[i] as int == '0' as int + i;
    assert forall i :: 0 <= i < 26 ==> upper[i] as int == 'A' as int + i;
    assert forall i :: 0 <= i < 26 ==> lower[i] as int == 'a' as int + i;
    if '0' <= c <= '9' { assert digits[c as int - '0' as int] == c; }
    if 'A' <= c <= 'Z' { assert upper[c as int - 'A' as int] == c; }
    if 'a' <= c <= 'z' { assert lower[c as int - 'a' as int] == c; }
  }

  /** Hexadecimal digits are written in upper case and read in either. */
  lemma HexDigits(n: int)
    requires 0 <= n < 16
    ensures HexDigit(n) == "0123456789ABCDEF"[n]
    ensures HexValue("0123456789ABCDEF"[n]) == HexValue("0123456789abcdef"[n]) == Some(n)
  {
    var upper, lower := "0123456789ABCDEF", "0123456789abcdef";
    assert forall i :: 0 <= i < 10 ==> upper[i] as int == lower[i] as int == '0' as int + i;
    assert forall i :: 10 <= i < 16 ==> upper[i] as int == 'A' as int + i - 10;
    assert forall i :: 10 <= i < 16 ==> lower[i] as int == 'a' as int + i - 10;
  }

  /** Only hexadecimal digits are read as such. */
  lemma OnlyHexDigits(c: char)
    ensures HexValue(c).Some? <==> c in "0123456789" || c in "ABCDEF" || c in "abcdef"
    ensures HexValue(c).Some? ==> 0 <= HexValue(c).value < 16
  {
    var digits, upper, lower := "0123456789", "ABCDEF", "abcdef";
    assert forall i :: 0 <= i < 10 ==> digits[i] as int == '0' as int + i;
    assert forall i :: 0 <= i < 6 ==> upper[i] as int == 'A' as int + i;
    assert forall i :: 0 <= i < 6 ==> lower[i] as int == 'a' as int + i;
    if '0' <= c <= '9' { assert digits[c as int - '0' as int] == c; }
    if 'A' <= c <= 'F' { assert upper[c as int - 'A' as int] == c; }
    if 'a' <= c <= 'f' { assert lower[c as int - 'a' as int] == c; }
  }
}
