/** One session record as text: a JSON object with a fixed order of fields, written without
    spaces and read with optional spaces between tokens. */
module SessionCodec {
  import opened Prelude

  datatype Json = JNat(n: nat) | JStr(s: string) | JNull

  /** A value read from the front of a text, with what follows it. */
  datatype Parse<T> = Fail | Got(value: T, rest: string)

  const KEYS: seq<string> := [
    "\"version\":", ",\"identity\":", ",\"token\":", ",\"start\":",
    ",\"beforeStatus\":", ",\"beforePercent\":", ",\"end\":", ",\"result\":"]

  // ---- writing ----

  predicate IsDigit(c: char) { '0' <= c <= '9' }

  function Digit(d: nat): (c: char)
    requires d < 10
    ensures IsDigit(c) && c as int - '0' as int == d
  {
    ('0' as int + d) as char
  }

  function WriteNat(n: nat): (s: string)
    ensures s != "" && IsDigit(s[0])
  {
    if n < 10 then [Digit(n)] else WriteNat(n / 10) + [Digit(n % 10)]
  }

  function EscapeChar(c: char): string {
    match c
    case '"' => ['\\', '"']
    case '\\' => ['\\', '\\']
    case '\n' => ['\\', 'n']
    case _ => [c]
  }

  function Escape(s: string): string {
    if s == "" then "" else EscapeChar(s[0]) + Escape(s[1..])
  }

  function WriteValue(v: Json): (s: string)
    ensures s != ""
  {
    match v
    case JNat(n) => WriteNat(n)
    case JStr(s) => ['"'] + (Escape(s) + ['"'])
    case JNull => "null"
  }

  function WriteFields(keys: seq<string>, values: seq<Json>): string
    requires |keys| == |values|
  {
    if keys == [] then "" else keys[0] + (WriteValue(values[0]) + WriteFields(keys[1..], values[1..]))
  }

  function Write(values: seq<Json>): string
    requires |values| == |KEYS|
  {
    "{" + (WriteFields(KEYS, values) + "}")
  }

  // ---- reading ----

  function SkipSpaces(s: string): string {
    if s != "" && s[0] == ' ' then SkipSpaces(s[1..]) else s
  }

  function Expect(s: string, literal: string): Parse<()> {
    var t := SkipSpaces(s);
    if literal <= t then Got((), t[|literal|..]) else Fail
  }

  function ReadDigits(s: string, acc: nat): (nat, string)
    decreases |s|
  {
    if s != "" && IsDigit(s[0]) then ReadDigits(s[1..], acc * 10 + (s[0] as int - '0' as int)) else (acc, s)
  }

  /** The rest of a string literal after its opening quote. A raw newline is not allowed in one. */
  function ReadChars(s: string): Parse<string> {
    if s == "" || s[0] == '\n' then Fail
    else if s[0] == '"' then Got("", s[1..])
    else if s[0] == '\\' then
      if |s| < 2 || s[1] !in "\"\\n" then Fail
      else match ReadChars(s[2..])
           case Fail => Fail
           case Got(text, rest) => Got([if s[1] == 'n' then '\n' else s[1]] + text, rest)
    else match ReadChars(s[1..])
         case Fail => Fail
         case Got(text, rest) => Got([s[0]] + text, rest)
  }

  function ReadValue(s: string): Parse<Json> {
    var t := SkipSpaces(s);
    if t == "" then Fail
    else if IsDigit(t[0]) then (var (n, rest) := ReadDigits(t, 0); Got(JNat(n), rest))
    else if t[0] == '"' then
      match ReadChars(t[1..])
      case Fail => Fail
      case Got(text, rest) => Got(JStr(text), rest)
    else if "null" <= t then Got(JNull, t[4..])
    else Fail
  }

  function ReadFields(keys: seq<string>, s: string): Parse<seq<Json>> {
    if keys == [] then Got([], s)
    else match Expect(s, keys[0])
         case Fail => Fail
         case Got(_, t) =>
           match ReadValue(t)
           case Fail => Fail
           case Got(v, u) =>
             match ReadFields(keys[1..], u)
             case Fail => Fail
             case Got(vs, rest) => Got([v] + vs, rest)
  }

  function ReadObject(s: string): Parse<seq<Json>> {
    match Expect(s, "{")
    case Fail => Fail
    case Got(_, t) =>
      match ReadFields(KEYS, t)
      case Fail => Fail
      case Got(values, u) =>
        match Expect(u, "}")
        case Fail => Fail
        case Got(_, rest) => Got(values, rest)
  }

  /** A whole line: one object and nothing after it but spaces. */
  function Read(line: string): Option<seq<Json>> {
    match ReadObject(line)
    case Fail => None
    case Got(values, rest) => if SkipSpaces(rest) == "" then Some(values) else None
  }

  // ---- reading undoes writing ----

  lemma {:induction false} ReadDigitsWritten(n: nat, t: string)
    ensures ReadDigits(WriteNat(n) + t, 0) == ReadDigits(t, n)
  {
    if n < 10 {
      assert (WriteNat(n) + t)[1..] == t;
    } else {
      var last := [Digit(n % 10)];
      assert WriteNat(n) + t == WriteNat(n / 10) + (last + t);
      ReadDigitsWritten(n / 10, last + t);
      assert (last + t)[1..] == t;
    }
  }

  lemma ReadCharEscaped(c: char, s: string)
    requires ReadChars(s).Got?
    ensures ReadChars(EscapeChar(c) + s) == Got([c] + ReadChars(s).value, ReadChars(s).rest)
  {
    var e := EscapeChar(c);
    assert (e + s)[|e|..] == s;
    assert forall i :: 0 <= i < |e| ==> (e + s)[i] == e[i];
  }

  lemma ReadClosingQuote(t: string)
    ensures ReadChars(['"'] + t) == Got("", t)
  {
  }

  lemma {:induction false} ReadCharsEscaped(s: string, t: string)
    ensures ReadChars(Escape(s) + (['"'] + t)) == Got(s, t)
  {
    hide ReadChars, EscapeChar;
    var tail := ['"'] + t;
    ReadClosingQuote(t);
    if s == "" {
      assert Escape(s) + tail == tail;
    } else {
      ReadCharsEscaped(s[1..], t);
      ReadCharEscaped(s[0], Escape(s[1..]) + tail);
      assert Escape(s) + tail == EscapeChar(s[0]) + (Escape(s[1..]) + tail);
      assert s == [s[0]] + s[1..];
    }
  }

  lemma ReadStringWritten(text: string, t: string)
    ensures ReadValue(WriteValue(JStr(text)) + t) == Got(JStr(text), t)
  {
    hide ReadChars, Escape;
    var more := Escape(text) + (['"'] + t);
    ReadCharsEscaped(text, t);
    assert WriteValue(JStr(text)) + t == ['"'] + more;
    assert (['"'] + more)[1..] == more;
  }

  lemma ReadNatWritten(n: nat, t: string)
    requires t != "" && !IsDigit(t[0])
    ensures ReadValue(WriteValue(JNat(n)) + t) == Got(JNat(n), t)
  {
    ReadDigitsWritten(n, t);
    assert (WriteNat(n) + t)[0] == WriteNat(n)[0];
  }

  lemma ReadValueWritten(v: Json, t: string)
    requires t != "" && !IsDigit(t[0])
    ensures ReadValue(WriteValue(v) + t) == Got(v, t)
  {
    match v
    case JNat(n) => ReadNatWritten(n, t);
    case JStr(text) => ReadStringWritten(text, t);
    case JNull =>
      var s := "null" + t;
      assert s[..4] == "null" && s[4..] == t && s[0] == 'n';
  }

  lemma ExpectWritten(literal: string, t: string)
    requires literal != "" && literal[0] != ' '
    ensures Expect(literal + t, literal) == Got((), t)
  {
  }

  lemma {:induction false} ReadFieldsWritten(keys: seq<string>, values: seq<Json>, t: string)
    requires |keys| == |values|
    requires forall i :: 0 <= i < |keys| ==> keys[i] != "" && keys[i][0] != ' '
    requires forall i :: 0 < i < |keys| ==> !IsDigit(keys[i][0])
    requires t != "" && !IsDigit(t[0])
    ensures ReadFields(keys, WriteFields(keys, values) + t) == Got(values, t)
  {
    hide Expect, ReadValue, WriteValue;
    if keys == [] {
      assert WriteFields(keys, values) + t == t;
    } else {
      var more := WriteFields(keys[1..], values[1..]) + t;
      RegroupFields(keys[0], WriteValue(values[0]), WriteFields(keys[1..], values[1..]), t);
      ExpectWritten(keys[0], WriteValue(values[0]) + more);
      StartOfFields(keys[1..], values[1..], t);
      ReadValueWritten(values[0], more);
      ReadFieldsWritten(keys[1..], values[1..], t);
      assert values == [values[0]] + values[1..];
    }
  }

  lemma RegroupFields(a: string, b: string, c: string, t: string)
    ensures a + (b + c) + t == a + (b + (c + t))
  {
  }

  lemma StartOfFields(keys: seq<string>, values: seq<Json>, t: string)
    requires |keys| == |values| && (keys != [] ==> keys[0] != "")
    ensures keys == [] ==> WriteFields(keys, values) + t == t
    ensures keys != [] ==> WriteFields(keys, values) + t != "" && (WriteFields(keys, values) + t)[0] == keys[0][0]
  {
  }

  lemma ReadWritten(values: seq<Json>)
    requires |values| == |KEYS|
    ensures Read(Write(values)) == Some(values)
  {
    hide ReadFields, WriteFields, Expect;
    ExpectWritten("{", WriteFields(KEYS, values) + "}");
    ReadFieldsWritten(KEYS, values, "}");
    ExpectWritten("}", "");
    assert "}" + "" == "}";
  }

  /** What follows a written record on its line may only be spaces. */
  lemma ReadsWholeLine(values: seq<Json>, t: string)
    requires |values| == |KEYS|
    ensures Read(Write(values) + t) == if forall c :: c in t ==> c == ' ' then Some(values) else None
  {
    hide ReadFields, WriteFields, Expect;
    var fields := WriteFields(KEYS, values);
    assert Write(values) + t == "{" + (fields + ("}" + t));
    ExpectWritten("{", fields + ("}" + t));
    ReadFieldsWritten(KEYS, values, "}" + t);
    ExpectWritten("}", t);
    OnlySpaces(t);
  }

  lemma {:induction false} OnlySpaces(t: string)
    ensures SkipSpaces(t) == "" <==> forall c :: c in t ==> c == ' '
  {
    if t != "" {
      OnlySpaces(t[1..]);
      assert t[0] in t && forall c :: c in t <==> c == t[0] || c in t[1..];
    }
  }

  // ---- a written record is one line ----

  lemma {:induction false} WrittenNatIsLine(n: nat)
    ensures '\n' !in WriteNat(n) && '$' !in WriteNat(n)
  {
    if n >= 10 { WrittenNatIsLine(n / 10); }
  }

  lemma {:induction false} EscapedIsLine(s: string)
    ensures '\n' !in Escape(s)
    ensures '$' !in s ==> '$' !in Escape(s)
  {
    if s != "" { EscapedIsLine(s[1..]); }
  }

  predicate NoDollar(v: Json) {
    v.JStr? ==> '$' !in v.s
  }

  lemma {:induction false} WrittenFieldsAreLine(keys: seq<string>, values: seq<Json>)
    requires |keys| == |values|
    requires forall i :: 0 <= i < |keys| ==> '\n' !in keys[i] && '$' !in keys[i]
    ensures '\n' !in WriteFields(keys, values)
    ensures (forall i :: 0 <= i < |values| ==> NoDollar(values[i])) ==> '$' !in WriteFields(keys, values)
  {
    if keys != [] {
      WrittenFieldsAreLine(keys[1..], values[1..]);
      match values[0] {
        case JNat(n) => WrittenNatIsLine(n);
        case JStr(s) => EscapedIsLine(s);
        case JNull =>
      }
    }
  }

  lemma WrittenIsLine(values: seq<Json>)
    requires |values| == |KEYS|
    ensures '\n' !in Write(values)
    ensures (forall i :: 0 <= i < |values| ==> NoDollar(values[i])) ==> '$' !in Write(values)
  {
    WrittenFieldsAreLine(KEYS, values);
  }

  // ---- a readable line cannot be continued to a different readable line ----

  lemma {:induction false} SkipSpacesMore(s: string, t: string)
    requires SkipSpaces(s) != ""
    ensures SkipSpaces(s + t) == SkipSpaces(s) + t
  {
    if s != "" && s[0] == ' ' {
      SkipSpacesMore(s[1..], t);
      assert (s + t)[1..] == s[1..] + t;
    }
  }

  lemma ExpectMore(s: string, literal: string, t: string)
    requires literal != "" && Expect(s, literal).Got?
    ensures Expect(s + t, literal) == Got((), Expect(s, literal).rest + t)
  {
    SkipSpacesMore(s, t);
    var u := SkipSpaces(s);
    assert (u + t)[|literal|..] == u[|literal|..] + t;
  }

  lemma {:induction false} ReadDigitsMore(s: string, acc: nat, t: string)
    requires ReadDigits(s, acc).1 != ""
    ensures ReadDigits(s + t, acc) == (ReadDigits(s, acc).0, ReadDigits(s, acc).1 + t)
    decreases |s|
  {
    if s != "" && IsDigit(s[0]) {
      ReadDigitsMore(s[1..], acc * 10 + (s[0] as int - '0' as int), t);
      assert (s + t)[1..] == s[1..] + t;
    }
  }

  lemma {:induction false} ReadCharsMore(s: string, t: string)
    requires ReadChars(s).Got?
    ensures ReadChars(s + t) == Got(ReadChars(s).value, ReadChars(s).rest + t)
    decreases |s|
  {
    if s[0] == '"' {
      assert (s + t)[1..] == s[1..] + t;
    } else if s[0] == '\\' {
      ReadCharsMore(s[2..], t);
      assert (s + t)[2..] == s[2..] + t;
    } else {
      ReadCharsMore(s[1..], t);
      assert (s + t)[1..] == s[1..] + t;
    }
  }

  lemma ReadValueMore(s: string, t: string)
    requires ReadValue(s).Got? && ReadValue(s).rest != ""
    ensures ReadValue(s + t) == Got(ReadValue(s).value, ReadValue(s).rest + t)
  {
    SkipSpacesMore(s, t);
    var u := SkipSpaces(s);
    assert (u + t)[0] == u[0];
    if IsDigit(u[0]) {
      ReadDigitsMore(u, 0, t);
    } else if u[0] == '"' {
      ReadCharsMore(u[1..], t);
      assert (u + t)[1..] == u[1..] + t;
    } else {
      assert (u + t)[..4] == u[..4] && (u + t)[4..] == u[4..] + t;
    }
  }

  lemma {:induction false} ReadFieldsMore(keys: seq<string>, s: string, t: string)
    requires forall i :: 0 <= i < |keys| ==> keys[i] != ""
    requires ReadFields(keys, s).Got? && ReadFields(keys, s).rest != ""
    ensures ReadFields(keys, s + t) == Got(ReadFields(keys, s).value, ReadFields(keys, s).rest + t)
  {
    if keys != [] {
      ExpectMore(s, keys[0], t);
      var a := Expect(s, keys[0]).rest;
      var b := ReadValue(a).rest;
      if keys[1..] != [] {
        assert Expect(b, keys[1..][0]).Got?;
      }
      ReadValueMore(a, t);
      ReadFieldsMore(keys[1..], b, t);
    }
  }

  /** If a readable line is a prefix of another, both say the same. */
  lemma ReadPrefix(l: string, m: string)
    requires Read(l).Some? && Read(m).Some? && l <= m
    ensures Read(l) == Read(m)
  {
    var t := m[|l|..];
    assert m == l + t;
    ExpectMore(l, "{", t);
    var a := Expect(l, "{").rest;
    var b := ReadFields(KEYS, a).rest;
    ReadFieldsMore(KEYS, a, t);
    ExpectMore(b, "}", t);
  }
}
