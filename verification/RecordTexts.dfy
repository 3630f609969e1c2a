/** Written session records as texts: they are one line, read back as themselves, and what
    `replace` makes of the dollar signs in a token. */
module RecordTexts {
  import opened Prelude
  import opened JsText
  import opened SessionCodec
  import opened WorkPlan

  predicate ValidSession(s: Session) {
    ValidFields(ToFields(s))
  }

  /** A written record is one line that reads back as itself. */
  lemma SessionRoundTrip(s: Session)
    requires ValidSession(s)
    ensures ReadSession(WriteSession(s)) == Ok(s)
    ensures '\n' !in WriteSession(s)
  {
    ReadWritten(ToFields(s));
    WrittenIsLine(ToFields(s));
  }

  /** Which written sessions read back; any other is refused as invalid. */
  lemma SessionReads(s: Session)
    ensures ReadSession(WriteSession(s)) ==
            if s.token != "" && s.beforeStatus in ["", "NEEDS-ACTION", "IN-PROCESS"] && s.beforePercent <= 99 &&
               ((s.end == None && s.result == None) ||
                (s.end.Some? && s.result.Some? && s.result.value in ["stop", "complete", "cancel"]))
            then Ok(s) else Err(InvalidSession)
  {
    hide Write, Read;
    ReadWritten(ToFields(s));
  }

  /** Outside the identity and the token a valid session holds no dollar sign. */
  lemma FieldsPlain(s: Session)
    requires ValidSession(s) && '$' !in s.identity
    ensures forall k :: 0 <= k < 8 && k != 2 ==> NoDollar(ToFields(s)[k])
  {
    var v := ToFields(s);
    assert NoDollar(v[0]) && NoDollar(v[1]) && NoDollar(v[3]) && NoDollar(v[4]);
    assert NoDollar(v[5]) && NoDollar(v[6]) && NoDollar(v[7]);
  }

  lemma KeysPlain()
    ensures forall k :: 0 <= k < |KEYS| ==> '\n' !in KEYS[k] && '$' !in KEYS[k]
  {
  }

  /** What surrounds one value in a written record does not depend on the value. */
  lemma {:induction false} FieldsAround(keys: seq<string>, values: seq<Json>, i: nat) returns (a: string, b: string)
    requires i < |keys| == |values|
    requires forall k :: 0 <= k < |keys| ==> '\n' !in keys[k] && '$' !in keys[k]
    requires forall k :: 0 <= k < |values| && k != i ==> NoDollar(values[k])
    ensures '$' !in a && '$' !in b
    ensures forall v :: WriteFields(keys, values[i := v]) == a + (WriteValue(v) + b)
  {
    hide NoDollar, WriteValue;
    if i == 0 {
      a, b := keys[0], WriteFields(keys[1..], values[1..]);
      WrittenFieldsAreLine(keys[1..], values[1..]);
      forall v ensures WriteFields(keys, values[i := v]) == a + (WriteValue(v) + b) {
        assert values[i := v][1..] == values[1..];
      }
    } else {
      var c;
      c, b := FieldsAround(keys[1..], values[1..], i - 1);
      a := keys[0] + (WriteValue(values[0]) + c);
      OneFieldIsPlain(keys[0], values[0]);
      forall v ensures WriteFields(keys, values[i := v]) == a + (WriteValue(v) + b) {
        assert values[i := v][1..] == values[1..][i - 1 := v];
        Reassociate(keys[0], WriteValue(values[0]), c, WriteValue(v) + b);
      }
    }
  }

  lemma OneFieldIsPlain(key: string, value: Json)
    requires '\n' !in key && '$' !in key && NoDollar(value)
    ensures '$' !in key + WriteValue(value)
  {
    WrittenFieldsAreLine([key], [value]);
    assert WriteFields([], []) == "" && [key][1..] == [] && [value][1..] == [];
    assert WriteValue(value) + "" == WriteValue(value);
  }

  lemma Reassociate(a: string, b: string, c: string, d: string)
    ensures a + (b + (c + d)) == (a + (b + c)) + d
  {
  }

  /** What surrounds the token in a written record does not depend on the token. */
  lemma AroundToken(s: Session) returns (left: string, right: string)
    requires ValidSession(s) && '$' !in s.identity
    ensures '$' !in left && '$' !in right && right != "" && right[0] == '"'
    ensures forall t :: WriteSession(s.(token := t)) == left + (Escape(t) + right)
  {
    hide ValidSession, NoDollar, WriteFields, Escape;
    var fields := ToFields(s);
    FieldsPlain(s);
    KeysPlain();
    var a, b := FieldsAround(KEYS, fields, 2);
    left, right := ['{'] + (a + ['"']), ['"'] + (b + ['}']);
    forall t ensures WriteSession(s.(token := t)) == left + (Escape(t) + right) {
      assert fields[2 := JStr(t)] == ToFields(s.(token := t));
      assert WriteFields(KEYS, fields[2 := JStr(t)]) == a + (WriteValue(JStr(t)) + b);
      assert WriteValue(JStr(t)) == ['"'] + (Escape(t) + ['"']);
      Regroup(a, Escape(t), b);
    }
  }

  lemma Regroup(a: string, m: string, b: string)
    ensures ['{'] + ((a + ((['"'] + (m + ['"'])) + b)) + ['}']) == (['{'] + (a + ['"'])) + (m + (['"'] + (b + ['}'])))
  {
  }

  lemma EscapeFirst(t: string, right: string)
    requires t != ""
    ensures Escape(t) + right == EscapeChar(t[0]) + (Escape(t[1..]) + right)
  {
  }

  lemma EscapeEmpty(right: string)
    ensures Escape("") + right == right
  {
  }

  /** What a pair inserts. */
  function Inserted(c: char, matched: string, before: string, after: string): string {
    if c == '$' then "$" else if c == '&' then matched else if c == '`' then before else after
  }

  lemma ExpandPair(c: char, rest: string, matched: string, before: string, after: string)
    requires Special(c)
    ensures Expand(['$', c] + rest, matched, before, after) ==
            Inserted(c, matched, before, after) + Expand(rest, matched, before, after)
  {
  }

  lemma ExpandLone(rest: string, matched: string, before: string, after: string)
    requires rest != "" && !Special(rest[0])
    ensures Expand(['$'] + rest, matched, before, after) == ['$'] + Expand(rest, matched, before, after)
  {
  }

  lemma EscapePair(t: string, right: string)
    requires |t| >= 2 && t[0] == '$' && Special(t[1])
    ensures Escape(t) + right == ['$', t[1]] + (Escape(t[2..]) + right)
  {
    hide Escape, EscapeChar;
    EscapeFirst(t, right);
    EscapeFirst(t[1..], right);
    assert t[1..][1..] == t[2..];
    SpecialIsPlain('$');
    SpecialIsPlain(t[1]);
    TwoChars('$', t[1], Escape(t[2..]) + right);
  }

  lemma SpecialIsPlain(c: char)
    requires Special(c)
    ensures EscapeChar(c) == [c]
  {
  }

  lemma TwoChars(c: char, d: char, s: string)
    ensures [c] + ([d] + s) == [c, d] + s
  {
  }

  lemma NextIsPlain(t: string, right: string)
    requires right != "" && right[0] == '"'
    requires t != "" ==> !Special(t[0])
    ensures Escape(t) + right != "" && !Special((Escape(t) + right)[0])
  {
  }

  lemma EscapeCons(c: char, t: string, right: string)
    ensures Escape([c] + t) + right == EscapeChar(c) + (Escape(t) + right)
  {
  }

  /** Some pair of the text inserts something. */
  predicate Breaks(t: string, before: string, after: string) {
    Pairs(t, '&') || (before != "" && Pairs(t, '`')) || (after != "" && Pairs(t, '\''))
  }

  /** A written token as a replacement, where every text that a pair could insert is empty or begins
      with a newline: either the line ends inside the token, or the token is stored collapsed. */
  lemma {:induction false} ExpandToken(t: string, right: string, matched: string, before: string, after: string)
    returns (u: string, rest: string)
    requires '$' !in right && right != "" && right[0] == '"'
    requires matched != "" && LineEnd(matched) && LineEnd(after) && (Pairs(t, '`') ==> LineEnd(before))
    ensures Breaks(t, before, after) ==> Expand(Escape(t) + right, matched, before, after) == Escape(u) + (['\n'] + rest)
    ensures !Breaks(t, before, after) ==> Expand(Escape(t) + right, matched, before, after) == Escape(Collapse(t)) + right
    decreases |t|
  {
    hide Expand, Escape;
    u, rest := "", "";
    if t == "" {
      EscapeEmpty(right);
      ExpandLiteral(right, matched, before, after);
    } else if |t| >= 2 && t[0] == '$' && Special(t[1]) {
      var more := Escape(t[2..]) + right;
      var x, tail := Inserted(t[1], matched, before, after), Expand(more, matched, before, after);
      EscapePair(t, right);
      ExpandPair(t[1], more, matched, before, after);
      u, rest := ExpandToken(t[2..], right, matched, before, after);
      if t[1] == '$' {
        EscapeCons('$', u, ['\n'] + rest);
        EscapeCons('$', Collapse(t[2..]), right);
        u := ['$'] + u;
      } else if x == "" {
        assert x + tail == tail && "" + Collapse(t[2..]) == Collapse(t[2..]);
      } else {
        u, rest := "", x[1..] + tail;
        EscapeEmpty(['\n'] + rest);
        assert x + tail == ['\n'] + rest;
      }
    } else {
      var more := Escape(t[1..]) + right;
      EscapeFirst(t, right);
      if t[0] == '$' {
        NextIsPlain(t[1..], right);
        ExpandLone(more, matched, before, after);
      } else {
        ExpandPlain(EscapeChar(t[0]), more, matched, before, after);
      }
      u, rest := ExpandToken(t[1..], right, matched, before, after);
      EscapeCons(t[0], u, ['\n'] + rest);
      EscapeCons(t[0], Collapse(t[1..]), right);
      u := [t[0]] + u;
    }
  }

  /** A record that ends inside its token cannot be read: it would begin two records with different
      tokens. */
  lemma Unterminated(s: Session, left: string, right: string, u: string)
    requires forall t :: WriteSession(s.(token := t)) == left + (Escape(t) + right)
    ensures '\n' !in left + Escape(u) && Read(left + Escape(u)).None?
  {
    hide Read, WriteSession, Escape;
    var l, v := left + Escape(u), u + "x";
    var m, n := s.(token := u), s.(token := v);
    EscapeMore(u);
    assert WriteSession(m) == l + right;
    assert WriteSession(n) == l + ("x" + right) by {
      assert left + ((Escape(u) + "x") + right) == (left + Escape(u)) + ("x" + right);
    }
    WrittenReadsBack(m);
    WrittenReadsBack(n);
    assert ToFields(m)[2] != ToFields(n)[2];
    assert forall c :: c in l ==> c in WriteSession(m);
    if Read(l).Some? {
      ReadPrefix(l, WriteSession(m));
      ReadPrefix(l, WriteSession(n));
    }
  }

  lemma WrittenReadsBack(s: Session)
    ensures Read(WriteSession(s)) == Some(ToFields(s)) && '\n' !in WriteSession(s)
  {
    ReadWritten(ToFields(s));
    WrittenIsLine(ToFields(s));
  }

  lemma {:induction false} EscapeMore(u: string)
    ensures Escape(u + "x") == Escape(u) + "x"
  {
    if u == "" {
      assert u + "x" == "x" && "x"[1..] == "";
    } else {
      assert (u + "x")[0] == u[0] && (u + "x")[1..] == u[1..] + "x";
      EscapeMore(u[1..]);
      assert EscapeChar(u[0]) + (Escape(u[1..]) + "x") == EscapeChar(u[0]) + Escape(u[1..]) + "x";
    }
  }

  /** What replacing a line by a record stores, when the texts around that line are empty or begin
      with a newline where a pair of the token could insert them: an unreadable line if some pair
      does insert something, and otherwise the record with its token collapsed. */
  lemma ReplaceStores(description: string, pattern: string, record: Session) returns (line: string, rest: string)
    requires ValidSession(record) && '$' !in record.identity
    requires pattern != "" && LineEnd(pattern) && Cut(description, pattern).Some?
    requires var (b, a) := Cut(description, pattern).value; LineEnd(a) && (Pairs(record.token, '`') ==> LineEnd(b))
    ensures var (b, a) := Cut(description, pattern).value;
            if Breaks(record.token, b, a) then
              && '\n' !in line && Read(line).None?
              && Replace(description, pattern, Marker() + WriteSession(record)) ==
                 ReplaceLiteral(description, pattern, Marker() + (line + (['\n'] + rest)))
            else
              Replace(description, pattern, Marker() + WriteSession(record)) ==
              ReplaceLiteral(description, pattern, Marker() + WriteSession(record.(token := Collapse(record.token))))
  {
    hide Marker, WriteSession, ValidSession, Expand, Escape, Collapse, Pairs, Read, Cut;
    var t := record.token;
    var (b, a) := Cut(description, pattern).value;
    var left, right := AroundToken(record);
    assert record.(token := t) == record && "" + b == b;
    ReplaceAround("", description, pattern, Marker() + WriteSession(record));
    var u;
    u, rest := ExpandToken(t, right, pattern, b, a);
    line := left + Escape(u);
    Unterminated(record, left, right, u);
    ExpandPlain(Marker() + left, Escape(t) + right, pattern, b, a);
    assert (Marker() + left) + (Escape(t) + right) == Marker() + (left + (Escape(t) + right));
    assert (Marker() + left) + (Escape(Collapse(t)) + right) == Marker() + (left + (Escape(Collapse(t)) + right));
    assert (Marker() + left) + (Escape(u) + (['\n'] + rest)) == Marker() + (line + (['\n'] + rest));
  }

  /** The remaining pair stands for the text before the record. For the token that is this pair, the
      record is stored unchanged if and only if that text happens to be the pair itself. */
  lemma BacktickToken(record: Session, matched: string, before: string, after: string)
    requires ValidSession(record) && '$' !in record.identity && record.token == ['$', '`']
    ensures Expand(Marker() + WriteSession(record), matched, before, after) == Marker() + WriteSession(record)
            <==> before == ['$', '`']
  {
    hide Marker, WriteSession, ValidSession, Expand, Escape;
    var t := record.token;
    var left, right := AroundToken(record);
    assert record.(token := t) == record && t[2..] == "";
    EscapePair(t, right);
    EscapeEmpty(right);
    assert Escape(t) + right == ['$', '`'] + right;
    ExpandPair('`', right, matched, before, after);
    ExpandLiteral(right, matched, before, after);
    ExpandPlain(Marker() + left, Escape(t) + right, matched, before, after);
    var head := Marker() + left;
    assert Marker() + WriteSession(record) == head + (['$', '`'] + right);
    Between(head, before, ['$', '`'], right);
  }

  lemma Between(a: string, x: string, y: string, b: string)
    ensures a + (x + b) == a + (y + b) <==> x == y
  {
    if a + (x + b) == a + (y + b) {
      assert |x| == |y|;
      assert (a + (x + b))[|a|..|a| + |x|] == x && (a + (y + b))[|a|..|a| + |y|] == y;
    }
  }
}
