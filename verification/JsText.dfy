/** The JavaScript string operations the session log is built on: `split` and `replace` by a
    separator, and the first line of a text. `p <= s` says that s begins with p. */
module JsText {
  import opened Prelude

  /** What precedes and what follows the first occurrence of p in s. */
  function Cut(s: string, p: string): (r: Option<(string, string)>)
    ensures r.Some? ==> |r.value.0| + |p| + |r.value.1| == |s|
  {
    if p <= s then Some(("", s[|p|..]))
    else if s == "" then None
    else match Cut(s[1..], p)
         case None => None
         case Some((head, tail)) => Some(([s[0]] + head, tail))
  }

  function Split(s: string, sep: string): (parts: seq<string>)
    requires sep != ""
    ensures |parts| >= 1
    decreases |s|
  {
    match Cut(s, sep)
    case None => [s]
    case Some((head, tail)) => [head] + Split(tail, sep)
  }

  function Join(parts: seq<string>, sep: string): string
    requires |parts| >= 1
  {
    if |parts| == 1 then parts[0] else parts[0] + (sep + Join(parts[1..], sep))
  }

  function FirstLine(s: string): (line: string)
    ensures line <= s && '\n' !in line
    ensures |line| < |s| ==> s[|line|] == '\n'
  {
    if s == "" || s[0] == '\n' then "" else [s[0]] + FirstLine(s[1..])
  }

  /** `replace` with a string pattern: the first occurrence, where a `$` in the replacement may
      stand for a dollar sign, the match, or the text before or after it. */
  function Replace(s: string, pattern: string, replacement: string): string {
    ReplaceFrom("", s, pattern, replacement)
  }

  function ReplaceFrom(before: string, s: string, pattern: string, replacement: string): string
    decreases |s|
  {
    if pattern <= s then Expand(replacement, pattern, before, s[|pattern|..]) + s[|pattern|..]
    else if s == "" then ""
    else [s[0]] + ReplaceFrom(before + [s[0]], s[1..], pattern, replacement)
  }

  function Expand(r: string, matched: string, before: string, after: string): string {
    if |r| >= 2 && r[0] == '$' && r[1] == '$' then "$" + Expand(r[2..], matched, before, after)
    else if |r| >= 2 && r[0] == '$' && r[1] == '&' then matched + Expand(r[2..], matched, before, after)
    else if |r| >= 2 && r[0] == '$' && r[1] == '`' then before + Expand(r[2..], matched, before, after)
    else if |r| >= 2 && r[0] == '$' && r[1] == '\'' then after + Expand(r[2..], matched, before, after)
    else if r != "" then [r[0]] + Expand(r[1..], matched, before, after)
    else ""
  }

  /** Replacing the first occurrence by a text that is taken literally. */
  function ReplaceLiteral(s: string, pattern: string, replacement: string): string {
    if pattern <= s then replacement + s[|pattern|..]
    else if s == "" then ""
    else [s[0]] + ReplaceLiteral(s[1..], pattern, replacement)
  }

  lemma {:induction false} ExpandLiteral(r: string, matched: string, before: string, after: string)
    requires '$' !in r
    ensures Expand(r, matched, before, after) == r
  {
    if r != "" { ExpandLiteral(r[1..], matched, before, after); }
  }

  lemma {:induction false} ExpandPlain(a: string, r: string, matched: string, before: string, after: string)
    requires '$' !in a
    ensures Expand(a + r, matched, before, after) == a + Expand(r, matched, before, after)
  {
    hide Expand;
    if a == "" {
      assert a + r == r;
    } else {
      assert a[0] in a;
      ExpandPlain(a[1..], r, matched, before, after);
      ExpandOne(a[0], a[1..] + r, matched, before, after);
      RegroupFirst(a, r);
      RegroupFirst(a, Expand(r, matched, before, after));
    }
  }

  lemma ExpandOne(c: char, r: string, matched: string, before: string, after: string)
    requires c != '$'
    ensures Expand([c] + r, matched, before, after) == [c] + Expand(r, matched, before, after)
  {
    assert ([c] + r)[1..] == r;
  }

  lemma RegroupFirst(a: string, r: string)
    requires a != ""
    ensures a + r == [a[0]] + (a[1..] + r)
  {
  }

  /** What may follow a dollar sign in a replacement and be interpreted with it. */
  predicate Special(c: char) {
    c == '$' || c == '&' || c == '`' || c == '\''
  }

  /** No dollar sign is followed by a special character. */
  predicate Literal(t: string) {
    forall i :: 0 <= i < |t| - 1 && t[i] == '$' ==> !Special(t[i + 1])
  }

  /** Read from the left, the text has the pair of a dollar sign and c. */
  predicate Pairs(t: string, c: char) {
    if |t| >= 2 && t[0] == '$' && Special(t[1]) then t[1] == c || Pairs(t[2..], c)
    else t != "" && Pairs(t[1..], c)
  }

  /** The text with each doubled dollar sign as one and without the other pairs. */
  function Collapse(t: string): string {
    if |t| >= 2 && t[0] == '$' && Special(t[1]) then (if t[1] == '$' then "$" else "") + Collapse(t[2..])
    else if t == "" then ""
    else [t[0]] + Collapse(t[1..])
  }

  /** Collapsing changes exactly the texts that are not literal; it makes them shorter. */
  lemma {:induction false} CollapseLaw(t: string)
    ensures |Collapse(t)| <= |t|
    ensures Collapse(t) == t <==> Literal(t)
    ensures t != "" && !Pairs(t, '&') && !Pairs(t, '`') && !Pairs(t, '\'') ==> Collapse(t) != ""
    decreases |t|
  {
    if |t| >= 2 && t[0] == '$' && Special(t[1]) {
      CollapseLaw(t[2..]);
    } else if t != "" {
      CollapseLaw(t[1..]);
      LiteralTail(t);
      assert t == [t[0]] + t[1..];
    }
  }

  lemma LiteralTail(t: string)
    requires t != "" && !(|t| >= 2 && t[0] == '$' && Special(t[1]))
    ensures Literal(t) <==> Literal(t[1..])
  {
  }

  /** A literal text has no pair at all. */
  lemma {:induction false} LiteralHasNoPairs(t: string, c: char)
    requires Literal(t)
    ensures !Pairs(t, c)
    decreases |t|
  {
    if t != "" {
      LiteralTail(t);
      LiteralHasNoPairs(t[1..], c);
    }
  }

  /** Without an occurrence nothing is replaced. */
  lemma {:induction false} ReplaceNothing(before: string, s: string, pattern: string, r: string)
    requires Cut(s, pattern).None?
    ensures ReplaceFrom(before, s, pattern, r) == s
    decreases |s|
  {
    if s != "" {
      ReplaceNothing(before + [s[0]], s[1..], pattern, r);
    }
  }

  /** The replacement is expanded with the texts around the first occurrence. */
  lemma {:induction false} ReplaceAround(before: string, s: string, pattern: string, r: string)
    requires Cut(s, pattern).Some?
    ensures var (b, a) := Cut(s, pattern).value;
            ReplaceFrom(before, s, pattern, r) == ReplaceLiteral(s, pattern, Expand(r, pattern, before + b, a))
    decreases |s|
  {
    if pattern <= s {
      assert before + "" == before;
    } else {
      ReplaceAround(before + [s[0]], s[1..], pattern, r);
      var (b, a) := Cut(s[1..], pattern).value;
      assert (before + [s[0]]) + b == before + ([s[0]] + b);
    }
  }

  // ---- searching past a text in which nothing begins ----

  /** No occurrence of p begins inside a when t follows it. */
  predicate NothingBegins(a: string, t: string, p: string) {
    forall j :: 0 <= j < |a| ==> !(p <= a[j..] + t)
  }

  lemma NothingBeginsTail(a: string, t: string, p: string)
    requires a != "" && NothingBegins(a, t, p)
    ensures !(p <= a + t)
    ensures (a + t)[1..] == a[1..] + t && NothingBegins(a[1..], t, p)
  {
    assert a[0..] == a;
    forall j | 0 <= j < |a[1..]| ensures !(p <= a[1..][j..] + t) {
      assert a[1..][j..] == a[j + 1..];
    }
  }

  lemma {:induction false} CutSkip(a: string, t: string, p: string)
    requires NothingBegins(a, t, p) && p <= t
    ensures Cut(a + t, p) == Some((a, t[|p|..]))
  {
    if a == "" {
      assert a + t == t;
    } else {
      NothingBeginsTail(a, t, p);
      CutSkip(a[1..], t, p);
      assert a == [a[0]] + a[1..];
    }
  }

  lemma {:induction false} CutPast(a: string, t: string, p: string)
    requires NothingBegins(a, t, p)
    ensures Cut(a + t, p) == match Cut(t, p) case None => None case Some((b, c)) => Some((a + b, c))
  {
    if a == "" {
      assert a + t == t;
      if Cut(t, p).Some? { assert a + Cut(t, p).value.0 == Cut(t, p).value.0; }
    } else {
      NothingBeginsTail(a, t, p);
      CutPast(a[1..], t, p);
      assert a == [a[0]] + a[1..];
      if Cut(t, p).Some? { assert [a[0]] + (a[1..] + Cut(t, p).value.0) == a + Cut(t, p).value.0; }
    }
  }

  lemma {:induction false} ReplaceSkip(a: string, t: string, p: string, r: string)
    requires NothingBegins(a, t, p)
    ensures ReplaceLiteral(a + t, p, r) == a + ReplaceLiteral(t, p, r)
  {
    if a == "" {
      assert a + t == t;
    } else {
      NothingBeginsTail(a, t, p);
      ReplaceSkip(a[1..], t, p, r);
      assert a == [a[0]] + a[1..];
      assert a + ReplaceLiteral(t, p, r) == [a[0]] + (a[1..] + ReplaceLiteral(t, p, r));
    }
  }

  // ---- separators that start a line and cannot overlap themselves ----

  /** The separator begins with a newline and has no other. */
  predicate StartsLine(sep: string) {
    sep != "" && sep[0] == '\n' && '\n' !in sep[1..]
  }

  /** The separator does not occur. */
  predicate Clean(s: string, sep: string) {
    forall j :: 0 <= j < |s| ==> !(sep <= s[j..])
  }

  lemma CleanCons(c: char, s: string, sep: string)
    ensures Clean([c] + s, sep) <==> Clean(s, sep) && !(sep <= [c] + s)
  {
    assert ([c] + s)[0..] == [c] + s;
    assert forall j :: 0 < j <= |s| ==> ([c] + s)[j..] == s[j - 1..];
    assert forall j :: 0 <= j < |s| ==> s[j..] == ([c] + s)[j + 1..];
  }

  lemma {:induction false} CleanIsUncut(s: string, sep: string)
    requires sep != ""
    ensures Clean(s, sep) <==> Cut(s, sep).None?
  {
    if s != "" {
      CleanIsUncut(s[1..], sep);
      CleanCons(s[0], s[1..], sep);
      assert s == [s[0]] + s[1..];
    }
  }

  /** No separator begins inside p0, even if one follows. */
  lemma NothingStraddles(p0: string, sep: string, t: string)
    requires StartsLine(sep) && Clean(p0, sep)
    ensures NothingBegins(p0, sep + t, sep)
  {
    forall j | 0 <= j < |p0| ensures !(sep <= p0[j..] + (sep + t)) {
      var here := p0[j..] + (sep + t);
      var n := |p0| - j;
      if |sep| <= n {
        assert !(sep <= p0[j..]);
        assert here[..n] == p0[j..];
      } else {
        assert here[n] == sep[0];
        assert sep[n] == sep[1..][n - 1] != '\n';
      }
    }
  }

  /** Nothing begins inside the separator after its first character. */
  lemma NothingInside(sep: string, t: string)
    requires StartsLine(sep)
    ensures NothingBegins(sep[1..], t, sep)
  {
  }

  lemma NothingBeginsLonger(a: string, t: string, p: string, q: string)
    requires NothingBegins(a, t, p) && p <= q
    ensures NothingBegins(a, t, q)
  {
  }

  lemma MarkedHere(sep: string, t: string, l: string)
    ensures sep + l <= sep + t <==> l <= t
  {
    if |l| <= |t| {
      assert (sep + t)[..|sep + l|] == sep + t[..|l|];
      assert (sep + t)[..|sep + l|][|sep|..] == t[..|l|];
      assert (sep + l)[|sep|..] == l;
    }
  }

  lemma ReplaceAtMarker(sep: string, t: string, l: string, r: string)
    requires StartsLine(sep)
    ensures ReplaceLiteral(sep + t, sep + l, sep + r) ==
            sep + if l <= t then r + t[|l|..] else ReplaceLiteral(t, sep + l, sep + r)
  {
    MarkedHere(sep, t, l);
    if l <= t {
      assert (sep + t)[|sep + l|..] == t[|l|..];
      assert (sep + r) + t[|l|..] == sep + (r + t[|l|..]);
    } else {
      NothingInside(sep, t);
      NothingBeginsLonger(sep[1..], t, sep, sep + l);
      ReplaceSkip(sep[1..], t, sep + l, sep + r);
      assert (sep + t)[1..] == sep[1..] + t;
      assert sep == [sep[0]] + sep[1..];
      assert [sep[0]] + (sep[1..] + ReplaceLiteral(t, sep + l, sep + r)) == sep + ReplaceLiteral(t, sep + l, sep + r);
    }
  }

  /** Replacing sep + l in p0 + sep + t: right after p0, or else wherever it is replaced in t. */
  lemma ReplaceMarked(p0: string, sep: string, t: string, l: string, r: string)
    requires StartsLine(sep) && Clean(p0, sep)
    ensures ReplaceLiteral(p0 + (sep + t), sep + l, sep + r) ==
            p0 + (sep + if l <= t then r + t[|l|..] else ReplaceLiteral(t, sep + l, sep + r))
  {
    hide ReplaceLiteral, NothingBegins, Clean;
    NothingStraddles(p0, sep, t);
    NothingBeginsLonger(p0, sep + t, sep, sep + l);
    ReplaceSkip(p0, sep + t, sep + l, sep + r);
    ReplaceAtMarker(sep, t, l, r);
  }

  /** The first sep + l in p0 + sep + t, in terms of t. */
  lemma CutMarked(p0: string, sep: string, t: string, l: string)
    requires StartsLine(sep) && Clean(p0, sep)
    ensures l <= t ==> Cut(p0 + (sep + t), sep + l) == Some((p0, t[|l|..]))
    ensures !(l <= t) ==>
              (Cut(p0 + (sep + t), sep + l).Some? <==> Cut(t, sep + l).Some?) &&
              (Cut(t, sep + l).Some? ==> Cut(p0 + (sep + t), sep + l).value.1 == Cut(t, sep + l).value.1)
  {
    hide NothingBegins, Clean, Cut;
    NothingStraddles(p0, sep, t);
    NothingBeginsLonger(p0, sep + t, sep, sep + l);
    CutPast(p0, sep + t, sep + l);
    CutAtMarker(sep, t, l);
    assert p0 + "" == p0;
  }

  lemma CutAtMarker(sep: string, t: string, l: string)
    requires StartsLine(sep)
    ensures l <= t ==> Cut(sep + t, sep + l) == Some(("", t[|l|..]))
    ensures !(l <= t) ==>
              (Cut(sep + t, sep + l).Some? <==> Cut(t, sep + l).Some?) &&
              (Cut(t, sep + l).Some? ==> Cut(sep + t, sep + l).value.1 == Cut(t, sep + l).value.1)
  {
    hide NothingBegins, Cut;
    MarkedHere(sep, t, l);
    CutOnce(sep + t, sep + l);
    if l <= t {
      DropBoth(sep, l, t);
    } else {
      NothingInside(sep, t);
      NothingBeginsLonger(sep[1..], t, sep, sep + l);
      CutPast(sep[1..], t, sep + l);
      assert (sep + t)[1..] == sep[1..] + t;
    }
  }

  lemma CutOnce(s: string, p: string)
    requires s != ""
    ensures Cut(s, p) == if p <= s then Some(("", s[|p|..]))
                         else match Cut(s[1..], p) case None => None case Some((head, tail)) => Some(([s[0]] + head, tail))
  {
  }

  lemma DropBoth(sep: string, l: string, t: string)
    requires l <= t
    ensures |sep + l| <= |sep + t| && (sep + t)[|sep + l|..] == t[|l|..]
  {
  }

  // ---- split and join are inverse ----

  lemma SplitCons(p0: string, sep: string, t: string)
    requires StartsLine(sep) && Clean(p0, sep)
    ensures Split(p0 + (sep + t), sep) == [p0] + Split(t, sep)
  {
    NothingStraddles(p0, sep, t);
    CutSkip(p0, sep + t, sep);
  }

  /** Splitting a join gives the parts back, as long as no part contains the separator. */
  lemma {:induction false} SplitJoin(parts: seq<string>, sep: string)
    requires StartsLine(sep) && |parts| >= 1
    requires forall i :: 0 <= i < |parts| ==> Clean(parts[i], sep)
    ensures Split(Join(parts, sep), sep) == parts
  {
    if |parts| == 1 {
      CleanIsUncut(parts[0], sep);
    } else {
      SplitJoin(parts[1..], sep);
      SplitCons(parts[0], sep, Join(parts[1..], sep));
      assert parts == [parts[0]] + parts[1..];
    }
  }

  /** A text is what precedes the first separator, the separator, and the rest. */
  lemma {:induction false} CutSound(s: string, sep: string)
    requires sep != "" && Cut(s, sep).Some?
    ensures var (head, tail) := Cut(s, sep).value;
            s == head + (sep + tail) && Clean(head, sep)
  {
    hide Clean;
    if sep <= s {
      CleanEmpty(sep);
    } else {
      CutSound(s[1..], sep);
      var (head, tail) := Cut(s[1..], sep).value;
      hide Cut;
      RegroupFirst([s[0]] + head, sep + tail);
      assert s == [s[0]] + (head + (sep + tail));
      assert [s[0]] + head <= s;
      NotInPrefix(sep, [s[0]] + head, s);
      CleanCons(s[0], head, sep);
    }
  }

  lemma CleanEmpty(sep: string)
    ensures Clean("", sep)
  {
  }

  lemma NotInPrefix(p: string, q: string, s: string)
    requires q <= s && !(p <= s)
    ensures !(p <= q)
  {
  }

  lemma JoinTwo(p0: string, sep: string, rest: seq<string>)
    requires |rest| >= 1
    ensures Join([p0] + rest, sep) == p0 + (sep + Join(rest, sep))
  {
  }

  /** Joining a split gives the text back, and no part contains the separator. */
  lemma {:induction false} JoinSplit(s: string, sep: string)
    requires sep != ""
    ensures Join(Split(s, sep), sep) == s
    ensures forall i :: 0 <= i < |Split(s, sep)| ==> Clean(Split(s, sep)[i], sep)
    decreases |s|
  {
    CleanIsUncut(s, sep);
    match Cut(s, sep)
    case None =>
    case Some((head, tail)) =>
      CutSound(s, sep);
      JoinSplit(tail, sep);
      JoinTwo(head, sep, Split(tail, sep));
  }

  // ---- replacing one line after a separator ----

  /** A line without newline is a prefix of a text exactly when it is one of its first line. */
  lemma PrefixOfLine(l: string, s: string)
    requires '\n' !in l
    ensures l <= s <==> l <= FirstLine(s)
  {
  }

  lemma {:induction false} FirstLineAppend(s: string, t: string)
    requires t == "" || t[0] == '\n'
    ensures FirstLine(s + t) == FirstLine(s)
  {
    if s == "" {
      assert s + t == t;
    } else if s[0] != '\n' {
      FirstLineAppend(s[1..], t);
      assert (s + t)[1..] == s[1..] + t;
    }
  }

  lemma FirstLineOfJoin(parts: seq<string>, sep: string)
    requires |parts| >= 1 && StartsLine(sep)
    ensures FirstLine(Join(parts, sep)) == FirstLine(parts[0])
  {
    if |parts| > 1 { FirstLineAppend(parts[0], sep + Join(parts[1..], sep)); }
  }

  /** Changing the beginning of the first part changes the beginning of the join. */
  lemma JoinHead(parts: seq<string>, sep: string, l: string, r: string)
    requires |parts| >= 1 && l <= parts[0]
    ensures l <= Join(parts, sep)
    ensures Join(parts[0 := r + parts[0][|l|..]], sep) == r + Join(parts, sep)[|l|..]
  {
  }

  /** Replacing sep + l by sep + r changes the first part that begins with l, and only there. */
  lemma {:induction false} ReplaceLine(parts: seq<string>, sep: string, l: string, r: string, k: nat)
    requires StartsLine(sep) && '\n' !in l
    requires forall i :: 0 <= i < |parts| ==> Clean(parts[i], sep)
    requires 1 <= k < |parts| && l <= parts[k]
    requires forall j :: 1 <= j < k ==> !(l <= FirstLine(parts[j]))
    ensures ReplaceLiteral(Join(parts, sep), sep + l, sep + r) == Join(parts[k := r + parts[k][|l|..]], sep)
  {
    var rest := parts[1..];
    var changed := r + parts[k][|l|..];
    ReplaceMarked(parts[0], sep, Join(rest, sep), l, r);
    assert parts[k := changed][1..] == rest[k - 1 := changed];
    if k == 1 {
      JoinHead(rest, sep, l, r);
    } else {
      PrefixOfLine(l, Join(rest, sep));
      FirstLineOfJoin(rest, sep);
      ReplaceLine(rest, sep, l, r, k - 1);
    }
  }

  /** A text is empty or begins with a newline. */
  predicate LineEnd(s: string) {
    s == "" || s[0] == '\n'
  }

  /** What follows the first sep + l begins at the end of the line l. */
  lemma {:induction false} CutLine(parts: seq<string>, sep: string, l: string, k: nat)
    requires StartsLine(sep) && '\n' !in l
    requires forall i :: 0 <= i < |parts| ==> Clean(parts[i], sep)
    requires 1 <= k < |parts| && l == FirstLine(parts[k])
    requires forall j :: 1 <= j < k ==> !(l <= FirstLine(parts[j]))
    ensures Cut(Join(parts, sep), sep + l).Some? && LineEnd(Cut(Join(parts, sep), sep + l).value.1)
  {
    var rest := parts[1..];
    CutMarked(parts[0], sep, Join(rest, sep), l);
    FirstLineOfJoin(rest, sep);
    PrefixOfLine(l, Join(rest, sep));
    if k > 1 {
      CutLine(rest, sep, l, k - 1);
    }
  }

  /** What is split off a join followed by one more separator and any text. */
  lemma {:induction false} SplitAfter(parts: seq<string>, sep: string, t: string)
    requires StartsLine(sep) && |parts| >= 1
    requires forall i :: 0 <= i < |parts| ==> Clean(parts[i], sep)
    ensures Split(Join(parts, sep) + (sep + t), sep) == parts + Split(t, sep)
  {
    hide Split, Clean;
    if |parts| == 1 {
      SplitCons(parts[0], sep, t);
      assert parts == [parts[0]];
    } else {
      SplitAfter(parts[1..], sep, t);
      var rest := Join(parts[1..], sep) + (sep + t);
      assert Join(parts, sep) + (sep + t) == parts[0] + (sep + rest);
      SplitCons(parts[0], sep, rest);
      assert [parts[0]] + (parts[1..] + Split(t, sep)) == parts + Split(t, sep);
    }
  }

  lemma {:induction false} JoinAt(parts: seq<string>, sep: string, k: nat)
    requires 1 <= k < |parts|
    ensures Join(parts, sep) == Join(parts[..k], sep) + (sep + Join(parts[k..], sep))
  {
    if k == 1 {
      assert parts[..1] == [parts[0]];
    } else {
      JoinAt(parts[1..], sep, k - 1);
      assert parts[1..][..k - 1] == parts[..k][1..] && parts[1..][k - 1..] == parts[k..];
      var a, b := Join(parts[..k][1..], sep), Join(parts[k..], sep);
      assert parts[0] + (sep + (a + (sep + b))) == (parts[0] + (sep + a)) + (sep + b);
    }
  }

  /** The first line of a text that begins with a whole line is that line, split or not. */
  lemma FirstPartLine(l: string, w: string, sep: string)
    requires '\n' !in l && LineEnd(w) && StartsLine(sep)
    ensures FirstLine(Split(l + w, sep)[0]) == l
  {
    forall j | 0 <= j < |l| ensures !(sep <= l[j..] + w) {
      assert (l[j..] + w)[0] == l[j];
      assert l[j] in l;
    }
    CutPast(l, w, sep);
    LineFirst(l, match Cut(w, sep) case None => w case Some((b, _)) => b);
  }

  lemma {:induction false} LineFirst(l: string, w: string)
    requires '\n' !in l && LineEnd(w)
    ensures FirstLine(l + w) == l
  {
    if l == "" {
      assert l + w == w;
    } else {
      assert l[0] in l && (l + w)[1..] == l[1..] + w;
      LineFirst(l[1..], w);
    }
  }
}
