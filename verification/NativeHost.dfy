/** The native host's side: length-prefixed messages on byte streams, and a loop that answers
    every request with any number of progress messages followed by exactly one reply. */
module NativeHost {
  newtype byte = x: int | 0 <= x < 0x100

  type Bytes = seq<byte>

  const MAX_LENGTH := 0x1_0000_0000

  // ---- framing ----

  /** A 32-bit length, least significant byte first. */
  function WriteLength(n: nat): (s: Bytes)
    requires n < MAX_LENGTH
    ensures |s| == 4
  {
    var a := n / 0x100;
    var b := a / 0x100;
    [(n % 0x100) as byte, (a % 0x100) as byte, (b % 0x100) as byte, (b / 0x100) as byte]
  }

  function ReadLength(s: Bytes): nat
    requires |s| == 4
  {
    s[0] as nat + 0x100 * (s[1] as nat + 0x100 * (s[2] as nat + 0x100 * (s[3] as nat)))
  }

  function Frame(payload: Bytes): Bytes
    requires |payload| < MAX_LENGTH
  {
    WriteLength(|payload|) + payload
  }

  datatype Incoming = EndOfStream | ShortHeader | ShortBody | Message(payload: Bytes, rest: Bytes)

  function ReadMessage(stream: Bytes): (r: Incoming)
    ensures r.Message? ==> |r.rest| < |stream|
  {
    if stream == [] then EndOfStream
    else if |stream| < 4 then ShortHeader
    else
      var n := ReadLength(stream[..4]);
      if |stream| < 4 + n then ShortBody else Message(stream[4..4 + n], stream[4 + n..])
  }

  predicate Sendable(messages: seq<Bytes>) {
    forall i :: 0 <= i < |messages| ==> |messages[i]| < MAX_LENGTH
  }

  function Frames(messages: seq<Bytes>): Bytes
    requires Sendable(messages)
  {
    if messages == [] then [] else Frame(messages[0]) + Frames(messages[1..])
  }

  lemma ReadFramed(payload: Bytes, rest: Bytes)
    requires |payload| < MAX_LENGTH
    ensures ReadMessage(Frame(payload) + rest) == Message(payload, rest)
  {
  }

  /** A frame is the payload behind its length in four bytes, the least significant first. */
  lemma FrameLaw(payload: Bytes)
    requires |payload| < MAX_LENGTH
    ensures var f := Frame(payload);
            && |f| == 4 + |payload| && f[4..] == payload
            && |payload| == f[0] as int + 256 * f[1] as int + 65_536 * f[2] as int + 16_777_216 * f[3] as int
  {
  }

  /** A frame that is cut off anywhere is recognised as such. */
  lemma CutFrame(payload: Bytes, n: nat)
    requires |payload| < MAX_LENGTH && n < |Frame(payload)|
    ensures ReadMessage(Frame(payload)[..n]) == if n == 0 then EndOfStream else if n < 4 then ShortHeader else ShortBody
  {
    if n >= 4 {
      assert Frame(payload)[..n][..4] == WriteLength(|payload|);
      assert ReadLength(WriteLength(|payload|)) == |payload|;
    }
  }

  lemma {:induction false} FramesAppend(a: seq<Bytes>, b: seq<Bytes>)
    requires Sendable(a) && Sendable(b)
    ensures Sendable(a + b) && Frames(a + b) == Frames(a) + Frames(b)
  {
    hide Frame;
    if a == [] {
      assert a + b == b;
    } else {
      FramesAppend(a[1..], b);
      assert (a + b)[0] == a[0] && (a + b)[1..] == a[1..] + b;
      RegroupBytes(Frame(a[0]), Frames(a[1..]), Frames(b));
    }
  }

  lemma RegroupBytes(a: Bytes, b: Bytes, c: Bytes)
    ensures a + (b + c) == a + b + c
  {
  }

  // ---- what the host sends ----

  /** What the dispatcher does with one request: progress messages, then the reply. An exception
      becomes the reply. */
  datatype Handled = Handled(progress: seq<Bytes>, reply: Bytes)

  datatype Sent = Sent(final: bool, payload: Bytes)

  function AnswerOf(h: Handled): seq<Sent> {
    seq(|h.progress|, i requires 0 <= i < |h.progress| => Sent(false, h.progress[i])) + [Sent(true, h.reply)]
  }

  /** Everything sent for a stream of requests. A truncated message is answered once, like any
      failed request, and ends the stream. */
  function Responses(stream: Bytes, handler: Bytes -> Handled, failure: Bytes): seq<Sent>
    decreases |stream|
  {
    match ReadMessage(stream)
    case EndOfStream => []
    case Message(payload, rest) => AnswerOf(handler(payload)) + Responses(rest, handler, failure)
    case _ => [Sent(true, failure)]
  }

  function Payloads(sent: seq<Sent>): seq<Bytes> {
    seq(|sent|, i requires 0 <= i < |sent| => sent[i].payload)
  }

  ghost predicate Total(handler: Bytes -> Handled, failure: Bytes) {
    |failure| < MAX_LENGTH && forall m :: Sendable(Payloads(AnswerOf(handler(m))))
  }

  lemma AnswersSendable(handler: Bytes -> Handled, failure: Bytes, answer: seq<Sent>)
    requires Total(handler, failure)
    requires answer == [] || answer == [Sent(true, failure)] || exists m :: answer == AnswerOf(handler(m))
    ensures Sendable(Payloads(answer))
  {
  }

  lemma SendMore(sent: seq<Sent>, more: seq<Sent>)
    requires Sendable(Payloads(sent)) && Sendable(Payloads(more))
    ensures Sendable(Payloads(sent + more))
    ensures Frames(Payloads(sent + more)) == Frames(Payloads(sent)) + Frames(Payloads(more))
  {
    FramesAppend(Payloads(sent), Payloads(more));
    assert Payloads(sent + more) == Payloads(sent) + Payloads(more);
  }

  lemma NothingSent()
    ensures Sendable(Payloads([])) && Frames(Payloads([])) == []
  {
  }

  /** The message loop. */
  method Serve(stream: Bytes, handler: Bytes -> Handled, failure: Bytes) returns (output: Bytes)
    requires Total(handler, failure)
    ensures var sent := Responses(stream, handler, failure);
            Sendable(Payloads(sent)) && output == Frames(Payloads(sent))
  {
    hide Payloads, Frames, Sendable, AnswerOf, ReadMessage, Total;
    output := [];
    ghost var sent: seq<Sent> := [];
    NothingSent();
    var rest := stream;
    var running := true;
    ghost var ahead := Responses(stream, handler, failure);
    while running
      invariant ahead == if running then Responses(rest, handler, failure) else []
      invariant sent + ahead == Responses(stream, handler, failure)
      invariant Sendable(Payloads(sent)) && output == Frames(Payloads(sent))
      decreases running, |rest|
    {
      var answer := [];
      ghost var were := sent + ahead;
      match ReadMessage(rest) {
        case EndOfStream => running := false;
        case Message(payload, more) => answer, rest := AnswerOf(handler(payload)), more;
        case _ => answer, running := [Sent(true, failure)], false;
      }
      ahead := if running then Responses(rest, handler, failure) else [];
      assert were == sent + (answer + ahead);
      AnswersSendable(handler, failure, answer);
      SendMore(sent, answer);
      output := output + Frames(Payloads(answer));
      Regroup(sent, answer, ahead);
      sent := sent + answer;
    }
    Regroup(sent, [], []);
  }

  lemma Regroup(a: seq<Sent>, b: seq<Sent>, c: seq<Sent>)
    ensures a + (b + c) == a + b + c && a + [] == a
  {
  }

  // ---- one reply per request, progress before it ----

  /** The answers to a list of requests, one after the other. */
  function Answers(requests: seq<Bytes>, handler: Bytes -> Handled): seq<Sent> {
    if requests == [] then [] else AnswerOf(handler(requests[0])) + Answers(requests[1..], handler)
  }

  function Finals(sent: seq<Sent>): seq<Bytes> {
    if sent == [] then []
    else if sent[0].final then [sent[0].payload] + Finals(sent[1..])
    else Finals(sent[1..])
  }

  /** For a well-formed stream the host sends, request by request, that request's progress and
      then its reply. */
  lemma {:induction false} AnswersInOrder(requests: seq<Bytes>, handler: Bytes -> Handled, failure: Bytes)
    requires Sendable(requests)
    ensures Responses(Frames(requests), handler, failure) == Answers(requests, handler)
  {
    if requests != [] {
      ReadFramed(requests[0], Frames(requests[1..]));
      AnswersInOrder(requests[1..], handler, failure);
    }
  }

  /** A stream that breaks off inside a message is answered message by message, then with one failure. */
  lemma {:induction false} TruncatedStream(requests: seq<Bytes>, request: Bytes, n: nat, handler: Bytes -> Handled, failure: Bytes)
    requires Sendable(requests) && |request| < MAX_LENGTH && 0 < n < |Frame(request)|
    ensures Responses(Frames(requests) + Frame(request)[..n], handler, failure) ==
            Answers(requests, handler) + [Sent(true, failure)]
  {
    hide Frame, AnswerOf, ReadMessage;
    var last := Frame(request)[..n];
    if requests == [] {
      CutFrame(request, n);
      assert Frames(requests) + last == last;
    } else {
      var more := Frames(requests[1..]);
      ReadFramed(requests[0], more + last);
      RegroupBytes(Frame(requests[0]), more, last);
      TruncatedStream(requests[1..], request, n, handler, failure);
      Regroup(AnswerOf(handler(requests[0])), Answers(requests[1..], handler), [Sent(true, failure)]);
    }
  }

  /** One request: each progress message in order, marked as such, and the reply at the end. */
  lemma AnswerLaw(request: Bytes, handler: Bytes -> Handled, failure: Bytes)
    requires |request| < MAX_LENGTH
    ensures var sent, h := Responses(Frame(request), handler, failure), handler(request);
            && |sent| == |h.progress| + 1
            && (forall i :: 0 <= i < |h.progress| ==> sent[i] == Sent(false, h.progress[i]))
            && sent[|h.progress|] == Sent(true, h.reply)
  {
    ReadFramed(request, []);
    assert Frame(request) + [] == Frame(request);
    assert Responses([], handler, failure) == [];
  }

  lemma {:induction false} FinalsAppend(a: seq<Sent>, b: seq<Sent>)
    ensures Finals(a + b) == Finals(a) + Finals(b)
  {
    if a == [] {
      assert a + b == b;
    } else {
      FinalsAppend(a[1..], b);
      assert (a + b)[1..] == a[1..] + b;
    }
  }

  lemma {:induction false} NoFinals(a: seq<Sent>)
    requires forall i :: 0 <= i < |a| ==> !a[i].final
    ensures Finals(a) == []
  {
    if a != [] { NoFinals(a[1..]); }
  }

  /** So the i-th reply on the wire answers the i-th request, and there are as many replies as
      requests. */
  lemma {:induction false} OneReplyPerRequest(requests: seq<Bytes>, handler: Bytes -> Handled)
    ensures |Finals(Answers(requests, handler))| == |requests|
    ensures forall i :: 0 <= i < |requests| ==> Finals(Answers(requests, handler))[i] == handler(requests[i]).reply
  {
    if requests != [] {
      var h := handler(requests[0]);
      var progress := seq(|h.progress|, i requires 0 <= i < |h.progress| => Sent(false, h.progress[i]));
      NoFinals(progress);
      FinalsAppend(progress, [Sent(true, h.reply)]);
      assert Finals([Sent(true, h.reply)]) == [h.reply];
      FinalsAppend(AnswerOf(h), Answers(requests[1..], handler));
      OneReplyPerRequest(requests[1..], handler);
      assert Finals(Answers(requests, handler)) == [h.reply] + Finals(Answers(requests[1..], handler));
    }
  }

  /** Everything a reader finds in a stream. */
  function ReadAll(stream: Bytes): seq<Bytes>
    decreases |stream|
  {
    match ReadMessage(stream)
    case Message(payload, rest) => [payload] + ReadAll(rest)
    case _ => []
  }

  /** What was framed is read back, message by message. */
  lemma {:induction false} FramesRoundTrip(messages: seq<Bytes>)
    requires Sendable(messages)
    ensures ReadAll(Frames(messages)) == messages
  {
    if messages != [] {
      ReadFramed(messages[0], Frames(messages[1..]));
      FramesRoundTrip(messages[1..]);
    }
  }
}
