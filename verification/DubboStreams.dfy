/** The Dubbo codec inside the framing pipeline: streams of messages in any chunks. */
module DubboStreams {
  import opened Bytes
  import Codecs = CodecInterface
  import opened StreamSplitting
  import DubboProtocol
  import opened DubboCodec
  import opened DubboMessages

  predicate AllKeepRules(w: Writer, messages: seq<Message>) {
    forall i :: 0 <= i < |messages| ==> KeepsRules(w, messages[i])
  }

  function SentAs(w: Writer, x: Message): Sent {
    Sent(DubboMessages.WireOf(w, x), Meant(w, x))
  }

  function SentAll(w: Writer, messages: seq<Message>): seq<Sent> {
    seq(|messages|, i requires 0 <= i < |messages| => SentAs(w, messages[i]))
  }

  function Stream(w: Writer, messages: seq<Message>): Octets {
    StreamSplitting.WireOf(SentAll(w, messages))
  }

  lemma MessageLands(h: DubboProtocol.Hessian, w: Writer, x: Message)
    requires DubboProtocol.LawfulHessian(h) && Undoes(h, w) && KeepsRules(w, x)
    ensures Lands(Dubbo(h), SentAs(w, x))
  {
    var wire := DubboMessages.WireOf(w, x);
    forall s
      ensures Dubbo(h).decode(NotStarted, wire + s) == Codecs.Complete(NotStarted, s, Meant(w, x))
    {
      MessageDecodes(h, w, x, s);
    }
  }

  lemma MessagesLand(h: DubboProtocol.Hessian, w: Writer, messages: seq<Message>)
    requires DubboProtocol.LawfulHessian(h) && Undoes(h, w) && AllKeepRules(w, messages)
    ensures AllLand(Dubbo(h), SentAll(w, messages))
  {
    forall i | 0 <= i < |messages|
      ensures Lands(Dubbo(h), SentAs(w, messages[i]))
    {
      MessageLands(h, w, messages[i]);
    }
  }

  /** One callback for each message: a heartbeat for an event, a stream for any other, with its kind,
      its id, its status and its own octets. */
  predicate AllMeant(w: Writer, messages: seq<Message>, calls: seq<Callback>) {
    && |calls| == |messages|
    && forall i :: 0 <= i < |messages| ==>
      (calls[i].OnHeartbeat? <==> messages[i].Event?) && calls[i].m == Meant(w, messages[i])
  }

  lemma DueCallsAreMeant(w: Writer, messages: seq<Message>)
    ensures AllMeant(w, messages, DueCalls(SentAll(w, messages)))
  {
    var sent := SentAll(w, messages);
    forall i | 0 <= i < |messages|
      ensures
        var call := DueCalls(sent)[i];
        (call.OnHeartbeat? <==> messages[i].Event?) && call.m == Meant(w, messages[i])
    {
      assert sent[i] == SentAs(w, messages[i]);
    }
  }

  lemma StreamArrives(h: DubboProtocol.Hessian, sent: seq<Sent>, chunks: seq<Octets>)
    requires DubboProtocol.LawfulHessian(h) && AllLand(Dubbo(h), sent) && Join(chunks) == StreamSplitting.WireOf(sent)
    ensures Delivered(h, chunks) == Parked(NotStarted, [], DueCalls(sent))
  {
    DubboIsResumable(h);
    WholeStreamLands(Dubbo(h), sent, chunks);
  }

  lemma BadStreamBreaks(h: DubboProtocol.Hessian, sent: seq<Sent>, bad: Octets, chunks: seq<Octets>)
    requires DubboProtocol.LawfulHessian(h) && AllLand(Dubbo(h), sent)
    requires bad != [] && Decode(h, NotStarted, bad) == Codecs.Rejected
    requires Join(chunks) == StreamSplitting.WireOf(sent) + bad
    ensures Delivered(h, chunks) == Broken(DueCalls(sent))
  {
    DubboIsResumable(h);
    RejectedBreaks(Dubbo(h), sent, bad, chunks);
  }

  /** Any messages, sent one behind the other and received in any chunks, come out one by one and in
      order, each as it was meant, and leave nothing behind. */
  lemma DeliversEveryMessage(h: DubboProtocol.Hessian, w: Writer, messages: seq<Message>, chunks: seq<Octets>)
    requires DubboProtocol.LawfulHessian(h) && Undoes(h, w) && AllKeepRules(w, messages)
    requires Join(chunks) == Stream(w, messages)
    ensures
      var d := Delivered(h, chunks);
      d == Parked(NotStarted, [], d.calls) && AllMeant(w, messages, d.calls)
  {
    MessagesLand(h, w, messages);
    StreamArrives(h, SentAll(w, messages), chunks);
    DueCallsAreMeant(w, messages);
  }

  /** Octets that begin with another magic number, or with a message that breaks a rule. */
  ghost predicate IsBad(w: Writer, b: Octets) {
    || (|b| >= 16 && (b[0] != 0xda || b[1] != 0xbb))
    || exists x, s | !KeepsRules(w, x) && |BodyOf(w, x)| < 0x1_0000_0000 :: b == DubboMessages.WireOf(w, x) + s
  }

  lemma BadIsRejected(h: DubboProtocol.Hessian, w: Writer, b: Octets)
    requires DubboProtocol.LawfulHessian(h) && Undoes(h, w) && IsBad(w, b)
    ensures b != [] && Decode(h, NotStarted, b) == Codecs.Rejected
  {
    if |b| >= 16 && (b[0] != 0xda || b[1] != 0xbb) {
      ForeignMagicDecodes(h, b);
    } else {
      var x, s :| !KeepsRules(w, x) && |BodyOf(w, x)| < 0x1_0000_0000 && b == DubboMessages.WireOf(w, x) + s;
      MessageDecodes(h, w, x, s);
    }
  }

  /** Behind any messages they break the connection: the messages are delivered, and nothing after
      them. */
  lemma BadMessageBreaks(
      h: DubboProtocol.Hessian, w: Writer, messages: seq<Message>, bad: Octets, chunks: seq<Octets>)
    requires DubboProtocol.LawfulHessian(h) && Undoes(h, w) && AllKeepRules(w, messages) && IsBad(w, bad)
    requires Join(chunks) == Stream(w, messages) + bad
    ensures
      var d := Delivered(h, chunks);
      d.Broken? && AllMeant(w, messages, d.calls)
  {
    MessagesLand(h, w, messages);
    BadIsRejected(h, w, bad);
    BadStreamBreaks(h, SentAll(w, messages), bad, chunks);
    DueCallsAreMeant(w, messages);
  }
}
