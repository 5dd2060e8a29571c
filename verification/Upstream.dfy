/** The provider client's retry loop. */
module Upstream {
  import opened Domain

  /** How one HTTP attempt ends: content, a non-2xx status, or any other failure. */
  datatype Attempt = Answered(text: string) | Status(code: int) | Fault

  /** What the provider and the request context do during one `Chat`: the outcome of each attempt
      that would be made, and whether the context is cancelled during each wait. */
  datatype Script = Script(attempts: seq<Attempt>, cancelled: seq<bool>)

  type ChatScript = s: Script | |s.attempts| == 3 && |s.cancelled| == 2
    witness Script([Fault, Fault, Fault], [false, false])

  /** `attempts` HTTP attempts were made and at most `backoff` seconds were waited. */
  datatype ChatOutcome = ChatOutcome(reply: Option<string>, attempts: nat, backoff: nat)

  const TOO_MANY := 429

  /** The loop from attempt number `n` (1, 2 or 3) on. */
  function ChatFrom(s: ChatScript, n: nat): (o: ChatOutcome)
    requires 1 <= n <= 3
    decreases 3 - n
  {
    var a := s.attempts[n - 1];
    if a.Answered? then ChatOutcome(Some(a.text), 1, 0)
    else if a != Status(TOO_MANY) || n == 3 then ChatOutcome(None, 1, 0)
    else if s.cancelled[n - 1] then ChatOutcome(None, 1, 3 * n)
    else
      var o := ChatFrom(s, n + 1);
      ChatOutcome(o.reply, o.attempts + 1, o.backoff + 3 * n)
  }

  function Chatted(s: ChatScript): ChatOutcome { ChatFrom(s, 1) }

  /** Seconds of the first `k` waits: 3, then 6. */
  function Waits(k: int): int { if k <= 0 then 0 else if k == 1 then 3 else 9 }

  /** The retry loop. The last attempt made decides; every earlier one was a 429 whose wait was not
      cancelled, and it goes on after each of those as long as there are attempts left. */
  method Chat(s: ChatScript) returns (reply: Option<string>, attempts: nat, backoff: nat)
    ensures ChatOutcome(reply, attempts, backoff) == Chatted(s)
    ensures 1 <= attempts <= 3 && backoff <= 9
    ensures forall k :: 0 <= k < attempts - 1 ==> s.attempts[k] == Status(TOO_MANY) && !s.cancelled[k]
    ensures attempts == 3 || s.attempts[attempts - 1] != Status(TOO_MANY) || s.cancelled[attempts - 1]
    ensures backoff == Waits(attempts - 1)
                       + (if attempts < 3 && s.attempts[attempts - 1] == Status(TOO_MANY) then 3 * attempts else 0)
    ensures reply == if s.attempts[attempts - 1].Answered? then Some(s.attempts[attempts - 1].text) else None
  {
    backoff := 0;
    attempts := 1;
    while attempts <= 3
      invariant 1 <= attempts <= 3
      invariant forall k :: 0 <= k < attempts - 1 ==> s.attempts[k] == Status(TOO_MANY) && !s.cancelled[k]
      invariant backoff == Waits(attempts - 1)
      invariant var o := ChatFrom(s, attempts);
                Chatted(s) == ChatOutcome(o.reply, o.attempts + attempts - 1, o.backoff + backoff)
      decreases 4 - attempts
    {
      var a := s.attempts[attempts - 1];
      if a.Answered? {
        return Some(a.text), attempts, backoff;
      }
      if a != Status(TOO_MANY) || attempts == 3 {
        return None, attempts, backoff;
      }
      var wait := attempts * 3;
      backoff := backoff + wait;
      if s.cancelled[attempts - 1] {
        return None, attempts, backoff;
      }
      attempts := attempts + 1;
    }
    reply := None;
  }

  /** What one chat does, for every behaviour of the provider: the number of attempts is the first one that is no
      uncancelled 429, or the third; that attempt decides the reply; and the waits are 3 and 6 seconds. */
  lemma ChatExact(s: ChatScript)
    ensures var o := Chatted(s);
            var n := o.attempts;
            && 1 <= n <= 3
            && (forall k :: 0 <= k < n - 1 ==> s.attempts[k] == Status(429) && !s.cancelled[k])
            && (n == 3 || s.attempts[n - 1] != Status(429) || s.cancelled[n - 1])
            && o.reply == (if s.attempts[n - 1].Answered? then Some(s.attempts[n - 1].text) else None)
            && o.backoff == (if n == 1 then 0 else if n == 2 then 3 else 9)
                            + (if n < 3 && s.attempts[n - 1] == Status(429) then 3 * n else 0)
  {
    assert ChatFrom(s, 2).attempts == 1 || ChatFrom(s, 2).attempts == 2;
  }

  /** What one chat costs, for every behaviour of the provider. */
  lemma ChatCost(s: ChatScript)
    ensures 1 <= Chatted(s).attempts <= 3 && Chatted(s).backoff <= 9
    ensures Chatted(s).attempts > 1 ==> s.attempts[0] == Status(TOO_MANY)
  {
    hide Chatted;
    ChatExact(s);
  }

  lemma AnswersAtOnce(text: string)
    ensures Chatted(Script([Answered(text), Fault, Fault], [false, false])) == ChatOutcome(Some(text), 1, 0)
  {
  }

  /** A provider that is busy twice and then answers is heard. */
  lemma BusyTwiceIsHeard(text: string)
    ensures Chatted(Script([Status(429), Status(429), Answered(text)], [false, false])) == ChatOutcome(Some(text), 3, 9)
  {
    hide Chatted;
    ChatExact(Script([Status(429), Status(429), Answered(text)], [false, false]));
  }
}

/** `Service.Extract`: a chat, the unwrapping of its reply, one repair chat if that does not decode,
    and the document type's clean-up. */
module Extractor {
  import opened Domain
  import opened Upstream
  import Unwrap

  /** The registered document types, JSON decoding into a type's result (given the unwrapped text)
      and its normaliser. */
  datatype Service = Service(
    known: set<string>,
    model: string,
    decode: (string, string) -> Option<Json>,
    normalize: (string, Json) -> Json)

  datatype Failure = UnknownDocType | LlmFailed | InvalidJson

  datatype Extracted = Done(result: Result) | Failed(why: Failure)

  datatype Outcome = Outcome(out: Extracted, attempts: nat, backoff: nat)

  function DecodeInto(svc: Service, docType: string, content: string): Option<Json> {
    svc.decode(docType, Unwrap.Slice(content))
  }

  function Finish(svc: Service, docType: string, doc: Document, parsed: Json): Result {
    Result(docType, svc.normalize(docType, parsed),
           Meta(svc.model, doc.chars, doc.mode, doc.images, doc.filename, "", ""))
  }

  function Extract(svc: Service, docType: string, doc: Document, first: ChatScript, repair: ChatScript): Outcome {
    if docType !in svc.known then Outcome(Failed(UnknownDocType), 0, 0)
    else
      var c := Chatted(first);
      if c.reply.None? then Outcome(Failed(LlmFailed), c.attempts, c.backoff)
      else match DecodeInto(svc, docType, c.reply.value)
        case Some(parsed) => Outcome(Done(Finish(svc, docType, doc, parsed)), c.attempts, c.backoff)
        case None =>
          var r := Chatted(repair);
          var attempts, backoff := c.attempts + r.attempts, c.backoff + r.backoff;
          if r.reply.None? then Outcome(Failed(InvalidJson), attempts, backoff)
          else match DecodeInto(svc, docType, r.reply.value)
            case None => Outcome(Failed(InvalidJson), attempts, backoff)
            case Some(parsed) => Outcome(Done(Finish(svc, docType, doc, parsed)), attempts, backoff)
  }

  /** One extraction costs at most six upstream attempts and 18 s of back-off, and its result carries
      the requested type. */
  lemma ExtractCost(svc: Service, docType: string, doc: Document, first: ChatScript, repair: ChatScript)
    ensures var o := Extract(svc, docType, doc, first, repair);
            && o.attempts <= 6 && o.backoff <= 18
            && (o.out.Done? ==> o.out.result.docType == docType)
  {
    hide Unwrap.Slice, Chatted;
    ChatCost(first);
    ChatCost(repair);
  }

  /** The data of a result is the normalised decoding of an unwrapped answer of the provider. */
  lemma ExtractedFromAnswer(svc: Service, docType: string, doc: Document, first: ChatScript, repair: ChatScript)
    requires Extract(svc, docType, doc, first, repair).out.Done?
    ensures exists text, parsed :: (Answered(text) in first.attempts || Answered(text) in repair.attempts)
              && svc.decode(docType, Unwrap.Slice(text)) == Some(parsed)
              && Extract(svc, docType, doc, first, repair).out.result.data == svc.normalize(docType, parsed)
  {
    hide Unwrap.Slice;
    AnswerIsScripted(first, 1);
    AnswerIsScripted(repair, 1);
    var text := Chatted(first).reply.value;
    var d := DecodeInto(svc, docType, text);
    if d.Some? {
      assert svc.decode(docType, Unwrap.Slice(text)) == Some(d.value);
    } else {
      var text' := Chatted(repair).reply.value;
      assert svc.decode(docType, Unwrap.Slice(text')) == Some(DecodeInto(svc, docType, text').value);
    }
  }

  lemma {:induction false} AnswerIsScripted(s: ChatScript, n: nat)
    requires 1 <= n <= 3
    ensures ChatFrom(s, n).reply.Some? ==> Answered(ChatFrom(s, n).reply.value) in s.attempts
    decreases 3 - n
  {
    var a := s.attempts[n - 1];
    if a.Answered? {
      assert a in s.attempts;
    } else if n < 3 {
      AnswerIsScripted(s, n + 1);
    }
  }

  /** When an extraction succeeds, with what, and how each failure comes about: it succeeds if and only if the type is
      known, the first chat replies and its reply decodes, or else the repair chat replies and that decodes; the data
      is the normalised decoding of the first reply that does. */
  lemma ExtractExact(svc: Service, docType: string, doc: Document, first: ChatScript, repair: ChatScript)
    ensures var o := Extract(svc, docType, doc, first, repair);
            var known, a, b := docType in svc.known, Chatted(first).reply, Chatted(repair).reply;
            var one := if a.Some? then svc.decode(docType, Unwrap.Slice(a.value)) else None;
            var two := if b.Some? then svc.decode(docType, Unwrap.Slice(b.value)) else None;
            && (o.out.Done? <==> known && a.Some? && (one.Some? || two.Some?))
            && (o.out.Done? ==>
                  o.out.result == Result(docType, svc.normalize(docType, if one.Some? then one.value else two.value),
                                         Meta(svc.model, doc.chars, doc.mode, doc.images, doc.filename, "", "")))
            && (o.out == Failed(UnknownDocType) <==> !known)
            && (o.out == Failed(LlmFailed) <==> known && a.None?)
            && (o.out == Failed(InvalidJson) <==> known && a.Some? && one.None? && two.None?)
  {
    hide Unwrap.Slice, Chatted;
  }

  /** The repair chat is made, and paid for, if and only if the first one replied with what does not decode. */
  lemma RepairExact(svc: Service, docType: string, doc: Document, first: ChatScript, repair: ChatScript)
    ensures var o := Extract(svc, docType, doc, first, repair);
            var a := Chatted(first).reply;
            var broken := a.Some? && svc.decode(docType, Unwrap.Slice(a.value)).None?;
            if docType !in svc.known then o.attempts == 0 && o.backoff == 0
            else
              && o.attempts == Chatted(first).attempts + (if broken then Chatted(repair).attempts else 0)
              && o.backoff == Chatted(first).backoff + (if broken then Chatted(repair).backoff else 0)
  {
    hide Unwrap.Slice, Chatted;
  }

  /** A reply that does not decode is repaired by one that does. */
  lemma RepairedReply(svc: Service, docType: string, doc: Document, broken: string, good: string, parsed: Json)
    requires docType in svc.known
    requires svc.decode(docType, Unwrap.Slice(broken)) == None
    requires svc.decode(docType, Unwrap.Slice(good)) == Some(parsed)
    ensures var first := Script([Answered(broken), Fault, Fault], [false, false]);
            var repair := Script([Answered(good), Fault, Fault], [false, false]);
            var o := Extract(svc, docType, doc, first, repair);
            o.out.Done? && o.out.result.data == svc.normalize(docType, parsed) && o.attempts == 2
  {
    hide Unwrap.Slice, Chatted;
    var first := Script([Answered(broken), Fault, Fault], [false, false]);
    var repair := Script([Answered(good), Fault, Fault], [false, false]);
    AnswersAtOnce(broken);
    AnswersAtOnce(good);
    ExtractExact(svc, docType, doc, first, repair);
    RepairExact(svc, docType, doc, first, repair);
  }
}
