/** No conversation, however long, outgrows a message buffer or an assembly buffer. */
module Capacities {
  import opened Codec
  import opened ManagedBuffers
  import opened Transcript
  import opened Steps
  import opened Signing
  import opened Agreement

  const NOTHING_YET := Recorded(Common([], [], [], false, false, [], None), EmptyBuffers)

  /** Only a hash of the negotiated size is ever installed for a chain. */
  predicate HashFits(lim: Limits, op: Op)
  {
    && (op.SetResponder? ==> |op.ct| <= lim.hash)
    && (op.SetMutual? && op.cm.Some? ==> |op.cm.value| <= lim.hash)
  }

  lemma StepKeepsBounded(lim: Limits, r: Recorded, op: Op)
    requires Bounded(lim, r.com, r.buf) && HashFits(lim, op)
    ensures Bounded(lim, StepRecorded(lim, r, op).com, StepRecorded(lim, r, op).buf)
  {
    var com := StepCommon(lim, r.com, op);
    assert Bounded(lim, com, r.buf);
    match op
    case Append(kind, m) =>
      assert |r.buf[kind]| <= Capacity(lim, kind);
      StoreKeepsBounded(lim, com, r.buf, kind, Appended(r.buf[kind], Capacity(lim, kind), m));
    case Reset(kind) => StoreKeepsBounded(lim, com, r.buf, kind, []);
    case _ =>
  }

  lemma ConsumeKeepsBounded(lim: Limits, r: Recorded, ch: Channel)
    requires Bounded(lim, r.com, r.buf)
    ensures Bounded(lim, r.com, ConsumeRecorded(r, ch).buf)
  {
    StoreKeepsBounded(lim, r.com, r.buf, First(ch), []);
    if HasTwo(ch) {
      StoreKeepsBounded(lim, r.com, r.buf[First(ch) := []], Second(ch), []);
    }
  }

  lemma {:induction false} ConversationsStayBounded(lim: Limits, r: Recorded, js: seq<Joint>)
    requires Bounded(lim, r.com, r.buf) && forall j :: j in js && j.Both? ==> HashFits(lim, j.op)
    ensures Bounded(lim, Reference(lim, r, js).com, Reference(lim, r, js).buf)
    decreases |js|
  {
    if js != [] {
      match js[0] {
        case Both(op, _, _) => StepKeepsBounded(lim, r, op);
        case Signature(purpose, byRequester, _, _, _) =>
          ConsumeKeepsBounded(lim, r, SignChannel(purpose, byRequester));
      }
      ConversationsStayBounded(lim, StepReference(lim, r, js[0]), js[1..]);
    }
  }

  /**
   After any conversation each of the eight signed transcripts fits the buffer it is assembled
   in, and so do TH1 and TH2: assembling one never fails for lack of space.
   */
  lemma EveryAssemblyFits(lim: Limits, setup: Setup, js: seq<Joint>)
    requires forall j :: j in js && j.Both? ==> HashFits(lim, j.op)
    ensures var r := Reference(lim, NOTHING_YET, js);
            && (forall ch: Channel :: |Assembled(setup, r.com, r.buf, ch)| <= AssemblySize(lim, ch))
            && |ExchangeTh(setup, r.com, r.buf)| <= |FinishTh(setup, r.com, r.buf)| <= ThSize(lim)
  {
    ConversationsStayBounded(lim, NOTHING_YET, js);
    var r := Reference(lim, NOTHING_YET, js);
    AssembliesFit(lim, setup, r.com, r.buf);
  }

  /**
   Each buffer has room for its messages with every field at its maximum, and for not one byte more.
   The sizes are those of SPDM 1.4: B is GET_DIGESTS, DIGESTS, GET_CERTIFICATE and CERTIFICATE; C is
   CHALLENGE and CHALLENGE_AUTH; M is GET_MEASUREMENTS and MEASUREMENTS; E is GET_ENDPOINT_INFO and
   ENDPOINT_INFO; K is KEY_EXCHANGE and its response; F is FINISH and its response.
   */
  lemma MaximalMessagesFit(lim: Limits)
    ensures DigestsSize(lim) == 4 + (lim.hash + 4) * 8
    ensures Capacity(lim, B) == Capacity(lim, MutB) == 4 + DigestsSize(lim) + 16 + (16 + lim.certChain)
    ensures Capacity(lim, C) == Capacity(lim, MutC)
         == 44 + (46 + lim.hash + lim.hash + lim.rspSignature + 1024)
    ensures Capacity(lim, M) == Capacity(lim, SessM)
         == (13 + 32) + (50 + lim.measurementRecord + lim.rspSignature + 1024)
    ensures Capacity(lim, E) == Capacity(lim, EncapE) == Capacity(lim, SessE) == Capacity(lim, SessEncapE)
         == (8 + 32) + (12 + 32 + lim.endpointInfo + lim.rspSignature)
    ensures Capacity(lim, K)
         == (42 + lim.reqExchange + 1024) + (42 + lim.rspExchange + lim.hash + lim.rspSignature + lim.hash + 1024)
    ensures Capacity(lim, F) == (6 + lim.reqSignature + lim.hash + 1024) + (6 + lim.hash + 1024)
  {
  }

  /**
   PSK_FINISH and its response always fit F.  PSK_EXCHANGE and its response fit K exactly if the hint
   and the two contexts are no longer than what a KEY_EXCHANGE has in their place.
   */
  lemma PskMessagesFit(lim: Limits, hint: nat, context: nat)
    ensures (6 + lim.hash + 1024) + (6 + 1024) <= Capacity(lim, F)
    ensures (12 + hint + context + 1024) + (12 + context + lim.hash + lim.hash + 1024) <= Capacity(lim, K)
            <==> hint + 2 * context <= 60 + lim.reqExchange + lim.rspExchange + lim.rspSignature
  {
  }

  /** Every message is as long as it can be. */
  ghost predicate Filled(lim: Limits, com: Common, buf: Buffers)
  {
    && |com.a| == VCA_SIZE && |com.d| == DigestsSize(lim) && |com.encapD| == DigestsSize(lim)
    && |com.ct| == lim.hash && com.cm.Some? && |com.cm.value| == lim.hash
    && forall m: Message :: |buf[m]| == Capacity(lim, m)
  }

  /** The assembly buffers are no larger than they have to be: full messages fill them exactly. */
  lemma FullAssembliesFillTheirBuffers(lim: Limits, setup: Setup, com: Common, buf: Buffers)
    requires Filled(lim, com, buf)
    ensures setup.version >= 0x12 ==>
              forall ch: Channel :: |Assembled(setup, com, buf, ch)| == AssemblySize(lim, ch)
    ensures !setup.usePsk && setup.multiKeyReq && setup.multiKeyRsp ==> |FinishTh(setup, com, buf)| == ThSize(lim)
  {
    forall ch: Channel | setup.version >= 0x12
      ensures |Assembled(setup, com, buf, ch)| == AssemblySize(lim, ch)
    {
      assert |buf[First(ch)]| == Capacity(lim, First(ch));
      assert HasTwo(ch) ==> |buf[Second(ch)]| == Capacity(lim, Second(ch));
    }
    assert |buf[K]| == Capacity(lim, K) && |buf[F]| == Capacity(lim, F);
  }
}
