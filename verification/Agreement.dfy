/**
 Two endpoints that follow the same conversation, each built in either form and each with failures of
 its own.  Over a kept conversation both hold the same transcripts, and an honest signature is accepted
 exactly if both sides are able to hash what it covers.
 */
module Agreement {
  import opened Codec
  import opened Transcript
  import opened Steps
  import opened Refinement
  import opened Signing

  datatype Endpoint = Rec(r: Recorded) | Run(s: Running)

  /** An endpoint keeps the conversation that the recorded state r describes. */
  ghost predicate Follows(setup: Setup, e: Endpoint, r: Recorded)
  {
    match e
    case Rec(own) => own == r
    case Run(s) => Sim(setup, r, s)
  }

  function StepEndpoint(lim: Limits, setup: Setup, e: Endpoint, op: Op, outcome: Outcome): (e': Endpoint)
  {
    match e
    case Rec(r) => Rec(StepRecorded(lim, r, op))
    case Run(s) => Run(StepRunning(lim, setup, s, op, outcome))
  }

  function ConsumeEndpoint(e: Endpoint, ch: Channel): (e': Endpoint)
  {
    match e
    case Rec(r) => Rec(ConsumeRecorded(r, ch))
    case Run(s) => Run(ConsumeRunning(s, ch))
  }

  /** The hash an endpoint signs or verifies for a channel; a missing digest has none. */
  function TranscriptHash(setup: Setup, h: Bytes -> Bytes, e: Endpoint, ch: Channel): (r: Option<Bytes>)
  {
    match e
    case Rec(r) => Some(h(Assembled(setup, r.com, r.buf, ch)))
    case Run(s) => if Digest(ch) in s.dig then Some(h(s.dig[Digest(ch)])) else None
  }

  /**
   A step of the conversation: both sides process a message, each with its own outcome, or one signs
   and the other verifies.  signs and verifies say whether the two providers do their part: the
   hash and the signature on one side, the hash and the peer's key on the other.
   */
  datatype Joint =
    | Both(op: Op, reqOutcome: Outcome, rspOutcome: Outcome)
    | Signature(purpose: Purpose, byRequester: bool, key: Key, signs: bool, verifies: bool)

  datatype Pair = Pair(req: Endpoint, rsp: Endpoint)

  /** The verifier's decision on a signature step; None if the signer could not sign. */
  function Decision(setup: Setup, h: Bytes -> Bytes, scheme: Scheme, p: Pair, j: Joint): (r: Option<bool>)
    requires j.Signature?
  {
    var signer, verifier := if j.byRequester then p.req else p.rsp, if j.byRequester then p.rsp else p.req;
    var sent := TranscriptHash(setup, h, signer, SignChannel(j.purpose, j.byRequester));
    var seen := TranscriptHash(setup, h, verifier, VerifyChannel(j.purpose, !j.byRequester));
    if !j.signs || sent.None? then None
    else Some(j.verifies && seen.Some? && scheme.verify(j.key, seen.value, scheme.sign(j.key, sent.value)))
  }

  function StepPair(lim: Limits, setup: Setup, p: Pair, j: Joint): (p': Pair)
  {
    match j
    case Both(op, reqOutcome, rspOutcome) =>
      Pair(StepEndpoint(lim, setup, p.req, op, reqOutcome),
           StepEndpoint(lim, setup, p.rsp, op, rspOutcome))
    case Signature(purpose, byRequester, _, _, _) =>
      if byRequester then
        Pair(ConsumeEndpoint(p.req, SignChannel(purpose, true)),
             ConsumeEndpoint(p.rsp, VerifyChannel(purpose, false)))
      else
        Pair(ConsumeEndpoint(p.req, VerifyChannel(purpose, true)),
             ConsumeEndpoint(p.rsp, SignChannel(purpose, false)))
  }

  /** The same step of the conversation itself. */
  function StepReference(lim: Limits, r: Recorded, j: Joint): (r': Recorded)
  {
    match j
    case Both(op, _, _) => StepRecorded(lim, r, op)
    case Signature(purpose, byRequester, _, _, _) => ConsumeRecorded(r, SignChannel(purpose, byRequester))
  }

  /** What a running endpoint needs of a step; a recorded one needs nothing. */
  ghost predicate EndpointKeeps(lim: Limits, setup: Setup, e: Endpoint, r: Recorded, op: Op, outcome: Outcome)
  {
    e.Run? ==> Keeps(lim, setup, r, e.s, op, outcome)
  }

  /** A message step must suit both sides; a signature always does. */
  ghost predicate JointKeeps(lim: Limits, setup: Setup, p: Pair, r: Recorded, j: Joint)
  {
    j.Both? ==> && EndpointKeeps(lim, setup, p.req, r, j.op, j.reqOutcome)
                && EndpointKeeps(lim, setup, p.rsp, r, j.op, j.rspOutcome)
  }

  /** A recorded endpoint can always assemble a transcript; a running one must hold its digest. */
  predicate HasTranscript(e: Endpoint, ch: Channel)
  {
    e.Run? ==> Digest(ch) in e.s.dig
  }

  /** Both providers do their part and both endpoints have the transcript. */
  predicate Able(p: Pair, j: Joint)
    requires j.Signature?
  {
    && j.signs && j.verifies
    && HasTranscript(p.req, SignChannel(j.purpose, j.byRequester))
    && HasTranscript(p.rsp, SignChannel(j.purpose, j.byRequester))
  }

  ghost predicate InStep(setup: Setup, p: Pair, r: Recorded)
  {
    Follows(setup, p.req, r) && Follows(setup, p.rsp, r)
  }

  lemma ConsumeKeepsSim(setup: Setup, r: Recorded, s: Running, ch: Channel)
    requires Sim(setup, r, s)
    ensures Sim(setup, ConsumeRecorded(r, ch), ConsumeRunning(s, ch))
  {
    var r', s' := ConsumeRecorded(r, ch), ConsumeRunning(s, ch);
    assert Body(r'.buf, ch) == [];
    forall c: Channel | c != ch
      ensures Body(r'.buf, c) == Body(r.buf, c)
    {
      OtherBodies(r.buf, First(ch), [], c);
      if HasTwo(ch) {
        OtherBodies(r.buf[First(ch) := []], Second(ch), [], c);
      }
    }
    OneChannelChanges(setup, r, s, r', s', ch);
  }

  lemma EndpointStepFollows(lim: Limits, setup: Setup, e: Endpoint, r: Recorded, op: Op,
                            outcome: Outcome)
    requires Follows(setup, e, r) && EndpointKeeps(lim, setup, e, r, op, outcome)
    ensures Follows(setup, StepEndpoint(lim, setup, e, op, outcome), StepRecorded(lim, r, op))
  {
    if e.Run? {
      StepExact(lim, setup, r, e.s, op, outcome);
    }
  }

  lemma EndpointConsumeFollows(setup: Setup, e: Endpoint, r: Recorded, ch: Channel)
    requires Follows(setup, e, r)
    ensures Follows(setup, ConsumeEndpoint(e, ch), ConsumeRecorded(r, ch))
  {
    if e.Run? {
      ConsumeKeepsSim(setup, r, e.s, ch);
    }
  }

  /** An endpoint in step hashes exactly the transcript of the conversation. */
  lemma FollowerHash(setup: Setup, h: Bytes -> Bytes, e: Endpoint, r: Recorded, ch: Channel)
    requires Follows(setup, e, r) && HasTranscript(e, ch)
    ensures TranscriptHash(setup, h, e, ch) == Some(h(Assembled(setup, r.com, r.buf, ch)))
  {
    if e.Run? {
      assert ChannelSim(setup, r, e.s, ch);
    }
  }

  /** One step: both stay in step, and a signature is accepted exactly if both sides are able. */
  lemma JointStep(lim: Limits, setup: Setup, h: Bytes -> Bytes, scheme: Scheme,
                  p: Pair, r: Recorded, j: Joint)
    requires InStep(setup, p, r) && JointKeeps(lim, setup, p, r, j) && scheme.Correct()
    ensures InStep(setup, StepPair(lim, setup, p, j), StepReference(lim, r, j))
    ensures j.Signature? ==> (Decision(setup, h, scheme, p, j) == Some(true) <==> Able(p, j))
  {
    match j
    case Both(op, reqOutcome, rspOutcome) =>
      EndpointStepFollows(lim, setup, p.req, r, op, reqOutcome);
      EndpointStepFollows(lim, setup, p.rsp, r, op, rspOutcome);
    case Signature(purpose, byRequester, key, _, _) =>
      var ch := SignChannel(purpose, byRequester);
      assert ch == VerifyChannel(purpose, !byRequester);
      EndpointConsumeFollows(setup, p.req, r, ch);
      EndpointConsumeFollows(setup, p.rsp, r, ch);
      if HasTranscript(p.req, ch) && HasTranscript(p.rsp, ch) {
        FollowerHash(setup, h, p.req, r, ch);
        FollowerHash(setup, h, p.rsp, r, ch);
      }
  }

  /**
   Over message A alone the builds differ: a running endpoint without a digest refuses what a
   recorded one signs, and cannot sign what a recorded one would verify.
   */
  lemma EmptyTranscriptRefused(setup: Setup, h: Bytes -> Bytes, scheme: Scheme, r: Recorded, s: Running,
                               purpose: Purpose, key: Key)
    requires Unstarted(r, s) && scheme.Correct()
    ensures var j := Signature(purpose, false, key, true, true);
            && Decision(setup, h, scheme, Pair(Run(s), Rec(r)), j) == Some(false)
            && Decision(setup, h, scheme, Pair(Rec(r), Run(s)), j) == None
            && Decision(setup, h, scheme, Pair(Rec(r), Rec(r)), j) == Some(true)
  {
    assert SignChannel(purpose, false) == VerifyChannel(purpose, true);
  }

  // Runs that end in a signature.

  function Say(lim: Limits, setup: Setup, e: Endpoint, kind: Message, m: Bytes): (e': Endpoint)
  {
    StepEndpoint(lim, setup, e, Append(kind, m), Done)
  }

  /** What the endpoint hashes for a signature made by the given role, as signer and as verifier. */
  predicate SignsOver(setup: Setup, h: Bytes -> Bytes, e: Endpoint, purpose: Purpose, byRequester: bool, input: Bytes)
  {
    TranscriptHash(setup, h, e, SignChannel(purpose, byRequester))
    == TranscriptHash(setup, h, e, VerifyChannel(purpose, !byRequester)) == Some(h(input))
  }

  /** One message said from the start of its transcript, in each build. */
  lemma SaidFirst(lim: Limits, setup: Setup, r: Recorded, s: Running, kind: Message, m: Bytes)
    requires Unstarted(r, s) && Signed(kind) && |m| <= Capacity(lim, kind)
    ensures StepRecorded(lim, r, Append(kind, m)) == r.(buf := EmptyBuffers[kind := m])
    ensures StepRunning(lim, setup, s, Append(kind, m), Done)
         == s.(dig := map[Digest(ChannelOf(kind)) := Prefix(setup, r.com, ChannelOf(kind)) + m])
  {
    assert EmptyBuffers[kind] + m == m;
  }

  /** And a second message of the same transcript. */
  lemma SaidSecond(lim: Limits, setup: Setup, r: Recorded, s: Running, ch: Channel, b: Bytes, c: Bytes)
    requires Unstarted(r, s) && HasTwo(ch)
    requires |b| <= Capacity(lim, First(ch)) && |c| <= Capacity(lim, Second(ch))
    ensures var r1 := StepRecorded(lim, r, Append(First(ch), b));
            StepRecorded(lim, r1, Append(Second(ch), c)) == r.(buf := EmptyBuffers[First(ch) := b][Second(ch) := c])
    ensures var s1 := StepRunning(lim, setup, s, Append(First(ch), b), Done);
            StepRunning(lim, setup, s1, Append(Second(ch), c), Done)
            == s.(dig := map[Digest(ch) := Prefix(setup, r.com, ch) + (b + c)])
  {
    SaidFirst(lim, setup, r, s, First(ch), b);
    assert EmptyBuffers[Second(ch)] + c == c;
    JoinThree(Prefix(setup, r.com, ch), b, c);
  }

  /** B, C, and a Responder's CHALLENGE_AUTH: it is over A, B and C in either build. */
  lemma ChallengeRun(lim: Limits, setup: Setup, h: Bytes -> Bytes, r: Recorded, s: Running, b: Bytes, c: Bytes)
    requires Unstarted(r, s) && |b| <= Capacity(lim, B) && |c| <= Capacity(lim, C)
    ensures SignsOver(setup, h, Say(lim, setup, Say(lim, setup, Rec(r), B, b), C, c), Challenge, false,
                      r.com.a + (b + c))
    ensures SignsOver(setup, h, Say(lim, setup, Say(lim, setup, Run(s), B, b), C, c), Challenge, false,
                      r.com.a + (b + c))
  {
    SaidSecond(lim, setup, r, s, M1M2, b, c);
    AssembledBytes(setup, r.com, EmptyBuffers[B := b][C := c]);
  }

  /** MutB, MutC, and a Requester's CHALLENGE_AUTH. */
  lemma MutualChallengeRun(lim: Limits, setup: Setup, h: Bytes -> Bytes, r: Recorded, s: Running, b: Bytes, c: Bytes)
    requires Unstarted(r, s) && |b| <= Capacity(lim, MutB) && |c| <= Capacity(lim, MutC)
    ensures var input := if setup.version >= 0x12 then r.com.a + (b + c) else b + c;
            && SignsOver(setup, h, Say(lim, setup, Say(lim, setup, Rec(r), MutB, b), MutC, c), Challenge, true, input)
            && SignsOver(setup, h, Say(lim, setup, Say(lim, setup, Run(s), MutB, b), MutC, c), Challenge, true, input)
  {
    SaidSecond(lim, setup, r, s, MutM1M2, b, c);
    AssembledBytes(setup, r.com, EmptyBuffers[MutB := b][MutC := c]);
    assert [] + (b + c) == b + c;
  }

  /** E, or EncapE from a Requester, in or out of a session, and the ENDPOINT_INFO signature. */
  lemma EndpointInfoRun(lim: Limits, setup: Setup, h: Bytes -> Bytes, r: Recorded, s: Running, e: Bytes,
                        byRequester: bool, inSession: bool)
    requires Unstarted(r, s) && |e| <= Capacity(lim, E)
    ensures var kind := if byRequester then if inSession then SessEncapE else EncapE
                        else if inSession then SessE else E;
            && SignsOver(setup, h, Say(lim, setup, Rec(r), kind, e), EndpointInfo(inSession), byRequester, r.com.a + e)
            && SignsOver(setup, h, Say(lim, setup, Run(s), kind, e), EndpointInfo(inSession), byRequester, r.com.a + e)
  {
    var ch := if byRequester then if inSession then SessEncapIL1IL2 else EncapIL1IL2
              else if inSession then SessIL1IL2 else IL1IL2;
    OneMessage(lim, setup, h, r, s, ch, e);
  }

  lemma OneMessage(lim: Limits, setup: Setup, h: Bytes -> Bytes, r: Recorded, s: Running, ch: Channel, m: Bytes)
    requires Unstarted(r, s) && !HasTwo(ch) && |m| <= Capacity(lim, First(ch))
    ensures TranscriptHash(setup, h, Say(lim, setup, Rec(r), First(ch), m), ch)
         == TranscriptHash(setup, h, Say(lim, setup, Run(s), First(ch), m), ch)
         == Some(h(Prefix(setup, r.com, ch) + m))
  {
    SaidFirst(lim, setup, r, s, First(ch), m);
    assert Body(EmptyBuffers[First(ch) := m], ch) == m;
  }

  // Whole conversations.

  ghost predicate KeptConversation(lim: Limits, setup: Setup, p: Pair, r: Recorded, js: seq<Joint>)
    decreases |js|
  {
    js == [] ||
    (&& JointKeeps(lim, setup, p, r, js[0])
     && KeptConversation(lim, setup, StepPair(lim, setup, p, js[0]),
                         StepReference(lim, r, js[0]), js[1..]))
  }

  /** Every signature of the conversation was made and accepted. */
  ghost predicate AllAccepted(lim: Limits, setup: Setup, h: Bytes -> Bytes, scheme: Scheme,
                              p: Pair, js: seq<Joint>)
    decreases |js|
  {
    js == [] ||
    (&& (js[0].Signature? ==> Decision(setup, h, scheme, p, js[0]) == Some(true))
     && AllAccepted(lim, setup, h, scheme, StepPair(lim, setup, p, js[0]), js[1..]))
  }

  /** At every signature both sides were able. */
  predicate AllAble(lim: Limits, setup: Setup, p: Pair, js: seq<Joint>)
    decreases |js|
  {
    js == [] ||
    (&& (js[0].Signature? ==> Able(p, js[0]))
     && AllAble(lim, setup, StepPair(lim, setup, p, js[0]), js[1..]))
  }

  function Converse(lim: Limits, setup: Setup, p: Pair, js: seq<Joint>): (p': Pair)
    decreases |js|
  {
    if js == [] then p else Converse(lim, setup, StepPair(lim, setup, p, js[0]), js[1..])
  }

  function Reference(lim: Limits, r: Recorded, js: seq<Joint>): (r': Recorded)
    decreases |js|
  {
    if js == [] then r else Reference(lim, StepReference(lim, r, js[0]), js[1..])
  }

  /**
   Over every kept conversation both endpoints, in whatever mix of forms, stay in step with the
   same recorded transcript, and all honest signatures are accepted if and only if at each of them
   the providers do their part and every running endpoint holds the digest.
   */
  lemma {:induction false} HonestSignaturesVerify(lim: Limits, setup: Setup, h: Bytes -> Bytes,
                                                  scheme: Scheme, p: Pair, r: Recorded, js: seq<Joint>)
    requires InStep(setup, p, r) && KeptConversation(lim, setup, p, r, js) && scheme.Correct()
    ensures InStep(setup, Converse(lim, setup, p, js), Reference(lim, r, js))
    ensures AllAccepted(lim, setup, h, scheme, p, js) <==> AllAble(lim, setup, p, js)
    decreases |js|
  {
    if js != [] {
      JointStep(lim, setup, h, scheme, p, r, js[0]);
      HonestSignaturesVerify(lim, setup, h, scheme, StepPair(lim, setup, p, js[0]),
                             StepReference(lim, r, js[0]), js[1..]);
    }
  }

  /** Each step ends the same way on both sides. */
  predicate SameOutcomes(js: seq<Joint>)
  {
    forall j :: j in js && j.Both? ==> j.reqOutcome == j.rspOutcome
  }

  lemma TwinStep(lim: Limits, setup: Setup, h: Bytes -> Bytes, scheme: Scheme, e: Endpoint, j: Joint)
    requires scheme.Correct() && (e.Run? && j.Both? ==> j.reqOutcome == j.rspOutcome)
    ensures var p := StepPair(lim, setup, Pair(e, e), j); p == Pair(p.req, p.req) && p.req.Run? == e.Run?
    ensures j.Signature? ==> (Decision(setup, h, scheme, Pair(e, e), j) == Some(true) <==> Able(Pair(e, e), j))
  {
    if j.Signature? {
      assert SignChannel(j.purpose, j.byRequester) == VerifyChannel(j.purpose, !j.byRequester);
    }
  }

  /**
   Two endpoints of the same form need no discipline at all: whatever is appended, reset or signed in
   whatever order, kept or not, they stay equal, and a signature is accepted exactly if both are able.
   Running endpoints must see the same outcomes.
   */
  lemma {:induction false} TwinsAlwaysAgree(lim: Limits, setup: Setup, h: Bytes -> Bytes,
                                            scheme: Scheme, e: Endpoint, js: seq<Joint>)
    requires scheme.Correct() && (e.Run? ==> SameOutcomes(js))
    ensures var p := Converse(lim, setup, Pair(e, e), js); p == Pair(p.req, p.req)
    ensures AllAccepted(lim, setup, h, scheme, Pair(e, e), js) <==> AllAble(lim, setup, Pair(e, e), js)
    decreases |js|
  {
    if js != [] {
      TwinStep(lim, setup, h, scheme, e, js[0]);
      var e' := StepPair(lim, setup, Pair(e, e), js[0]).req;
      TwinsAlwaysAgree(lim, setup, h, scheme, e', js[1..]);
    }
  }

  /** Two recorded endpoints always hold the conversation itself, whatever fails on either side. */
  lemma {:induction false} RecordedEndpointsAlwaysAgree(lim: Limits, setup: Setup, r: Recorded,
                                                        js: seq<Joint>)
    ensures Converse(lim, setup, Pair(Rec(r), Rec(r)), js)
         == Pair(Rec(Reference(lim, r, js)), Rec(Reference(lim, r, js)))
    ensures AllAble(lim, setup, Pair(Rec(r), Rec(r)), js)
            <==> forall j :: j in js && j.Signature? ==> j.signs && j.verifies
    decreases |js|
  {
    if js != [] {
      var j := js[0];
      var r' := StepReference(lim, r, j);
      assert StepPair(lim, setup, Pair(Rec(r), Rec(r)), j) == Pair(Rec(r'), Rec(r'));
      RecordedEndpointsAlwaysAgree(lim, setup, r', js[1..]);
      assert js == [j] + js[1..];
    }
  }

  // TH hashes.

  /** The hash an endpoint computes for TH1, or once F has started for TH2. */
  function ThHashOf(setup: Setup, h: Bytes -> Bytes, e: Endpoint, finish: bool): (r: Option<Bytes>)
  {
    match e
    case Rec(r) => Some(h(if finish then FinishTh(setup, r.com, r.buf) else ExchangeTh(setup, r.com, r.buf)))
    case Run(s) => if Th in s.dig then Some(h(s.dig[Th])) else None
  }

  /** A running endpoint holds a TH context and is in the phase asked for. */
  predicate HoldsTh(e: Endpoint, finish: bool)
  {
    e.Run? ==> Th in e.s.dig && e.s.fInit == finish
  }

  lemma FollowerTh(setup: Setup, h: Bytes -> Bytes, e: Endpoint, r: Recorded, finish: bool)
    requires Follows(setup, e, r) && HoldsTh(e, finish)
    ensures ThHashOf(setup, h, e, finish) == ThHashOf(setup, h, Rec(r), finish)
  {
    FinishExtendsExchange(setup, r.com, r.buf);
  }

  /** After every kept conversation, endpoints in any mix of forms compute the same TH1 or TH2 hash. */
  lemma ConversationsAgreeOnTh(lim: Limits, setup: Setup, h: Bytes -> Bytes, scheme: Scheme,
                               p: Pair, r: Recorded, js: seq<Joint>, finish: bool)
    requires InStep(setup, p, r) && KeptConversation(lim, setup, p, r, js) && scheme.Correct()
    requires var p' := Converse(lim, setup, p, js); HoldsTh(p'.req, finish) && HoldsTh(p'.rsp, finish)
    ensures var p' := Converse(lim, setup, p, js);
            ThHashOf(setup, h, p'.req, finish) == ThHashOf(setup, h, p'.rsp, finish)
            == ThHashOf(setup, h, Rec(Reference(lim, r, js)), finish)
  {
    HonestSignaturesVerify(lim, setup, h, scheme, p, r, js);
    var p', r' := Converse(lim, setup, p, js), Reference(lim, r, js);
    FollowerTh(setup, h, p'.req, r', finish);
    FollowerTh(setup, h, p'.rsp, r', finish);
  }
}
