/**
 TH1 and TH2 end to end.  A party is an endpoint with its own build, role, slots and provisioned
 identity.  It finds the chain hashes itself and runs the handshake in calls of its own.
 */
module Parties {
  import opened Codec
  import opened Transcript
  import opened Steps
  import opened Refinement
  import opened DigestsWindow
  import opened Handshakes
  import opened Agreement
  import opened Identities

  datatype Build = Recording(chains: Identity) | Hashing(hashes: HashedIdentity)
  {
    predicate Valid()
    {
      match this
      case Recording(id) => id.Valid()
      case Hashing(id) => id.Valid()
    }
  }

  datatype Party = Party(build: Build, slots: Slots, isRequester: bool, start: Endpoint)
  {
    predicate Valid()
    {
      build.Valid() && slots.Valid()
    }
  }

  /** What a party is provisioned with is the identity id, in the form its build keeps. */
  ghost predicate Describes(b: Build, id: Identity, h: Bytes -> Bytes)
    requires id.Valid() && b.Valid()
  {
    match b
    case Recording(own) => own == id
    case Hashing(own) => StoresHashes(own, id, h)
  }

  function ComOf(e: Endpoint): (com: Common)
  {
    match e case Rec(r) => r.com case Run(s) => s.com
  }

  /** The Responder's chain hash as the party finds it. */
  function CtOf(x: Party, setup: Setup, h: Bytes -> Bytes): (r: Lookup)
    requires x.Valid()
  {
    match x.build
    case Recording(id) => HashOf(ResponderChain(id, x.slots, setup.usePsk, x.isRequester), h)
    case Hashing(id) => ResponderDigest(id, x.slots, setup.usePsk, x.isRequester, h)
  }

  /** The Requester's chain hash as the party finds it. */
  function CmOf(x: Party, setup: Setup, mutAuth: nat, h: Bytes -> Bytes): (r: Lookup)
    requires x.Valid()
  {
    match x.build
    case Recording(id) => HashOf(RequesterChain(id, x.slots, setup.usePsk, mutAuth, x.isRequester), h)
    case Hashing(id) => RequesterDigest(id, x.slots, setup.usePsk, mutAuth, x.isRequester, h)
  }

  function RunEndpoint(lim: Limits, setup: Setup, e: Endpoint, calls: seq<Call>): (e': Endpoint)
  {
    match e
    case Rec(r) => Rec(RunRecorded(lim, r, calls))
    case Run(s) => Run(RunRunning(lim, setup, s, calls))
  }

  /** What was said in the session, as both sides heard it. */
  datatype Session = Session(a: Bytes, d: Bytes, encapD: Bytes, mutAuth: nat, k: Bytes, f: Bytes)

  /** What one party does until F starts, and from then on. */
  datatype Calls = Calls(xs: seq<Call>, fs: seq<Call>)

  function Inputs(c: Session, ct: Bytes, cm: Option<Bytes>): (com: Common)
  {
    Common(c.a, c.d, c.encapD, true, true, ct, cm)
  }

  /** The calls of a session, with what has to be true of them in both builds. */
  predicate Follow(lim: Limits, com: Common, c: Session, p: Calls, ct: Bytes, cm: Option<Bytes>)
  {
    var com1 := RunCommon(lim, com, OpsOf(p.xs));
    && SamePrelude(com, Inputs(c, ct, cm)) && com1.encapD == c.encapD && com1.cm == cm
    && AllOpening(p.xs) && LateDigests(com, p.xs) && Heard(K, p.xs) == c.k && 0 < |c.k| <= Capacity(lim, K)
    && AllClosing(p.fs) && LateDigests(com1, p.fs) && Heard(F, p.fs) == c.f && 0 < |c.f| <= Capacity(lim, F)
  }

  /** A party at the start of a handshake: fresh, or torn down after an earlier attempt. */
  predicate Ready(x: Party)
  {
    && x.Valid()
    && match x.start
       case Rec(r) => x.build.Recording? && Silent(r)
       case Run(s) => x.build.Hashing? && Idle(s)
  }

  /**
   The party starts from message A, D and the Responder's chain hash as it finds it.  It hears K and F
   in non-empty pieces that fit, with anything that does not concern TH in between, has settled EncapD
   and the mutual chain hash it finds by the time F starts, and absorbs every piece if it is running.
   */
  predicate Hears(lim: Limits, setup: Setup, h: Bytes -> Bytes, x: Party, c: Session, p: Calls)
    requires x.Valid()
  {
    && Follow(lim, ComOf(x.start), c, p, AsDigest(CtOf(x, setup, h)), AsMutual(CmOf(x, setup, c.mutAuth, h)))
    && (x.start.Run? ==> AllDone(K, p.xs) && AllDone(F, p.fs))
  }

  /** The TH1 hash a party computes; None if its raw key is missing. */
  function Th1(lim: Limits, setup: Setup, h: Bytes -> Bytes, x: Party, p: Calls): (r: Option<Bytes>)
    requires x.Valid()
  {
    if CtOf(x, setup, h).Missing? then None
    else ThHashOf(setup, h, RunEndpoint(lim, setup, x.start, p.xs), false)
  }

  /** The TH2 hash a party computes; None if a raw key it needs is missing. */
  function Th2(lim: Limits, setup: Setup, h: Bytes -> Bytes, x: Party, c: Session, p: Calls): (r: Option<Bytes>)
    requires x.Valid()
  {
    if CtOf(x, setup, h).Missing? || CmOf(x, setup, c.mutAuth, h).Missing? then None
    else ThHashOf(setup, h, RunEndpoint(lim, setup, RunEndpoint(lim, setup, x.start, p.xs), p.fs), true)
  }

  // What the hashes have to be.

  function Said(k: Bytes, f: Bytes): (buf: Buffers)
  {
    EmptyBuffers[K := k][F := f]
  }

  /**
   TH1 in full, from what was said and the Responder's certificate chain or raw key: A, D for a
   multi-key Responder, the hash of the chain, K.
   */
  function Th1Due(setup: Setup, h: Bytes -> Bytes, c: Session, responder: Lookup): (r: Option<Bytes>)
  {
    if responder.Missing? then None
    else Some(h(c.a + (if setup.multiKeyRsp && !setup.usePsk then c.d else [])
                + (if responder.Found? then h(responder.value) else []) + c.k))
  }

  /**
   TH2 in full: the same, then EncapD for a multi-key Requester and the hash of the Requester's chain
   under mutual authentication, and F.
   */
  function Th2Due(setup: Setup, h: Bytes -> Bytes, c: Session, responder: Lookup, requester: Lookup): (r: Option<Bytes>)
  {
    if responder.Missing? || requester.Missing? then None
    else Some(h(c.a + (if setup.multiKeyRsp && !setup.usePsk then c.d else [])
                + (if responder.Found? then h(responder.value) else []) + c.k
                + (if setup.multiKeyReq && requester.Found? then c.encapD else [])
                + (if requester.Found? then h(requester.value) else []) + c.f))
  }

  lemma DueIsTh(setup: Setup, h: Bytes -> Bytes, c: Session, responder: Lookup, requester: Lookup)
    requires setup.usePsk <==> responder.NotUsed?
    requires setup.usePsk ==> requester.NotUsed?
    ensures var ct, cm := HashOf(responder, h), HashOf(requester, h);
            && Th1Due(setup, h, c, responder)
               == (if ct.Missing? then None
                   else Some(h(ExchangeTh(setup, Inputs(c, AsDigest(ct), None), Said(c.k, [])))))
            && Th2Due(setup, h, c, responder, requester)
               == (if ct.Missing? || cm.Missing? then None
                   else Some(h(FinishTh(setup, Inputs(c, AsDigest(ct), AsMutual(cm)), Said(c.k, c.f)))))
  {
    var d := if setup.multiKeyRsp && !setup.usePsk then c.d else [];
    JoinThree(c.a, d, AsDigest(HashOf(responder, h)));
  }

  /** TH1 and TH2 read nothing but the inputs of the session, K and F. */
  lemma ThReads(setup: Setup, com: Common, buf: Buffers, c: Session, ct: Bytes, cm: Option<Bytes>)
    requires SamePrelude(com, Inputs(c, ct, cm)) && buf[K] == c.k
    ensures ExchangeTh(setup, com, buf) == ExchangeTh(setup, Inputs(c, ct, None), Said(c.k, []))
    ensures MutualPart(setup, com) == MutualPart(setup, Inputs(c, ct, cm)) && buf[F] == c.f ==>
              FinishTh(setup, com, buf) == FinishTh(setup, Inputs(c, ct, cm), Said(c.k, c.f))
  {
    FinishExtendsExchange(setup, com, buf);
    FinishExtendsExchange(setup, Inputs(c, ct, cm), Said(c.k, c.f));
  }

  lemma BothBuilds(lim: Limits, setup: Setup, r: Recorded, s: Running, c: Session, p: Calls, ct: Bytes,
                   cm: Option<Bytes>, r1: Recorded, s1: Running, r2: Recorded, s2: Running)
    requires r.com == s.com && Silent(r) && Idle(s) && Follow(lim, r.com, c, p, ct, cm)
    requires r1 == RunRecorded(lim, r, p.xs) && s1 == RunRunning(lim, setup, s, p.xs)
    requires r2 == RunRecorded(lim, r1, p.fs) && s2 == RunRunning(lim, setup, s1, p.fs)
    ensures ExchangeTh(setup, r1.com, r1.buf) == ExchangeTh(setup, Inputs(c, ct, None), Said(c.k, []))
    ensures FinishTh(setup, r2.com, r2.buf) == FinishTh(setup, Inputs(c, ct, cm), Said(c.k, c.f))
    ensures AllDone(K, p.xs) ==> HoldsTh1(setup, r1, s1)
    ensures AllDone(K, p.xs) && AllDone(F, p.fs) ==> HoldsTh2(setup, r2, s2)
  {
    BuildsShareCommon(lim, setup, r, s, p.xs);
    ExchangePhase(lim, setup, r, s, p.xs, r1, s1);
    FinishPhase(lim, setup, r1, s1, AllDone(K, p.xs), p.fs, r2, s2);
    ThReads(setup, r1.com, r1.buf, c, ct, cm);
    ThReads(setup, r2.com, r2.buf, c, ct, cm);
  }

  /** The Responder's certificate, as a party with the given identity knows it. */
  function ResponderCert(setup: Setup, x: Party, id: Identity): (r: Lookup)
    requires id.Valid() && x.slots.Valid()
  {
    if setup.usePsk then NotUsed
    else if x.isRequester then PeerCertificate(id, x.slots.peer) else OwnCertificate(id, x.slots.local)
  }

  /** The Requester's certificate, where it matters. */
  function RequesterCert(setup: Setup, x: Party, id: Identity, mutAuth: nat): (r: Lookup)
    requires id.Valid() && x.slots.Valid()
  {
    if setup.usePsk || mutAuth == 0 then NotUsed
    else if x.isRequester then OwnCertificate(id, x.slots.local) else PeerCertificate(id, x.slots.peer)
  }

  /** A party in either build finds the hashes of those certificates. */
  lemma PartyFindsHashes(setup: Setup, h: Bytes -> Bytes, mutAuth: nat, x: Party, id: Identity)
    requires id.Valid() && x.Valid() && Describes(x.build, id, h)
    ensures CtOf(x, setup, h) == HashOf(ResponderCert(setup, x, id), h)
    ensures CmOf(x, setup, mutAuth, h) == HashOf(RequesterCert(setup, x, id, mutAuth), h)
  {
    WhoseChain(id, x.slots, setup.usePsk, mutAuth, x.isRequester);
    if x.build.Hashing? {
      StoredHashesSuffice(x.build.hashes, id, x.slots, setup.usePsk, mutAuth, x.isRequester, h);
    }
  }

  lemma PartyTh(lim: Limits, setup: Setup, h: Bytes -> Bytes, x: Party, c: Session, p: Calls)
    requires Ready(x) && Hears(lim, setup, h, x, c, p)
    ensures var ct, cm := CtOf(x, setup, h), CmOf(x, setup, c.mutAuth, h);
            && Th1(lim, setup, h, x, p)
               == (if ct.Missing? then None
                   else Some(h(ExchangeTh(setup, Inputs(c, AsDigest(ct), None), Said(c.k, [])))))
            && Th2(lim, setup, h, x, c, p)
               == (if ct.Missing? || cm.Missing? then None
                   else Some(h(FinishTh(setup, Inputs(c, AsDigest(ct), AsMutual(cm)), Said(c.k, c.f)))))
  {
    var com, ct, cm := ComOf(x.start), CtOf(x, setup, h), CmOf(x, setup, c.mutAuth, h);
    var r := if x.start.Rec? then x.start.r else Recorded(com, EmptyBuffers);
    var s := if x.start.Run? then x.start.s else Running(com, map[], false);
    var r1, s1 := RunRecorded(lim, r, p.xs), RunRunning(lim, setup, s, p.xs);
    var r2, s2 := RunRecorded(lim, r1, p.fs), RunRunning(lim, setup, s1, p.fs);
    BothBuilds(lim, setup, r, s, c, p, AsDigest(ct), AsMutual(cm), r1, s1, r2, s2);
  }

  /**
   A party in either build computes TH1 and TH2 as they are due for the Responder's and the
   Requester's certificates.
   */
  lemma PartyComputesTh(lim: Limits, setup: Setup, h: Bytes -> Bytes, x: Party, id: Identity, c: Session, p: Calls)
    requires Ready(x) && Hears(lim, setup, h, x, c, p) && id.Valid() && Describes(x.build, id, h)
    ensures Th1(lim, setup, h, x, p) == Th1Due(setup, h, c, ResponderCert(setup, x, id))
    ensures Th2(lim, setup, h, x, c, p)
         == Th2Due(setup, h, c, ResponderCert(setup, x, id), RequesterCert(setup, x, id, c.mutAuth))
  {
    PartyFindsHashes(setup, h, c.mutAuth, x, id);
    PartyTh(lim, setup, h, x, c, p);
    DueIsTh(setup, h, c, ResponderCert(setup, x, id), RequesterCert(setup, x, id, c.mutAuth));
  }

  /**
   A Requester and a Responder, each in either build, each finding the chains in its own slots and
   each processing the session in calls of its own, compute the same TH1 and the same TH2, those due
   for the certificate the Responder presents and, under mutual authentication, the one the Requester
   presents; or both miss the same raw key.
   */
  lemma PartiesAgreeOnTh(lim: Limits, setup: Setup, h: Bytes -> Bytes, c: Session,
                         x: Party, ix: Identity, xp: Calls, y: Party, iy: Identity, yp: Calls)
    requires Ready(x) && Hears(lim, setup, h, x, c, xp) && ix.Valid() && Describes(x.build, ix, h)
    requires Ready(y) && Hears(lim, setup, h, y, c, yp) && iy.Valid() && Describes(y.build, iy, h)
    requires x.isRequester && !y.isRequester && Mirrored(ix, x.slots, iy, y.slots)
    ensures var responder := if setup.usePsk then NotUsed else OwnCertificate(iy, y.slots.local);
            var requester := if setup.usePsk || c.mutAuth == 0 then NotUsed else OwnCertificate(ix, x.slots.local);
            && Th1(lim, setup, h, x, xp) == Th1(lim, setup, h, y, yp) == Th1Due(setup, h, c, responder)
            && Th2(lim, setup, h, x, c, xp) == Th2(lim, setup, h, y, c, yp)
               == Th2Due(setup, h, c, responder, requester)
  {
    MirroredCertificates(ix, x.slots, iy, y.slots);
    PartyComputesTh(lim, setup, h, x, ix, c, xp);
    PartyComputesTh(lim, setup, h, y, iy, c, yp);
  }
}
