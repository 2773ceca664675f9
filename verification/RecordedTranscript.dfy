/**
 The recorded form: every message is kept in a buffer, and a transcript is assembled in a
 managed buffer when it is hashed or signed.
 */
module RecordedTranscripts {
  import opened Codec
  import opened ManagedBuffers
  import opened Transcript
  import opened Steps
  import opened Digests
  import opened Identities
  import opened PlainTranscripts
  import opened Signing

  /** Why a calculation failed. */
  datatype Failure = NoFailure | NoSpace | HashFailed | NoKey

  class RecordedTranscript {
    const lim: Limits
    const setup: Setup
    const isRequester: bool
    const provider: Provider
    const plain: PlainTranscript
    var identity: Identity
    var slots: Slots
    var mutAuthRequested: nat
    var buf: Buffers

    ghost predicate Valid()
      reads this, provider, plain
    {
      && provider.Valid() && identity.Valid() && slots.Valid() && plain.lim == lim
      && provider.algo.size <= lim.hash
      && Bounded(lim, plain.View([], None), buf)
    }

    ghost function CtLookup(): (r: Lookup)
      requires identity.Valid() && slots.Valid()
      reads this`identity, this`slots
    {
      HashOf(ResponderChain(identity, slots, setup.usePsk, isRequester), provider.algo.hash)
    }

    ghost function CmLookup(): (r: Lookup)
      requires identity.Valid() && slots.Valid()
      reads this`identity, this`slots, this`mutAuthRequested
    {
      HashOf(RequesterChain(identity, slots, setup.usePsk, mutAuthRequested, isRequester),
             provider.algo.hash)
    }

    ghost function Ct(): (r: Bytes)
      requires identity.Valid() && slots.Valid()
      reads this`identity, this`slots
    {
      AsDigest(CtLookup())
    }

    ghost function Com(): (r: Common)
      requires identity.Valid() && slots.Valid()
      reads this`identity, this`slots, this`mutAuthRequested, plain
    {
      plain.View(Ct(), AsMutual(CmLookup()))
    }

    ghost function View(): (r: Recorded)
      requires identity.Valid() && slots.Valid()
      reads this, plain
    {
      Recorded(Com(), buf)
    }

    constructor (lim: Limits, setup: Setup, isRequester: bool, identity: Identity,
                 provider: Provider, plain: PlainTranscript, slots: Slots)
      requires provider.Valid() && identity.Valid() && slots.Valid() && plain.lim == lim
      requires provider.algo.size <= lim.hash && plain.View([], None) == Common([], [], [], false, false, [], None)
      ensures Valid() && fresh(this) && buf == EmptyBuffers && mutAuthRequested == 0
    {
      this.lim, this.setup, this.isRequester := lim, setup, isRequester;
      this.identity, this.provider, this.plain, this.slots := identity, provider, plain, slots;
      mutAuthRequested, buf := 0, EmptyBuffers;
    }

    /** The peer's chain in a slot is replaced, as set by the Integrator or by GET_CERTIFICATE. */
    method SetPeerChain(slot: nat, chain: Bytes)
      requires Valid() && slot < SLOT_COUNT
      modifies this`identity
      ensures Valid() && identity == old(identity).(peerChain := old(identity).peerChain[slot := chain])
      ensures View() == StepRecorded(lim, StepRecorded(lim, old(View()), SetResponder(Ct())),
                                     SetMutual(AsMutual(CmLookup())))
    {
      identity := identity.(peerChain := identity.peerChain[slot := chain]);
    }

    method Append(kind: Message, m: Bytes) returns (status: Status)
      requires Valid()
      modifies this`buf
      ensures Valid() && View() == StepRecorded(lim, old(View()), Op.Append(kind, m))
      ensures status == if Fits(old(buf[kind]), Capacity(lim, kind), m) then Success else BufferFull
    {
      status := if Fits(buf[kind], Capacity(lim, kind), m) then Success else BufferFull;
      assert |buf[kind]| <= Capacity(lim, kind);
      RecordedSteps(lim, View(), kind, m);
      Store(kind, Appended(buf[kind], Capacity(lim, kind), m));
    }

    method Reset(kind: Message)
      requires Valid()
      modifies this`buf
      ensures Valid() && View() == StepRecorded(lim, old(View()), Op.Reset(kind))
    {
      RecordedSteps(lim, View(), kind, []);
      Store(kind, []);
    }

    /** Resets what a request makes obsolete and closes the DIGESTS window. */
    method Request(request: Request, negotiated: bool, authenticated: bool, inSession: bool)
      requires Valid()
      modifies this`buf, plain
      ensures Valid()
      ensures View() == StepRecorded(lim, old(View()), RequestCode(request, negotiated, authenticated, inSession))
    {
      plain.CloseWindow(request, negotiated, authenticated, inSession);
      ResetForRequest(request, authenticated, inSession);
    }

    method ResetForRequest(request: Request, authenticated: bool, inSession: bool)
      requires Valid()
      modifies this`buf
      ensures Valid() && buf == Cleared(old(buf), ResetBy(request, authenticated, inSession))
    {
      ClearedTwice(buf, MeasurementReset(request, inSession), OtherReset(request, authenticated, inSession));
      if !request.GetMeasurements? {
        ResetOne(if inSession then SessM else M);
      }
      ResetOthers(request, authenticated, inSession);
    }

    method ResetOthers(request: Request, authenticated: bool, inSession: bool)
      requires Valid()
      modifies this`buf
      ensures Valid() && buf == Cleared(old(buf), OtherReset(request, authenticated, inSession))
    {
      if request.GetDigests? {
        ResetOne(B);
      } else if request.GetEndpointInfo? {
        ResetEndpointInfo(inSession);
      } else if request.OtherRequest? || authenticated {
        ClearedTwice(buf, {}, {});
      } else {
        ResetChallenges(!request.DeliverEncapsulatedResponse?);
      }
    }

    method ResetEndpointInfo(inSession: bool)
      requires Valid()
      modifies this`buf
      ensures Valid() && buf == Cleared(old(buf), if inSession then {SessE, SessEncapE} else {E, EncapE})
    {
      if inSession {
        ResetPair(SessE, SessEncapE);
      } else {
        ResetPair(E, EncapE);
      }
    }

    method ResetChallenges(mutual: bool)
      requires Valid()
      modifies this`buf
      ensures Valid() && buf == Cleared(old(buf), if mutual then {B, C} + {MutB, MutC} else {B, C})
    {
      ClearedTwice(buf, {B, C}, {MutB, MutC});
      ResetPair(B, C);
      if mutual {
        ResetPair(MutB, MutC);
      }
    }

    method ResetOne(kind: Message)
      requires Valid()
      modifies this`buf
      ensures Valid() && buf == Cleared(old(buf), {kind})
    {
      ClearedOne(buf, kind);
      Store(kind, []);
    }

    method Store(kind: Message, contents: Bytes)
      requires Valid() && |contents| <= Capacity(lim, kind)
      modifies this`buf
      ensures Valid() && buf == old(buf)[kind := contents]
    {
      StoreKeepsBounded(lim, plain.View([], None), buf, kind, contents);
      buf := buf[kind := contents];
    }

    /** Assembles a signed transcript; there is always room. */
    method Assemble(ch: Channel, out: ManagedBuffer) returns (ok: bool)
      requires Valid() && AssemblySize(lim, ch) <= out.data.Length
      modifies out, out.data
      ensures ok && out.Valid() && out.Contents() == Assembled(setup, Com(), buf, ch)
    {
      ghost var com := Com();
      ChannelFits(lim, setup, com, buf, ch);
      var parts := if HasTwo(ch) then [buf[First(ch)], buf[Second(ch)]] else [buf[First(ch)]];
      FlattenOne(buf[First(ch)]);
      if HasTwo(ch) {
        FlattenMore(buf[First(ch)], [], buf[Second(ch)]);
      }
      assert Flatten([Prefix(setup, com, ch)] + parts) == Assembled(setup, com, buf, ch) by {
        assert ([Prefix(setup, com, ch)] + parts)[1..] == parts;
      }
      out.Init(AssemblySize(lim, ch));
      ok := AppendAll(out, [Prefix(setup, plain.View([], None), ch)] + parts);
    }

    /** The certificate chain or raw key of one side, from the local or the peer's store. */
    method FindChain(local: bool) returns (found: bool, chain: Bytes)
      requires Valid()
      ensures found <==> (if local then identity.Local(slots) else identity.Peer(slots)).Found?
      ensures found ==> (if local then identity.Local(slots) else identity.Peer(slots)) == Found(chain)
    {
      var slot := if local then slots.local else slots.peer;
      if slot == PUBLIC_KEY_SLOT {
        chain := if local then identity.localKey else identity.peerKey;
        found := |chain| != 0;
      } else {
        chain := if local then identity.localChain[slot] else identity.peerChain[slot];
        found := true;
      }
    }

    method FindResponderChain() returns (chain: Lookup)
      requires Valid()
      ensures chain == ResponderChain(identity, slots, setup.usePsk, isRequester)
    {
      if setup.usePsk {
        return NotUsed;
      }
      var found, bytes := FindChain(!isRequester);
      chain := if found then Found(bytes) else Missing;
    }

    method FindRequesterChain() returns (chain: Lookup)
      requires Valid()
      ensures chain == RequesterChain(identity, slots, setup.usePsk, mutAuthRequested, isRequester)
    {
      if setup.usePsk || mutAuthRequested == 0 {
        return NotUsed;
      }
      var found, bytes := FindChain(isRequester);
      chain := if found then Found(bytes) else Missing;
    }

    /** The parts of the exchange transcript. */
    method ExchangeParts(chain: Lookup) returns (failure: Failure, parts: seq<Bytes>)
      requires Valid() && chain == ResponderChain(identity, slots, setup.usePsk, isRequester)
      requires chain != Missing
      ensures failure == NoFailure || (failure == HashFailed && !provider.reliable)
      ensures failure == NoFailure ==>
                |Ct()| <= lim.hash && Flatten(parts) == ExchangeTh(setup, Com(), buf)
    {
      parts := [plain.a];
      FlattenOne(plain.a);
      if chain.Found? {
        var ok, digest := provider.HashAll(chain.value);
        if !ok {
          return HashFailed, [];
        }
        parts := if setup.multiKeyRsp then [plain.a, plain.d, digest] else [plain.a, digest];
        FlattenMore(plain.a, plain.d, digest);
      }
      assert Flatten(parts) == Prelude(setup, Com());
      FlattenAppended(parts, buf[K]);
      return NoFailure, parts + [buf[K]];
    }

    /** Adds a DIGESTS, if it counts, and the hash of a chain, if there is one. */
    method AddChain(parts: seq<Bytes>, digests: Bytes, counts: bool, chain: Lookup)
      returns (failure: Failure, more: seq<Bytes>)
      requires Valid() && chain != Missing
      ensures failure == NoFailure || (failure == HashFailed && !provider.reliable)
      ensures failure == NoFailure ==>
                Flatten(more) == Flatten(parts)
                                 + (if chain.Found? && counts then digests else [])
                                 + (if chain.Found? then provider.algo.hash(chain.value) else [])
    {
      more := parts;
      if chain.Found? {
        if counts {
          FlattenAppended(more, digests);
          more := more + [digests];
        }
        var ok, digest := provider.HashAll(chain.value);
        if !ok {
          return HashFailed, [];
        }
        FlattenAppended(more, digest);
        more := more + [digest];
      }
      failure := NoFailure;
    }

    /** The parts of the finish transcript, from the first to the last. */
    method FinishParts(chain: Lookup, mutChain: Lookup) returns (failure: Failure, parts: seq<Bytes>)
      requires Valid() && chain == ResponderChain(identity, slots, setup.usePsk, isRequester)
      requires mutChain == RequesterChain(identity, slots, setup.usePsk, mutAuthRequested, isRequester)
      requires chain != Missing && mutChain != Missing
      ensures failure == NoFailure || (failure == HashFailed && !provider.reliable)
      ensures failure == NoFailure ==> Flatten(parts) == FinishTh(setup, Com(), buf)
    {
      FlattenOne(plain.a);
      failure, parts := AddChain([plain.a], plain.d, setup.multiKeyRsp, chain);
      if failure != NoFailure {
        return;
      }
      FlattenAppended(parts, buf[K]);
      failure, parts := AddChain(parts + [buf[K]], plain.encapD, setup.multiKeyReq, mutChain);
      if failure != NoFailure {
        return;
      }
      FlattenAppended(parts, buf[F]);
      parts := parts + [buf[F]];
    }

    /** TH1: the only causes of failure are the hash and a raw key that was never provisioned. */
    method Th1Hash(th: ManagedBuffer) returns (failure: Failure, digest: Bytes)
      requires Valid() && ThSize(lim) <= th.data.Length
      modifies th, th.data
      ensures failure != NoSpace && (failure == NoKey <==> CtLookup() == Missing)
      ensures failure == HashFailed ==> !provider.reliable
      ensures failure == NoFailure ==>
                && th.Valid() && th.Contents() == ExchangeTh(setup, Com(), buf)
                && digest == provider.algo.hash(ExchangeTh(setup, Com(), buf))
      ensures failure == NoFailure && !setup.usePsk ==>
                Com().ct == provider.algo.hash(
                  if isRequester then if slots.peer == 0xFF then identity.peerKey else identity.peerChain[slots.peer]
                  else if slots.local == 0xFF then identity.localKey else identity.localChain[slots.local])
    {
      var chain := FindResponderChain();
      digest := [];
      if chain == Missing {
        return NoKey, digest;
      }
      var parts;
      failure, parts := ExchangeParts(chain);
      if failure == NoFailure {
        ExchangeFits(lim, setup, Com(), buf);
        failure, digest := HashParts(parts, th);
      }
    }

    /** TH2: as TH1, over the finish transcript. */
    method Th2Hash(th: ManagedBuffer) returns (failure: Failure, digest: Bytes)
      requires Valid() && ThSize(lim) <= th.data.Length
      modifies th, th.data
      ensures failure != NoSpace && (failure == HashFailed ==> !provider.reliable)
      ensures failure == NoKey <==> CtLookup() == Missing || CmLookup() == Missing
      ensures failure == NoFailure ==>
                && th.Valid() && th.Contents() == FinishTh(setup, Com(), buf)
                && digest == provider.algo.hash(FinishTh(setup, Com(), buf))
      ensures failure == NoFailure && !setup.usePsk ==>
                Com().ct == provider.algo.hash(
                  if isRequester then if slots.peer == 0xFF then identity.peerKey else identity.peerChain[slots.peer]
                  else if slots.local == 0xFF then identity.localKey else identity.localChain[slots.local])
      ensures failure == NoFailure && !setup.usePsk && mutAuthRequested != 0 ==>
                Com().cm == Some(provider.algo.hash(
                  if isRequester then
                    if slots.local == 0xFF then identity.localKey else identity.localChain[slots.local]
                  else if slots.peer == 0xFF then identity.peerKey else identity.peerChain[slots.peer]))
    {
      var chain := FindResponderChain();
      var mutChain := FindRequesterChain();
      digest := [];
      if chain == Missing || mutChain == Missing {
        return NoKey, digest;
      }
      var parts;
      failure, parts := FinishParts(chain, mutChain);
      if failure == NoFailure {
        HashesFit(chain, mutChain);
        FinishFits(lim, setup, Com(), buf);
        failure, digest := HashParts(parts, th);
      }
    }

    /** Hashes have the size the buffers are laid out for. */
    lemma HashesFit(chain: Lookup, mutChain: Lookup)
      requires Valid() && chain == ResponderChain(identity, slots, setup.usePsk, isRequester)
      requires mutChain == RequesterChain(identity, slots, setup.usePsk, mutAuthRequested, isRequester)
      ensures |Ct()| <= lim.hash && (Com().cm.Some? ==> |Com().cm.value| <= lim.hash)
    {
    }

    /** What a role has signed is reset, whether or not the calculation succeeded. */
    method ResetSent(purpose: Purpose)
      requires Valid()
      modifies this`buf
      ensures Valid() && View() == ConsumeRecorded(old(View()), SignChannel(purpose, isRequester))
    {
      if purpose.Challenge? {
        if isRequester {
          ResetPair(MutB, MutC);
        } else {
          ResetPair(B, C);
        }
      } else if isRequester {
        Store(if purpose.inSession then SessEncapE else EncapE, []);
      } else {
        Store(if purpose.inSession then SessE else E, []);
      }
    }

    /** What a role has verified is reset; the branches are the other way round. */
    method ResetReceived(purpose: Purpose)
      requires Valid()
      modifies this`buf
      ensures Valid() && View() == ConsumeRecorded(old(View()), VerifyChannel(purpose, isRequester))
    {
      if purpose.Challenge? {
        if isRequester {
          ResetPair(B, C);
        } else {
          ResetPair(MutB, MutC);
        }
      } else if isRequester {
        Store(if purpose.inSession then SessE else E, []);
      } else {
        Store(if purpose.inSession then SessEncapE else EncapE, []);
      }
    }

    method ResetPair(first: Message, second: Message)
      requires Valid()
      modifies this`buf
      ensures Valid() && buf == old(buf)[first := []][second := []] == Cleared(old(buf), {first, second})
    {
      ClearedOne(buf, first);
      ClearedOne(buf[first := []], second);
      ClearedTwice(buf, {first}, {second});
      assert {first} + {second} == {first, second};
      Store(first, []);
      Store(second, []);
    }

    method GenerateSignature(purpose: Purpose, scheme: Scheme, key: Key, out: ManagedBuffer)
      returns (ok: bool, signature: Bytes)
      requires Valid() && AssemblySize(lim, SignChannel(purpose, isRequester)) <= out.data.Length
      modifies this`buf, out, out.data
      ensures Valid() && View() == ConsumeRecorded(old(View()), SignChannel(purpose, isRequester))
      ensures buf == AfterUse(old(buf), purpose, isRequester)
      ensures ok ==> signature == scheme.sign(key, provider.algo.hash(
                       SignatureInput(setup, Com(), old(buf), purpose, isRequester)))
      ensures provider.reliable ==> ok
    {
      SignatureCovers(setup, View(), purpose, isRequester);
      ok := Assemble(SignedChannel(purpose, isRequester), out);
      ResetSent(purpose);
      var digest;
      ok, digest := provider.HashAll(out.data[..out.size]);
      signature := [];
      if ok {
        ok := *;
        ok := ok || provider.reliable;
        signature := scheme.sign(key, digest);
      }
    }

    /** A signature is rejected only if the scheme rejects it for this side's own transcript. */
    method VerifySignature(purpose: Purpose, scheme: Scheme, key: Option<Key>, signature: Bytes,
                           out: ManagedBuffer)
      returns (verdict: Verdict)
      requires Valid() && AssemblySize(lim, VerifyChannel(purpose, isRequester)) <= out.data.Length
      modifies this`buf, out, out.data
      ensures Valid() && View() == ConsumeRecorded(old(View()), VerifyChannel(purpose, isRequester))
      ensures buf == AfterUse(old(buf), purpose, !isRequester)
      ensures verdict == NoVerificationKey <==> key.None?
      ensures verdict == NoTranscript ==> !provider.reliable
      ensures verdict == Accepted || verdict == Rejected ==>
                (verdict == Accepted <==> scheme.verify(key.value, provider.algo.hash(
                   SignatureInput(setup, Com(), old(buf), purpose, !isRequester)), signature))
    {
      SignatureCovers(setup, View(), purpose, !isRequester);
      var ok := Assemble(SignedChannel(purpose, !isRequester), out);
      ResetReceived(purpose);
      if key.None? {
        return NoVerificationKey;
      }
      var digest;
      ok, digest := provider.HashAll(out.data[..out.size]);
      if !ok {
        return NoTranscript;
      }
      verdict := if scheme.verify(key.value, digest, signature) then Accepted else Rejected;
    }

    /** Assembles parts in the TH buffer and hashes the result. */
    method HashParts(parts: seq<Bytes>, th: ManagedBuffer) returns (failure: Failure, digest: Bytes)
      requires |Flatten(parts)| <= ThSize(lim) <= th.data.Length
      modifies th, th.data
      ensures failure != NoSpace && failure != NoKey && (failure == HashFailed ==> !provider.reliable)
      ensures failure == NoFailure ==> th.Valid() && th.Contents() == Flatten(parts)
      ensures failure == NoFailure ==> digest == provider.algo.hash(Flatten(parts))
    {
      th.Init(ThSize(lim));
      var ok := AppendAll(th, parts);
      if !ok {
        return NoSpace, [];
      }
      var data := th.data[..th.size];
      ok, digest := provider.HashAll(data);
      failure := if ok then NoFailure else HashFailed;
    }
  }

  /** Appends parts in order, stopping at the first that does not fit. */
  method AppendAll(out: ManagedBuffer, parts: seq<Bytes>) returns (ok: bool)
    requires out.Valid()
    modifies out`size, out.data
    ensures out.Valid()
    ensures |old(out.Contents())| + |Flatten(parts)| <= out.maxSize ==> ok
    ensures ok ==> out.Contents() == old(out.Contents()) + Flatten(parts)
    decreases |parts|
  {
    if parts == [] {
      assert out.Contents() + [] == out.Contents();
      return true;
    }
    var status := out.Append(parts[0]);
    ok := status == Success;
    if ok {
      assert old(out.Contents()) + parts[0] + Flatten(parts[1..])
          == old(out.Contents()) + Flatten(parts);
      ok := AppendAll(out, parts[1..]);
    }
  }

  lemma ExchangeFits(lim: Limits, setup: Setup, com: Common, buf: Buffers)
    requires Bounded(lim, com.(ct := [], cm := None), buf) && |com.ct| <= lim.hash
    ensures |ExchangeTh(setup, com, buf)| <= ThSize(lim)
  {
    AssembliesFit(lim, setup, com.(cm := None), buf);
    assert ExchangeTh(setup, com, buf) == ExchangeTh(setup, com.(cm := None), buf);
  }

  lemma FinishFits(lim: Limits, setup: Setup, com: Common, buf: Buffers)
    requires Bounded(lim, com.(ct := [], cm := None), buf) && |com.ct| <= lim.hash
    requires com.cm.Some? ==> |com.cm.value| <= lim.hash
    ensures |FinishTh(setup, com, buf)| <= ThSize(lim)
  {
    assert Bounded(lim, com, buf);
    AssembliesFit(lim, setup, com, buf);
  }

  lemma RecordedSteps(lim: Limits, s: Recorded, kind: Message, m: Bytes)
    ensures StepRecorded(lim, s, Append(kind, m))
         == Recorded(s.com, s.buf[kind := Appended(s.buf[kind], Capacity(lim, kind), m)])
    ensures StepRecorded(lim, s, Reset(kind)) == Recorded(s.com, s.buf[kind := []])
  {
  }

  lemma ChannelFits(lim: Limits, setup: Setup, com: Common, buf: Buffers, ch: Channel)
    requires Bounded(lim, com.(ct := [], cm := None), buf)
    ensures |Prefix(setup, com, ch)| + |buf[First(ch)]| + (if HasTwo(ch) then |buf[Second(ch)]| else 0)
            <= AssemblySize(lim, ch)
  {
    assert |buf[First(ch)]| <= Capacity(lim, First(ch));
    if HasTwo(ch) {
      assert |buf[Second(ch)]| <= Capacity(lim, Second(ch));
    }
  }
}
