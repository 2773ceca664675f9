/**
 The running form refines the recorded form.  `Sim` says that every live digest has absorbed
 exactly the bytes the recorded form would assemble.  Each step keeps `Sim` exactly when its
 `Keeps` condition holds, so every run of kept steps ends with equal hashes.
 */
module Refinement {
  import opened Codec
  import opened ManagedBuffers
  import opened Transcript
  import opened Steps

  ghost predicate ChannelSim(setup: Setup, r: Recorded, s: Running, ch: Channel)
  {
    if Digest(ch) in s.dig then s.dig[Digest(ch)] == Assembled(setup, r.com, r.buf, ch)
    else Body(r.buf, ch) == []
  }

  /** The finish transcript as the running form gets to it, out of the exchange transcript. */
  function FinishAbsorbed(setup: Setup, com: Common, buf: Buffers): (r: Bytes)
  {
    ExchangeTh(setup, com, buf) + MutualPart(setup, com) + buf[F]
  }

  ghost predicate ThSim(setup: Setup, r: Recorded, s: Running)
  {
    if s.fInit then
      && Th in s.dig && s.dig[Th] == FinishAbsorbed(setup, r.com, r.buf)
      && ThBackup in s.dig && s.dig[ThBackup] == ExchangeTh(setup, r.com, r.buf)
    else
      && ThBackup !in s.dig && r.buf[F] == []
      && if Th in s.dig then s.dig[Th] == ExchangeTh(setup, r.com, r.buf) else r.buf[K] == []
  }

  ghost predicate Sim(setup: Setup, r: Recorded, s: Running)
  {
    && r.com == s.com
    && (forall ch: Channel :: ChannelSim(setup, r, s, ch))
    && ThSim(setup, r, s)
  }

  /** No live digest covers message A. */
  ghost predicate VcaUnused(setup: Setup, s: Running)
  {
    forall role :: role in s.dig ==> role.Digest? && !WithVca(setup, role.ch)
  }

  predicate DUnused(setup: Setup, s: Running)
  {
    setup.usePsk || !setup.multiKeyRsp || Th !in s.dig
  }

  predicate ResponderUnused(setup: Setup, s: Running)
  {
    setup.usePsk || Th !in s.dig
  }

  predicate EncapDUnused(setup: Setup, s: Running)
  {
    setup.usePsk || !setup.multiKeyReq || s.com.cm.None? || !s.fInit
  }

  /**
   When a step is safe, in terms of the state before it and how it ends: a message that fits its
   buffer; nothing changed that a live digest has already absorbed; no B behind a C, unless the
   two happen to read the same in either order; no K after F has started;
   F reset only once started, K only before; B reset only without C and C only without B.
   An append that fails in the provider is safe only if there was nothing to lose.
   */
  ghost predicate Keeps(lim: Limits, setup: Setup, r: Recorded, s: Running, op: Op, outcome: Outcome)
  {
    match op
    case AppendA(m) => m == [] || !Fits(r.com.a, VCA_SIZE, m) || VcaUnused(setup, s)
    case AppendD(m) =>
      m == [] || !TakesD(r.com) || !Fits([], DigestsSize(lim), m) || DUnused(setup, s)
    case AppendEncapD(m) =>
      m == [] || !TakesEncapD(r.com) || !Fits([], DigestsSize(lim), m) || EncapDUnused(setup, s)
    case Append(kind, m) => if outcome.Done? then AppendKeeps(lim, r, s, kind, m)
                            else FailureKeeps(lim, r, s, kind, m, outcome)
    case ResetA => r.com.a == [] || VcaUnused(setup, s)
    case ResetD => r.com.d == [] || DUnused(setup, s)
    case ResetEncapD => r.com.encapD == [] || EncapDUnused(setup, s)
    case Reset(kind) => ResetKeeps(r, s, kind)
    case RequestCode(request, _, _, _) => request.GetDigests? ==> r.buf[C] == []
    case EncapRequestCode(_) => true
    case SetResponder(ct) => ct == r.com.ct || ResponderUnused(setup, s)
    case SetMutual(cm) =>
      !s.fInit || MutualPart(setup, r.com.(cm := cm)) == MutualPart(setup, r.com)
  }

  predicate AppendKeeps(lim: Limits, r: Recorded, s: Running, kind: Message, m: Bytes)
  {
    || m == []
    || (&& Fits(r.buf[kind], Capacity(lim, kind), m) && !(kind.K? && s.fInit)
        && (Reorders(r, kind) ==> var later := r.buf[Second(ChannelOf(kind))]; m + later == later + m))
  }

  /** A failure drops what the context had absorbed, and the message with it. */
  predicate FailureKeeps(lim: Limits, r: Recorded, s: Running, kind: Message, m: Bytes, outcome: Outcome)
  {
    && (m == [] || !Fits(r.buf[kind], Capacity(lim, kind), m))
    && match kind
       case K => !s.fInit && r.buf[K] == []
       case F => !s.fInit && !outcome.UpdateFailed?
       case _ => Body(r.buf, ChannelOf(kind)) == []
  }

  ghost predicate ResetKeeps(r: Recorded, s: Running, kind: Message)
  {
    match kind
    case K => !s.fInit
    case F => s.fInit || Th !in s.dig || r.buf[K] == []
    case B => r.buf[C] == []
    case C => r.buf[B] == []
    case MutB => r.buf[MutC] == []
    case MutC => r.buf[MutB] == []
    case _ => true
  }

  /** The earlier message of a two-message channel is about to grow behind the later one. */
  predicate Reorders(r: Recorded, kind: Message)
  {
    && Signed(kind) && HasTwo(ChannelOf(kind))
    && kind == First(ChannelOf(kind)) && r.buf[Second(ChannelOf(kind))] != []
  }

  // Steps on one signed channel.

  /** If only channel ch is affected, only channel ch is in question. */
  lemma OneChannelChanges(setup: Setup, r: Recorded, s: Running, r': Recorded, s': Running,
                          ch: Channel)
    requires Sim(setup, r, s)
    requires r'.com == r.com && s'.com == s.com && s'.fInit == s.fInit
    requires r'.buf[K] == r.buf[K] && r'.buf[F] == r.buf[F]
    requires forall c: Channel :: c != ch ==> Body(r'.buf, c) == Body(r.buf, c)
    requires forall role: Role :: role != Digest(ch) ==> (role in s'.dig <==> role in s.dig)
    requires forall role: Role :: role != Digest(ch) && role in s.dig ==> s'.dig[role] == s.dig[role]
    ensures Sim(setup, r', s') <==> ChannelSim(setup, r', s', ch)
  {
    forall c: Channel | c != ch
      ensures ChannelSim(setup, r', s', c)
    {
      assert ChannelSim(setup, r, s, c);
      assert Body(r'.buf, c) == Body(r.buf, c);
    }
  }

  lemma OtherBodies(buf: Buffers, kind: Message, m: Bytes, c: Channel)
    requires Signed(kind) && c != ChannelOf(kind)
    ensures Body(buf[kind := m], c) == Body(buf, c)
  {
  }

  lemma BodyGrows(buf: Buffers, kind: Message, m: Bytes)
    requires Signed(kind)
    requires m == [] || !HasTwo(ChannelOf(kind)) || kind == Second(ChannelOf(kind))
             || buf[Second(ChannelOf(kind))] == []
    ensures Body(buf[kind := buf[kind] + m], ChannelOf(kind)) == Body(buf, ChannelOf(kind)) + m
  {
    var ch := ChannelOf(kind);
    MessageIsFirstOrSecond(kind);
    if HasTwo(ch) && kind == First(ch) && m == [] {
      assert buf[kind] + m == buf[kind];
    }
  }

  lemma SignedAppendExact(lim: Limits, setup: Setup, r: Recorded, s: Running,
                          kind: Message, m: Bytes)
    requires Sim(setup, r, s) && Signed(kind)
    ensures Sim(setup, StepRecorded(lim, r, Append(kind, m)),
                StepRunning(lim, setup, s, Append(kind, m), Done))
            <==> AppendKeeps(lim, r, s, kind, m)
  {
    var ch, fits := ChannelOf(kind), Fits(r.buf[kind], Capacity(lim, kind), m);
    var dig := Absorbed(s.dig, Digest(ch), Prefix(setup, s.com, ch), m);
    var buf := r.buf[kind := if fits then r.buf[kind] + m else r.buf[kind]];
    var r', s' := Recorded(r.com, buf), Running(s.com, dig, s.fInit);
    SignedAppendIs(lim, setup, r, s, kind, m, r', s');
    if Reorders(r, kind) {
      ReorderAt(setup, r, s, kind, m, fits, r', s');
    } else {
      SignedAppendAt(setup, r, s, kind, m, fits, r', s');
    }
  }

  lemma SignedAppendIs(lim: Limits, setup: Setup, r: Recorded, s: Running, kind: Message, m: Bytes,
                       r': Recorded, s': Running)
    requires Signed(kind)
    requires r' == Recorded(r.com, r.buf[kind := Appended(r.buf[kind], Capacity(lim, kind), m)])
    requires s' == Running(s.com, Absorbed(s.dig, Digest(ChannelOf(kind)),
                                           Prefix(setup, s.com, ChannelOf(kind)), m), s.fInit)
    ensures r' == StepRecorded(lim, r, Append(kind, m))
    ensures s' == StepRunning(lim, setup, s, Append(kind, m), Done)
  {
  }

  /** Behind a later message, an append keeps the order of bytes only if the two commute. */
  lemma ReorderAt(setup: Setup, r: Recorded, s: Running, kind: Message, m: Bytes,
                  fits: bool, r': Recorded, s': Running)
    requires Sim(setup, r, s) && Reorders(r, kind)
    requires r' == Recorded(r.com, r.buf[kind := if fits then r.buf[kind] + m else r.buf[kind]])
    requires s' == Running(s.com, Absorbed(s.dig, Digest(ChannelOf(kind)),
                                           Prefix(setup, s.com, ChannelOf(kind)), m), s.fInit)
    ensures var later := r.buf[Second(ChannelOf(kind))];
            Sim(setup, r', s') <==> (m == [] || (fits && m + later == later + m))
  {
    var ch := ChannelOf(kind);
    assert Sim(setup, r', s') <==> ChannelSim(setup, r', s', ch) by {
      forall c: Channel | c != ch
        ensures Body(r'.buf, c) == Body(r.buf, c)
      {
        OtherBodies(r.buf, kind, r'.buf[kind], c);
      }
      OneChannelChanges(setup, r, s, r', s', ch);
    }
    assert ChannelSim(setup, r, s, ch);
    var p, b, later := Prefix(setup, r.com, ch), r.buf[kind], r.buf[Second(ch)];
    assert s'.dig[Digest(ch)] == p + (b + later) + m;
    assert Assembled(setup, r'.com, r'.buf, ch) == p + ((if fits then b + m else b) + later);
    Commuting(p, b, later, m);
  }

  lemma Commuting(p: Bytes, b: Bytes, later: Bytes, m: Bytes)
    ensures p + (b + later) + m == p + (b + later) <==> m == []
    ensures p + (b + later) + m == p + (b + m + later) <==> m + later == later + m
  {
    assert |p + (b + later) + m| == |p + (b + later)| + |m|;
    assert p + (b + later) + m == p + b + (later + m);
    assert p + (b + m + later) == p + b + (m + later);
    if p + b + (later + m) == p + b + (m + later) {
      SplitAt(p + b, later + m, p + b, m + later);
    }
  }

  lemma SignedAppendAt(setup: Setup, r: Recorded, s: Running, kind: Message, m: Bytes,
                       fits: bool, r': Recorded, s': Running)
    requires Sim(setup, r, s) && Signed(kind) && !Reorders(r, kind)
    requires r' == Recorded(r.com, r.buf[kind := if fits then r.buf[kind] + m else r.buf[kind]])
    requires s' == Running(s.com, Absorbed(s.dig, Digest(ChannelOf(kind)),
                                           Prefix(setup, s.com, ChannelOf(kind)), m), s.fInit)
    ensures Sim(setup, r', s') <==> (m == [] || fits)
  {
    var ch := ChannelOf(kind);
    assert Sim(setup, r', s') <==> ChannelSim(setup, r', s', ch) by {
      forall c: Channel | c != ch
        ensures Body(r'.buf, c) == Body(r.buf, c)
      {
        OtherBodies(r.buf, kind, r'.buf[kind], c);
      }
      OneChannelChanges(setup, r, s, r', s', ch);
    }
    assert ChannelSim(setup, r', s', ch) <==> (m == [] || fits) by {
      assert ChannelSim(setup, r, s, ch);
      BodyAfterAppend(r.buf, kind, m, fits);
      ChannelAppendExact(setup, r, s, ch, m, fits, r', s');
    }
  }

  lemma BodyAfterAppend(buf: Buffers, kind: Message, m: Bytes, fits: bool)
    requires Signed(kind) && !Reorders(Recorded(Common([], [], [], false, false, [], None), buf), kind)
    ensures Body(buf[kind := if fits then buf[kind] + m else buf[kind]], ChannelOf(kind))
         == if fits then Body(buf, ChannelOf(kind)) + m else Body(buf, ChannelOf(kind))
  {
    if fits {
      BodyGrows(buf, kind, m);
    } else {
      assert buf[kind := buf[kind]] == buf;
    }
  }

  lemma Longer(p: Bytes, b: Bytes, m: Bytes)
    ensures p + b + m == p + (b + m)
    ensures p + b + m == p + b <==> m == []
  {
    assert |p + b + m| == |p + b| + |m|;
  }

  lemma ChannelAppendExact(setup: Setup, r: Recorded, s: Running, ch: Channel, m: Bytes,
                           grew: bool, r': Recorded, s': Running)
    requires ChannelSim(setup, r, s, ch) && r.com == s.com && r'.com == r.com
    requires Body(r'.buf, ch) == if grew then Body(r.buf, ch) + m else Body(r.buf, ch)
    requires s' == s.(dig := Absorbed(s.dig, Digest(ch), Prefix(setup, s.com, ch), m))
    ensures ChannelSim(setup, r', s', ch) <==> (m == [] || grew)
  {
    var p, b := Prefix(setup, r.com, ch), Body(r.buf, ch);
    assert s'.dig[Digest(ch)] == p + b + m by {
      if Digest(ch) !in s.dig { assert p + b == p; }
    }
    Longer(p, b, m);
    assert m == [] ==> b + m == b;
  }

  /**
   Every message that fits may be appended to the earlier message exactly when the later one is
   empty, or nothing but the empty message fits any more.
   */
  lemma ReorderExact(lim: Limits, setup: Setup, r: Recorded, s: Running, ch: Channel)
    requires Sim(setup, r, s) && HasTwo(ch)
    requires |r.buf[First(ch)]| <= Capacity(lim, First(ch))
    ensures (forall m: Bytes :: Fits(r.buf[First(ch)], Capacity(lim, First(ch)), m) ==>
               Sim(setup, StepRecorded(lim, r, Append(First(ch), m)),
                   StepRunning(lim, setup, s, Append(First(ch), m), Done)))
            <==> (r.buf[Second(ch)] == [] || |r.buf[First(ch)]| == Capacity(lim, First(ch)))
  {
    var kind, later := First(ch), r.buf[Second(ch)];
    forall m: Bytes
      ensures Sim(setup, StepRecorded(lim, r, Append(kind, m)),
                  StepRunning(lim, setup, s, Append(kind, m), Done))
              <==> AppendKeeps(lim, r, s, kind, m)
    {
      SignedAppendExact(lim, setup, r, s, kind, m);
    }
    if later != [] && |r.buf[kind]| < Capacity(lim, kind) {
      var m: Bytes := [if later[0] == 0 then 1 else 0];
      assert (m + later)[0] != (later + m)[0];
      assert !AppendKeeps(lim, r, s, kind, m);
    }
  }

  lemma SignedResetExact(lim: Limits, setup: Setup, r: Recorded, s: Running, kind: Message)
    requires Sim(setup, r, s) && Signed(kind)
    ensures Sim(setup, StepRecorded(lim, r, Reset(kind)),
                StepRunning(lim, setup, s, Reset(kind), Done))
            <==> ResetKeeps(r, s, kind)
  {
    var ch, op := ChannelOf(kind), Reset(kind);
    var r', s' := StepRecorded(lim, r, op), StepRunning(lim, setup, s, op, Done);
    forall c: Channel | c != ch
      ensures Body(r'.buf, c) == Body(r.buf, c)
    {
      OtherBodies(r.buf, kind, [], c);
    }
    OneChannelChanges(setup, r, s, r', s', ch);
    BodyAfterReset(r, s, kind);
  }

  lemma BodyAfterReset(r: Recorded, s: Running, kind: Message)
    requires Signed(kind)
    ensures Body(r.buf[kind := []], ChannelOf(kind)) == [] <==> ResetKeeps(r, s, kind)
  {
  }

  lemma ClearedChannel(setup: Setup, r: Recorded, s: Running, ms: set<Message>, com: Common, ch: Channel)
    requires ChannelSim(setup, r, s, ch) && com.a == r.com.a
    ensures ChannelSim(setup, Recorded(com, Cleared(r.buf, ms)),
                       Running(com, s.dig - Dropped(ms), s.fInit), ch)
            <==> (First(ch) !in ms && (HasTwo(ch) ==> Second(ch) !in ms))
                 || Body(Cleared(r.buf, ms), ch) == []
  {
    DroppedAt(ms, ch);
  }

  /** Only GET_DIGESTS leaves a later message behind. */
  lemma ResetsAreWhole(r: Recorded, request: Request, authenticated: bool, inSession: bool, ch: Channel)
    ensures var ms := ResetBy(request, authenticated, inSession);
            (First(ch) !in ms && (HasTwo(ch) ==> Second(ch) !in ms))
            || Body(Cleared(r.buf, ms), ch) == []
            <==> (ch.M1M2? && request.GetDigests? ==> r.buf[C] == [])
  {
  }

  lemma ResetsKeepTh(setup: Setup, r: Recorded, s: Running, ms: set<Message>, com: Common)
    requires ThSim(setup, r, s) && K !in ms && F !in ms
    requires com == r.com.(dClosed := com.dClosed)
    ensures ThSim(setup, Recorded(com, Cleared(r.buf, ms)), Running(com, s.dig - Dropped(ms), s.fInit))
  {
    assert Th !in Dropped(ms) && ThBackup !in Dropped(ms);
  }

  lemma RequestExact(lim: Limits, setup: Setup, r: Recorded, s: Running, op: Op)
    requires Sim(setup, r, s) && op.RequestCode?
    ensures Sim(setup, StepRecorded(lim, r, op), StepRunning(lim, setup, s, op, Done))
            <==> Keeps(lim, setup, r, s, op, Done)
  {
    var ms := ResetBy(op.request, op.authenticated, op.inSession);
    var com := StepCommon(lim, r.com, op);
    var r', s' := Recorded(com, Cleared(r.buf, ms)), Running(com, s.dig - Dropped(ms), s.fInit);
    assert r' == StepRecorded(lim, r, op) && s' == StepRunning(lim, setup, s, op, Done);
    forall ch: Channel
      ensures ChannelSim(setup, r', s', ch)
              <==> (ch.M1M2? && op.request.GetDigests? ==> r.buf[C] == [])
    {
      assert ChannelSim(setup, r, s, ch);
      ClearedChannel(setup, r, s, ms, com, ch);
      ResetsAreWhole(r, op.request, op.authenticated, op.inSession, ch);
    }
    assert ChannelSim(setup, r', s', M1M2) <==> Keeps(lim, setup, r, s, op, Done);
    ResetsKeepTh(setup, r, s, ms, com);
  }

  // Steps on the TH transcript.

  lemma ThAppendExact(lim: Limits, setup: Setup, r: Recorded, s: Running,
                      kind: Message, m: Bytes)
    requires Sim(setup, r, s) && !Signed(kind)
    ensures Sim(setup, StepRecorded(lim, r, Append(kind, m)),
                StepRunning(lim, setup, s, Append(kind, m), Done))
            <==> AppendKeeps(lim, r, s, kind, m)
  {
    var op := Append(kind, m);
    var r', s' := StepRecorded(lim, r, op), StepRunning(lim, setup, s, op, Done);
    ChannelsUntouched(setup, r, s, r', s');
    if kind.K? {
      KAppendExact(lim, setup, r, s, m);
    } else {
      FAppendExact(lim, setup, r, s, m);
    }
  }

  lemma ChannelsUntouched(setup: Setup, r: Recorded, s: Running, r': Recorded, s': Running)
    requires Sim(setup, r, s)
    requires r'.com == r.com && s'.com == s.com
    requires forall m: Message :: Signed(m) ==> r'.buf[m] == r.buf[m]
    requires forall ch: Channel :: Digest(ch) in s.dig <==> Digest(ch) in s'.dig
    requires forall ch: Channel :: Digest(ch) in s.dig ==> s'.dig[Digest(ch)] == s.dig[Digest(ch)]
    ensures Sim(setup, r', s') <==> ThSim(setup, r', s')
  {
    forall ch: Channel
      ensures ChannelSim(setup, r', s', ch)
    {
      assert ChannelSim(setup, r, s, ch);
    }
  }

  lemma KAppendExact(lim: Limits, setup: Setup, r: Recorded, s: Running, m: Bytes)
    requires Sim(setup, r, s)
    ensures ThSim(setup, StepRecorded(lim, r, Append(K, m)),
                  StepRunning(lim, setup, s, Append(K, m), Done))
            <==> AppendKeeps(lim, r, s, K, m)
  {
    var op := Append(K, m);
    var r', s' := StepRecorded(lim, r, op), StepRunning(lim, setup, s, op, Done);
    var before := ExchangeTh(setup, r.com, r.buf);
    assert Prelude(setup, r.com) + [] == Prelude(setup, r.com);
    if m == [] {
      assert r.buf[K] + m == r.buf[K];
      assert r'.buf[K] == r.buf[K];
      assert Th in s.dig ==> s.dig[Th] + m == s.dig[Th];
    } else if Fits(r.buf[K], Capacity(lim, K), m) {
      assert ExchangeTh(setup, r'.com, r'.buf) == before + m;
      assert |before + m| != |before|;
    } else {
      assert r'.buf[K] == r.buf[K];
      assert !s.fInit ==> s'.dig[Th] == before + m;
      assert s.fInit ==> s'.dig[Th] == FinishAbsorbed(setup, r.com, r.buf) + m;
    }
  }

  lemma FAppendExact(lim: Limits, setup: Setup, r: Recorded, s: Running, m: Bytes)
    requires Sim(setup, r, s)
    ensures ThSim(setup, StepRecorded(lim, r, Append(F, m)),
                  StepRunning(lim, setup, s, Append(F, m), Done))
            <==> AppendKeeps(lim, r, s, F, m)
  {
    var op := Append(F, m);
    var r', s' := StepRecorded(lim, r, op), StepRunning(lim, setup, s, op, Done);
    var whole := ExchangeTh(setup, r.com, r.buf) + MutualPart(setup, r.com);
    assert Prelude(setup, r.com) + [] == Prelude(setup, r.com);
    assert s'.dig[Th] == whole + (r.buf[F] + m) by {
      if s.fInit {
        assert s.dig[Th] == whole + r.buf[F];
        assert whole + r.buf[F] + m == whole + (r.buf[F] + m);
      } else {
        assert r.buf[F] + m == m;
      }
    }
    assert s'.dig[ThBackup] == ExchangeTh(setup, r.com, r.buf);
    if m == [] {
      assert r.buf[F] + m == r.buf[F];
      assert r'.buf[F] == r.buf[F];
    } else if !Fits(r.buf[F], Capacity(lim, F), m) {
      assert r'.buf[F] == r.buf[F];
      assert |whole + (r.buf[F] + m)| != |whole + r.buf[F]|;
    }
  }

  lemma ThResetExact(lim: Limits, setup: Setup, r: Recorded, s: Running, kind: Message)
    requires Sim(setup, r, s) && !Signed(kind)
    ensures Sim(setup, StepRecorded(lim, r, Reset(kind)),
                StepRunning(lim, setup, s, Reset(kind), Done))
            <==> ResetKeeps(r, s, kind)
  {
    var op := Reset(kind);
    var r', s' := StepRecorded(lim, r, op), StepRunning(lim, setup, s, op, Done);
    ChannelsUntouched(setup, r, s, r', s');
  }

  // Steps on what both builds keep as plain bytes.

  lemma CommonExact(lim: Limits, setup: Setup, r: Recorded, s: Running, op: Op)
    requires Sim(setup, r, s)
    requires !op.Append? && !op.Reset? && !op.RequestCode?
    ensures Sim(setup, StepRecorded(lim, r, op), StepRunning(lim, setup, s, op, Done))
            <==> Keeps(lim, setup, r, s, op, Done)
  {
    var com := StepCommon(lim, r.com, op);
    var r', s' := StepRecorded(lim, r, op), StepRunning(lim, setup, s, op, Done);
    assert r' == r.(com := com) && s' == s.(com := com);
    if com.a != r.com.a {
      VcaExact(setup, r, s, com);
    } else {
      forall ch: Channel
        ensures ChannelSim(setup, r', s', ch)
      {
        assert ChannelSim(setup, r, s, ch);
      }
      ThInputsExact(setup, r, s, com);
    }
  }

  lemma VcaExact(setup: Setup, r: Recorded, s: Running, com: Common)
    requires Sim(setup, r, s)
    requires com == r.com.(a := com.a) && |com.a| != |r.com.a|
    ensures Sim(setup, r.(com := com), s.(com := com)) <==> VcaUnused(setup, s)
  {
    var r', s' := r.(com := com), s.(com := com);
    forall ch: Channel
      ensures ChannelSim(setup, r', s', ch) <==> (Digest(ch) in s.dig ==> !WithVca(setup, ch))
    {
      assert ChannelSim(setup, r, s, ch);
      if Digest(ch) in s.dig && WithVca(setup, ch) {
        assert |Assembled(setup, com, r.buf, ch)| != |Assembled(setup, r.com, r.buf, ch)|;
      }
    }
    assert |Prelude(setup, com)| != |Prelude(setup, r.com)|;
    assert ThSim(setup, r', s') <==> Th !in s.dig;
    assert ThBackup in s.dig ==> Th in s.dig;
    if VcaUnused(setup, s) {
      assert Th !in s.dig;
    }
  }

  lemma SuffixEqual(x: Bytes, y: Bytes, tail: Bytes)
    requires x + tail == y + tail
    ensures x == y
  {
    assert |x| == |y|;
    SplitAt(x, tail, y, tail);
  }

  lemma PreludeEqual(setup: Setup, x: Common, y: Common)
    requires x.a == y.a && (x.d == y.d || x.ct == y.ct)
    ensures Prelude(setup, x) == Prelude(setup, y)
            <==> (setup.usePsk || ((!setup.multiKeyRsp || x.d == y.d) && x.ct == y.ct))
  {
    if !setup.usePsk && Prelude(setup, x) == Prelude(setup, y) {
      var d, d' := if setup.multiKeyRsp then x.d else [], if setup.multiKeyRsp then y.d else [];
      SplitAt(x.a, d + x.ct, y.a, d' + y.ct);
      if x.ct == y.ct {
        SuffixEqual(d, d', x.ct);
      } else {
        SplitAt(d, x.ct, d', y.ct);
      }
    }
  }

  lemma ThInputsExact(setup: Setup, r: Recorded, s: Running, com: Common)
    requires Sim(setup, r, s) && com.a == r.com.a && (com.d == r.com.d || com.ct == r.com.ct)
    ensures ThSim(setup, r.(com := com), s.(com := com))
            <==> (&& (DUnused(setup, s) || com.d == r.com.d)
                  && (ResponderUnused(setup, s) || com.ct == r.com.ct)
                  && (!s.fInit || MutualPart(setup, com) == MutualPart(setup, r.com)))
  {
    var k, f := r.buf[K], r.buf[F];
    var p, p' := Prelude(setup, r.com), Prelude(setup, com);
    var m, m' := MutualPart(setup, r.com), MutualPart(setup, com);
    PreludeEqual(setup, com, r.com);
    if p' + k == p + k {
      SuffixEqual(p', p, k);
    }
    if s.fInit && p' + k == p + k && p' + k + m' + f == p + k + m + f {
      SuffixEqual(p + k + m', p + k + m, f);
      SplitAt(p + k, m', p + k, m);
    }
  }

  /** Transcripts that have not started. */
  ghost predicate Unstarted(r: Recorded, s: Running)
  {
    r.com == s.com && r.buf == EmptyBuffers && s.dig == map[] && !s.fInit
  }

  lemma UnstartedSim(setup: Setup, r: Recorded, s: Running)
    requires Unstarted(r, s)
    ensures Sim(setup, r, s)
  {
    forall ch: Channel ensures ChannelSim(setup, r, s, ch) {}
  }

  // Appends that fail in the provider.

  lemma FailedSignedExact(lim: Limits, setup: Setup, r: Recorded, s: Running,
                          kind: Message, m: Bytes, outcome: Outcome)
    requires Sim(setup, r, s) && Signed(kind) && !outcome.Done?
    ensures Sim(setup, StepRecorded(lim, r, Append(kind, m)),
                StepRunning(lim, setup, s, Append(kind, m), outcome))
            <==> FailureKeeps(lim, r, s, kind, m, outcome)
  {
    var ch, op := ChannelOf(kind), Append(kind, m);
    var r', s' := StepRecorded(lim, r, op), StepRunning(lim, setup, s, op, outcome);
    forall c: Channel | c != ch
      ensures Body(r'.buf, c) == Body(r.buf, c)
    {
      OtherBodies(r.buf, kind, r'.buf[kind], c);
    }
    OneChannelChanges(setup, r, s, r', s', ch);
    BodyAfterFailure(lim, r.buf, kind, m);
  }

  lemma BodyAfterFailure(lim: Limits, buf: Buffers, kind: Message, m: Bytes)
    requires Signed(kind)
    ensures Body(buf[kind := Appended(buf[kind], Capacity(lim, kind), m)], ChannelOf(kind)) == []
            <==> (&& Body(buf, ChannelOf(kind)) == []
                  && (m == [] || !Fits(buf[kind], Capacity(lim, kind), m)))
  {
    MessageIsFirstOrSecond(kind);
  }

  lemma FailedThExact(lim: Limits, setup: Setup, r: Recorded, s: Running,
                      kind: Message, m: Bytes, outcome: Outcome)
    requires Sim(setup, r, s) && !Signed(kind) && !outcome.Done?
    ensures Sim(setup, StepRecorded(lim, r, Append(kind, m)),
                StepRunning(lim, setup, s, Append(kind, m), outcome))
            <==> FailureKeeps(lim, r, s, kind, m, outcome)
  {
    var op := Append(kind, m);
    var r', s' := StepRecorded(lim, r, op), StepRunning(lim, setup, s, op, outcome);
    ChannelsUntouched(setup, r, s, r', s');
    assert Prelude(setup, r.com) + [] == Prelude(setup, r.com);
  }

  /** Every step, however it ends, keeps the correspondence exactly when `Keeps` holds. */
  lemma StepExact(lim: Limits, setup: Setup, r: Recorded, s: Running, op: Op, outcome: Outcome)
    requires Sim(setup, r, s)
    ensures Sim(setup, StepRecorded(lim, r, op), StepRunning(lim, setup, s, op, outcome))
            <==> Keeps(lim, setup, r, s, op, outcome)
  {
    match op
    case Append(kind, m) =>
      if outcome.Done? {
        if Signed(kind) {
          SignedAppendExact(lim, setup, r, s, kind, m);
        } else {
          ThAppendExact(lim, setup, r, s, kind, m);
        }
      } else if Signed(kind) {
        FailedSignedExact(lim, setup, r, s, kind, m, outcome);
      } else {
        FailedThExact(lim, setup, r, s, kind, m, outcome);
      }
    case Reset(kind) =>
      if Signed(kind) {
        SignedResetExact(lim, setup, r, s, kind);
      } else {
        ThResetExact(lim, setup, r, s, kind);
      }
    case RequestCode(_, _, _, _) => RequestExact(lim, setup, r, s, op);
    case _ => CommonExact(lim, setup, r, s, op);
  }

  /**
   An append is safe whatever the provider does exactly if it appends nothing, and not to F, and there
   is nothing to lose: a failure discards what the context had absorbed.
   */
  lemma SafeAppendExact(lim: Limits, setup: Setup, r: Recorded, s: Running, kind: Message, m: Bytes)
    requires Sim(setup, r, s)
    ensures (forall outcome :: Sim(setup, StepRecorded(lim, r, Append(kind, m)),
                                   StepRunning(lim, setup, s, Append(kind, m), outcome)))
            <==> SafeAppend(r, s, kind, m)
  {
    SafeAppendKeeps(lim, setup, r, s, kind, m);
    forall outcome
      ensures Sim(setup, StepRecorded(lim, r, Append(kind, m)),
                  StepRunning(lim, setup, s, Append(kind, m), outcome))
              <==> Keeps(lim, setup, r, s, Append(kind, m), outcome)
    {
      StepExact(lim, setup, r, s, Append(kind, m), outcome);
    }
  }

  predicate SafeAppend(r: Recorded, s: Running, kind: Message, m: Bytes)
  {
    && m == [] && !kind.F?
    && if kind.K? then r.buf[K] == [] && !s.fInit else Body(r.buf, ChannelOf(kind)) == []
  }

  lemma SafeAppendKeeps(lim: Limits, setup: Setup, r: Recorded, s: Running, kind: Message, m: Bytes)
    ensures (forall outcome :: Keeps(lim, setup, r, s, Append(kind, m), outcome)) <==> SafeAppend(r, s, kind, m)
  {
    if forall outcome :: Keeps(lim, setup, r, s, Append(kind, m), outcome) {
      assert Keeps(lim, setup, r, s, Append(kind, m), Done) && Keeps(lim, setup, r, s, Append(kind, m), UpdateFailed);
    }
  }

  // Whole runs.

  function RunRecorded(lim: Limits, r: Recorded, calls: seq<Call>): (r': Recorded)
    decreases |calls|
  {
    if calls == [] then r else RunRecorded(lim, StepRecorded(lim, r, calls[0].op), calls[1..])
  }

  function RunRunning(lim: Limits, setup: Setup, s: Running, calls: seq<Call>): (s': Running)
    decreases |calls|
  {
    if calls == [] then s
    else RunRunning(lim, setup, StepRunning(lim, setup, s, calls[0].op, calls[0].outcome), calls[1..])
  }

  ghost predicate KeptRun(lim: Limits, setup: Setup, r: Recorded, s: Running, calls: seq<Call>)
    decreases |calls|
  {
    calls == [] ||
    (&& Keeps(lim, setup, r, s, calls[0].op, calls[0].outcome)
     && KeptRun(lim, setup, StepRecorded(lim, r, calls[0].op),
                StepRunning(lim, setup, s, calls[0].op, calls[0].outcome), calls[1..]))
  }

  /** Every live digest finalises to the hash of the transcript the recorded form assembles. */
  ghost predicate SameHashes(setup: Setup, r: Recorded, s: Running, h: Bytes -> Bytes)
  {
    && (forall ch: Channel :: Digest(ch) in s.dig ==>
          h(s.dig[Digest(ch)]) == h(Assembled(setup, r.com, r.buf, ch)))
    && (Th in s.dig ==>
          h(s.dig[Th]) == h(if s.fInit then FinishTh(setup, r.com, r.buf)
                            else ExchangeTh(setup, r.com, r.buf)))
  }

  lemma SimHashes(setup: Setup, r: Recorded, s: Running, h: Bytes -> Bytes)
    requires Sim(setup, r, s)
    ensures SameHashes(setup, r, s, h)
  {
    forall ch: Channel | Digest(ch) in s.dig
      ensures s.dig[Digest(ch)] == Assembled(setup, r.com, r.buf, ch)
    {
      assert ChannelSim(setup, r, s, ch);
    }
    FinishExtendsExchange(setup, r.com, r.buf);
  }

  /** Along every run of kept steps the two builds produce the same hashes. */
  lemma {:induction false} RunsAgree(lim: Limits, setup: Setup, r: Recorded, s: Running,
                                     calls: seq<Call>, h: Bytes -> Bytes)
    requires Sim(setup, r, s) && KeptRun(lim, setup, r, s, calls)
    ensures var r', s' := RunRecorded(lim, r, calls), RunRunning(lim, setup, s, calls);
            Sim(setup, r', s') && SameHashes(setup, r', s', h)
    decreases |calls|
  {
    if calls == [] {
      SimHashes(setup, r, s, h);
    } else {
      var op, outcome := calls[0].op, calls[0].outcome;
      StepExact(lim, setup, r, s, op, outcome);
      RunsAgree(lim, setup, StepRecorded(lim, r, op),
                StepRunning(lim, setup, s, op, outcome), calls[1..], h);
    }
  }

  /** The correspondence holds before the run and after each of its steps. */
  ghost predicate SimAlong(lim: Limits, setup: Setup, r: Recorded, s: Running, calls: seq<Call>)
    decreases |calls|
  {
    && Sim(setup, r, s)
    && (calls != [] ==>
          SimAlong(lim, setup, StepRecorded(lim, r, calls[0].op),
                   StepRunning(lim, setup, s, calls[0].op, calls[0].outcome), calls[1..]))
  }

  /**
   The builds correspond at every point of a run, whatever failed in it, exactly when every step
   of it is kept.
   */
  lemma {:induction false} RunsAgreeExactly(lim: Limits, setup: Setup, r: Recorded, s: Running,
                                            calls: seq<Call>)
    requires Sim(setup, r, s)
    ensures SimAlong(lim, setup, r, s, calls) <==> KeptRun(lim, setup, r, s, calls)
    decreases |calls|
  {
    if calls != [] {
      var op, outcome := calls[0].op, calls[0].outcome;
      var r', s' := StepRecorded(lim, r, op), StepRunning(lim, setup, s, op, outcome);
      StepExact(lim, setup, r, s, op, outcome);
      if Sim(setup, r', s') {
        RunsAgreeExactly(lim, setup, r', s', calls[1..]);
      }
    }
  }

  /** So for every run from transcripts that have not started. */
  lemma RunsFromStart(lim: Limits, setup: Setup, r: Recorded, s: Running, calls: seq<Call>, h: Bytes -> Bytes)
    requires Unstarted(r, s)
    ensures SimAlong(lim, setup, r, s, calls) <==> KeptRun(lim, setup, r, s, calls)
    ensures KeptRun(lim, setup, r, s, calls) ==>
              SameHashes(setup, RunRecorded(lim, r, calls), RunRunning(lim, setup, s, calls), h)
  {
    UnstartedSim(setup, r, s);
    RunsAgreeExactly(lim, setup, r, s, calls);
    if KeptRun(lim, setup, r, s, calls) {
      RunsAgree(lim, setup, r, s, calls, h);
    }
  }

  // What restores the correspondence once it is broken.

  /** Only channel ch may be out of step. */
  ghost predicate SimExcept(setup: Setup, r: Recorded, s: Running, ch: Channel)
  {
    r.com == s.com && ThSim(setup, r, s) && forall c: Channel :: c != ch ==> ChannelSim(setup, r, s, c)
  }

  /** Only the TH transcript may be out of step. */
  ghost predicate SimExceptTh(setup: Setup, r: Recorded, s: Running)
  {
    r.com == s.com && forall c: Channel :: ChannelSim(setup, r, s, c)
  }

  lemma SignedDamage(lim: Limits, setup: Setup, r: Recorded, s: Running, kind: Message, m: Bytes, outcome: Outcome)
    requires Sim(setup, r, s) && Signed(kind)
    ensures SimExcept(setup, StepRecorded(lim, r, Append(kind, m)),
                      StepRunning(lim, setup, s, Append(kind, m), outcome), ChannelOf(kind))
  {
    var r', s' := StepRecorded(lim, r, Append(kind, m)), StepRunning(lim, setup, s, Append(kind, m), outcome);
    assert r'.buf == r.buf[kind := r'.buf[kind]];
    forall c: Channel | c != ChannelOf(kind)
      ensures ChannelSim(setup, r', s', c)
    {
      assert ChannelSim(setup, r, s, c);
      OtherBodies(r.buf, kind, r'.buf[kind], c);
    }
  }

  lemma ThDamage(lim: Limits, setup: Setup, r: Recorded, s: Running, kind: Message, m: Bytes, outcome: Outcome)
    requires Sim(setup, r, s) && !Signed(kind)
    ensures SimExceptTh(setup, StepRecorded(lim, r, Append(kind, m)),
                        StepRunning(lim, setup, s, Append(kind, m), outcome))
  {
    var r', s' := StepRecorded(lim, r, Append(kind, m)), StepRunning(lim, setup, s, Append(kind, m), outcome);
    forall c: Channel
      ensures ChannelSim(setup, r', s', c)
    {
      assert ChannelSim(setup, r, s, c);
    }
  }

  /** An append, however it ends, puts no transcript out of step but its own. */
  lemma DamageIsContained(lim: Limits, setup: Setup, r: Recorded, s: Running,
                          kind: Message, m: Bytes, outcome: Outcome)
    requires Sim(setup, r, s)
    ensures var r', s' := StepRecorded(lim, r, Append(kind, m)),
                          StepRunning(lim, setup, s, Append(kind, m), outcome);
            if Signed(kind) then SimExcept(setup, r', s', ChannelOf(kind)) else SimExceptTh(setup, r', s')
  {
    if Signed(kind) {
      SignedDamage(lim, setup, r, s, kind, m, outcome);
    } else {
      ThDamage(lim, setup, r, s, kind, m, outcome);
    }
  }

  /**
   A signed transcript that is out of step is restored by resetting one of its messages exactly when
   the other is empty, and always by resetting both.
   */
  lemma SignedResetRestores(lim: Limits, setup: Setup, r: Recorded, s: Running, kind: Message)
    requires Signed(kind) && SimExcept(setup, r, s, ChannelOf(kind))
    ensures var r', s' := StepRecorded(lim, r, Reset(kind)), StepRunning(lim, setup, s, Reset(kind), Done);
            && SimExcept(setup, r', s', ChannelOf(kind))
            && (Sim(setup, r', s') <==> Body(r.buf[kind := []], ChannelOf(kind)) == [])
  {
    var ch := ChannelOf(kind);
    var r', s' := StepRecorded(lim, r, Reset(kind)), StepRunning(lim, setup, s, Reset(kind), Done);
    forall c: Channel | c != ch
      ensures ChannelSim(setup, r', s', c)
    {
      assert ChannelSim(setup, r, s, c);
      OtherBodies(r.buf, kind, [], c);
    }
    assert r'.buf == r.buf[kind := []] && Digest(ch) !in s'.dig;
    assert ChannelSim(setup, r', s', ch) <==> Body(r.buf[kind := []], ch) == [];
    if ChannelSim(setup, r', s', ch) {
      forall c: Channel
        ensures ChannelSim(setup, r', s', c)
      {
        assert c != ch ==> ChannelSim(setup, r', s', c);
      }
    }
  }

  lemma ResetBothRestores(lim: Limits, setup: Setup, r: Recorded, s: Running, ch: Channel)
    requires HasTwo(ch) && SimExcept(setup, r, s, ch)
    ensures Sim(setup, StepRecorded(lim, StepRecorded(lim, r, Reset(First(ch))), Reset(Second(ch))),
                StepRunning(lim, setup, StepRunning(lim, setup, s, Reset(First(ch)), Done),
                            Reset(Second(ch)), Done))
  {
    SignedResetRestores(lim, setup, r, s, First(ch));
    var r1, s1 := StepRecorded(lim, r, Reset(First(ch))), StepRunning(lim, setup, s, Reset(First(ch)), Done);
    SignedResetRestores(lim, setup, r1, s1, Second(ch));
    assert r1.buf[Second(ch) := []][First(ch)] == [];
  }

  /**
   A TH transcript that is out of step is restored by a reset of K alone exactly if F is empty and
   not started, and by a reset of F alone exactly if that brings back the right context or leaves
   none where none is due.
   */
  lemma ThResetRestores(lim: Limits, setup: Setup, r: Recorded, s: Running)
    requires SimExceptTh(setup, r, s)
    ensures Sim(setup, StepRecorded(lim, r, Reset(K)), StepRunning(lim, setup, s, Reset(K), Done))
            <==> !s.fInit && r.buf[F] == []
    ensures Sim(setup, StepRecorded(lim, r, Reset(F)), StepRunning(lim, setup, s, Reset(F), Done))
            <==> if Th in s.dig && ThBackup in s.dig
                 then s.dig[ThBackup] == ExchangeTh(setup, r.com, r.buf)
                 else ThBackup !in s.dig && r.buf[K] == []
  {
    ResetKeepsChannels(lim, setup, r, s, K);
    ResetKeepsChannels(lim, setup, r, s, F);
  }

  lemma ResetKeepsChannels(lim: Limits, setup: Setup, r: Recorded, s: Running, kind: Message)
    requires SimExceptTh(setup, r, s) && !Signed(kind)
    ensures SimExceptTh(setup, StepRecorded(lim, r, Reset(kind)),
                        StepRunning(lim, setup, s, Reset(kind), Done))
  {
    var r', s' := StepRecorded(lim, r, Reset(kind)), StepRunning(lim, setup, s, Reset(kind), Done);
    forall c: Channel
      ensures ChannelSim(setup, r', s', c)
    {
      assert ChannelSim(setup, r, s, c);
    }
  }

  /** Resetting both K and F restores it from every state, in either order. */
  lemma TearDownRestores(lim: Limits, setup: Setup, r: Recorded, s: Running)
    requires SimExceptTh(setup, r, s)
    ensures Sim(setup, StepRecorded(lim, StepRecorded(lim, r, Reset(K)), Reset(F)),
                StepRunning(lim, setup, StepRunning(lim, setup, s, Reset(K), Done), Reset(F), Done))
    ensures Sim(setup, StepRecorded(lim, StepRecorded(lim, r, Reset(F)), Reset(K)),
                StepRunning(lim, setup, StepRunning(lim, setup, s, Reset(F), Done), Reset(K), Done))
  {
    AfterReset(lim, setup, r, s);
    ResetKeepsChannels(lim, setup, r, s, K);
    ResetKeepsChannels(lim, setup, r, s, F);
    ThResetRestores(lim, setup, StepRecorded(lim, r, Reset(K)), StepRunning(lim, setup, s, Reset(K), Done));
    ThResetRestores(lim, setup, StepRecorded(lim, r, Reset(F)), StepRunning(lim, setup, s, Reset(F), Done));
  }

  lemma AfterReset(lim: Limits, setup: Setup, r: Recorded, s: Running)
    ensures StepRecorded(lim, r, Reset(K)).buf[K] == [] && StepRecorded(lim, r, Reset(F)).buf[F] == []
    ensures var s' := StepRunning(lim, setup, s, Reset(K), Done); Th !in s'.dig && ThBackup !in s'.dig
    ensures !StepRunning(lim, setup, s, Reset(F), Done).fInit
  {
  }
}
