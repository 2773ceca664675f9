/**
 The message transcripts of a connection and one of its sessions, as values: which messages
 each signed or hashed transcript is made of, in which order, and how large it may become.
 */
module Transcript {
  import opened Codec
  import opened ManagedBuffers

  const VERSION_11 := 0x11
  const SLOT_COUNT := 8
  const PUBLIC_KEY_SLOT := 0xFF

  /**
   The messages whose storage depends on the build: kept in buffers by the recorded form,
   absorbed into digests by the running form.  SessM, SessE and SessEncapE are the in-session
   counterparts of M, E and EncapE.
   */
  datatype Message = B | C | MutB | MutC | M | E | EncapE | SessM | SessE | SessEncapE | K | F

  /** The transcripts that are signed and then consumed. */
  datatype Channel = M1M2 | MutM1M2 | L1L2 | IL1IL2 | EncapIL1IL2
                   | SessL1L2 | SessIL1IL2 | SessEncapIL1IL2

  predicate Signed(m: Message)
  {
    !m.K? && !m.F?
  }

  function ChannelOf(m: Message): (ch: Channel)
    requires Signed(m)
  {
    match m
    case B => M1M2 case C => M1M2
    case MutB => MutM1M2 case MutC => MutM1M2
    case M => L1L2 case E => IL1IL2 case EncapE => EncapIL1IL2
    case SessM => SessL1L2 case SessE => SessIL1IL2 case SessEncapE => SessEncapIL1IL2
  }

  /** The one message of a channel, or the earlier of two. */
  function First(ch: Channel): (m: Message)
    ensures Signed(m) && ChannelOf(m) == ch
  {
    match ch
    case M1M2 => B case MutM1M2 => MutB
    case L1L2 => M case IL1IL2 => E case EncapIL1IL2 => EncapE
    case SessL1L2 => SessM case SessIL1IL2 => SessE case SessEncapIL1IL2 => SessEncapE
  }

  predicate HasTwo(ch: Channel)
  {
    ch.M1M2? || ch.MutM1M2?
  }

  /** The later message of a channel with two. */
  function Second(ch: Channel): (m: Message)
    requires HasTwo(ch)
    ensures Signed(m) && ChannelOf(m) == ch && m != First(ch)
  {
    if ch.M1M2? then C else MutC
  }

  lemma MessageIsFirstOrSecond(m: Message)
    requires Signed(m)
    ensures m == First(ChannelOf(m)) || (HasTwo(ChannelOf(m)) && m == Second(ChannelOf(m)))
  {
  }

  /** What was negotiated before any of these transcripts starts. */
  datatype Setup = Setup(version: nat, multiKeyReq: bool, multiKeyRsp: bool, usePsk: bool)

  /** Message A belongs to a channel always, or only since SPDM 1.2. */
  predicate WithVca(setup: Setup, ch: Channel)
  {
    setup.version > VERSION_11 || !(ch.MutM1M2? || ch.L1L2? || ch.SessL1L2?)
  }

  /**
   State both builds keep as plain bytes: messages A, D and EncapD with the windows in which a
   DIGESTS still counts, the hash ct of the Responder's certificate chain or raw key, and the hash cm
   of the mutual chain once one is requested.
   */
  datatype Common = Common(a: Bytes, d: Bytes, encapD: Bytes, dClosed: bool, encapDClosed: bool,
                           ct: Bytes, cm: Option<Bytes>)

  datatype Option<+T> = None | Some(value: T)

  type Buffers = b: map<Message, Bytes> | forall m: Message :: m in b
    witness map m: Message | true :: []

  const EmptyBuffers: Buffers := map m: Message | true :: []

  function Flatten(ms: seq<Bytes>): (r: Bytes)
  {
    if ms == [] then [] else ms[0] + Flatten(ms[1..])
  }

  lemma FlattenOne(x: Bytes)
    ensures Flatten([x]) == x
  {
    assert [x][1..] == [];
  }

  lemma FlattenMore(x: Bytes, y: Bytes, z: Bytes)
    ensures Flatten([x, z]) == x + z
    ensures Flatten([x, y, z]) == x + (y + z)
  {
    FlattenOne(z);
    assert [x, z][1..] == [z] && [y, z][1..] == [z] && [x, y, z][1..] == [y, z];
  }

  lemma {:induction false} FlattenAppended(pieces: seq<Bytes>, m: Bytes)
    ensures Flatten(pieces + [m]) == Flatten(pieces) + m
  {
    if pieces == [] {
      FlattenOne(m);
      assert [] + [m] == [m];
    } else {
      FlattenAppended(pieces[1..], m);
      assert (pieces + [m])[1..] == pieces[1..] + [m];
    }
  }

  function Prefix(setup: Setup, com: Common, ch: Channel): (r: Bytes)
  {
    if WithVca(setup, ch) then com.a else []
  }

  /** The messages of a channel that follow message A. */
  function Body(buf: Buffers, ch: Channel): (r: Bytes)
  {
    buf[First(ch)] + if HasTwo(ch) then buf[Second(ch)] else []
  }

  /** The byte string that is signed for a channel. */
  function Assembled(setup: Setup, com: Common, buf: Buffers, ch: Channel): (r: Bytes)
  {
    Prefix(setup, com, ch) + Body(buf, ch)
  }

  /**
   Every signed transcript, byte for byte.  Message A stands in front of M1/M2 and IL1/IL2 in every
   version, and of L1/L2 and the mutual M1/M2 since SPDM 1.2.
   */
  lemma AssembledBytes(setup: Setup, com: Common, buf: Buffers)
    ensures Assembled(setup, com, buf, M1M2) == com.a + (buf[B] + buf[C])
    ensures Assembled(setup, com, buf, IL1IL2) == com.a + buf[E]
    ensures Assembled(setup, com, buf, EncapIL1IL2) == com.a + buf[EncapE]
    ensures Assembled(setup, com, buf, SessIL1IL2) == com.a + buf[SessE]
    ensures Assembled(setup, com, buf, SessEncapIL1IL2) == com.a + buf[SessEncapE]
    ensures setup.version <= 0x11 ==>
              && Assembled(setup, com, buf, MutM1M2) == buf[MutB] + buf[MutC]
              && Assembled(setup, com, buf, L1L2) == buf[M] && Assembled(setup, com, buf, SessL1L2) == buf[SessM]
    ensures setup.version >= 0x12 ==>
              && Assembled(setup, com, buf, MutM1M2) == com.a + (buf[MutB] + buf[MutC])
              && Assembled(setup, com, buf, L1L2) == com.a + buf[M]
              && Assembled(setup, com, buf, SessL1L2) == com.a + buf[SessM]
  {
    assert forall m: Message :: buf[m] + [] == buf[m] && [] + buf[m] == buf[m];
    assert [] + (buf[MutB] + buf[MutC]) == buf[MutB] + buf[MutC];
  }

  // The TH transcripts.

  function Prelude(setup: Setup, com: Common): (r: Bytes)
  {
    com.a + if setup.usePsk then [] else (if setup.multiKeyRsp then com.d else []) + com.ct
  }

  function MutualPart(setup: Setup, com: Common): (r: Bytes)
  {
    if setup.usePsk || com.cm.None? then []
    else (if setup.multiKeyReq then com.encapD else []) + com.cm.value
  }

  function ExchangeTh(setup: Setup, com: Common, buf: Buffers): (r: Bytes)
  {
    Prelude(setup, com) + buf[K]
  }

  /** A, D, Ct, K, EncapD, Cm, F: the documented order, assembled on its own. */
  function FinishTh(setup: Setup, com: Common, buf: Buffers): (r: Bytes)
  {
    var certs := !setup.usePsk;
    var mutual := certs && com.cm.Some?;
    com.a
    + (if certs && setup.multiKeyRsp then com.d else [])
    + (if certs then com.ct else [])
    + buf[K]
    + (if mutual && setup.multiKeyReq then com.encapD else [])
    + (if mutual then com.cm.value else [])
    + buf[F]
  }

  lemma SplitAt(a: Bytes, b: Bytes, a': Bytes, b': Bytes)
    requires a + b == a' + b' && |a| == |a'|
    ensures a == a' && b == b'
  {
    assert a == (a + b)[..|a|] && b == (a + b)[|a|..];
  }

  lemma JoinThree(x: Bytes, y: Bytes, z: Bytes)
    ensures x + y + z == x + (y + z)
  {
  }

  lemma Regroup(a: Bytes, d: Bytes, c: Bytes, k: Bytes, e: Bytes, m: Bytes, f: Bytes)
    ensures a + d + c + k + e + m + f == a + (d + c) + k + (e + m) + f
  {
    JoinThree(a, d, c);
    JoinThree(a + (d + c) + k, e, m);
  }

  /**
   The two assemblies agree: what the exchange transcript holds is a prefix of what the finish
   transcript holds, and the rest is exactly the encapsulated DIGESTS (multi-key Requester) and the
   hash of the mutual chain when mutual authentication was requested, then F.
   */
  lemma FinishExtendsExchange(setup: Setup, com: Common, buf: Buffers)
    ensures FinishTh(setup, com, buf) == ExchangeTh(setup, com, buf) + MutualPart(setup, com) + buf[F]
    ensures ExchangeTh(setup, com, buf) <= FinishTh(setup, com, buf)
    ensures FinishTh(setup, com, buf)[|ExchangeTh(setup, com, buf)|..] == MutualPart(setup, com) + buf[F]
  {
    var certs := !setup.usePsk;
    var d, c := if certs && setup.multiKeyRsp then com.d else [], if certs then com.ct else [];
    var mutual := certs && com.cm.Some?;
    var e, m := if mutual && setup.multiKeyReq then com.encapD else [], if mutual then com.cm.value else [];
    assert Prelude(setup, com) == com.a + (d + c);
    assert MutualPart(setup, com) == e + m;
    Regroup(com.a, d, c, buf[K], e, m, buf[F]);
    JoinThree(ExchangeTh(setup, com, buf), MutualPart(setup, com), buf[F]);
  }

  /** Two sessions whose components have pairwise equal lengths. */
  predicate SameShape(setup: Setup, x: Common, buf: Buffers, y: Common, buf': Buffers)
  {
    && |x.a| == |y.a| && |buf[K]| == |buf'[K]| && |buf[F]| == |buf'[F]|
    && (setup.multiKeyRsp ==> |x.d| == |y.d|) && |x.ct| == |y.ct|
    && (setup.multiKeyReq ==> |x.encapD| == |y.encapD|)
    && (x.cm.Some? <==> y.cm.Some?) && (x.cm.Some? ==> |x.cm.value| == |y.cm.value|)
  }

  /** Given equal component lengths, the finish transcript determines every component it covers. */
  lemma FinishDeterminesComponents(setup: Setup, x: Common, buf: Buffers, y: Common,
                                   buf': Buffers)
    requires SameShape(setup, x, buf, y, buf')
    requires FinishTh(setup, x, buf) == FinishTh(setup, y, buf')
    ensures x.a == y.a && buf[K] == buf'[K] && buf[F] == buf'[F]
    ensures !setup.usePsk ==> x.ct == y.ct && (setup.multiKeyRsp ==> x.d == y.d)
    ensures !setup.usePsk && x.cm.Some? ==>
              x.cm == y.cm && (setup.multiKeyReq ==> x.encapD == y.encapD)
  {
    FinishExtendsExchange(setup, x, buf);
    FinishExtendsExchange(setup, y, buf');
    var p, p' := Prelude(setup, x), Prelude(setup, y);
    var m, m' := MutualPart(setup, x), MutualPart(setup, y);
    SplitAt(p + buf[K] + m, buf[F], p' + buf'[K] + m', buf'[F]);
    SplitAt(p + buf[K], m, p' + buf'[K], m');
    SplitAt(p, buf[K], p', buf'[K]);
    if setup.usePsk {
      assert x.a + [] == x.a && y.a + [] == y.a;
    } else {
      var d, d' := if setup.multiKeyRsp then x.d else [], if setup.multiKeyRsp then y.d else [];
      SplitAt(x.a, d + x.ct, y.a, d' + y.ct);
      SplitAt(d, x.ct, d', y.ct);
      if x.cm.Some? {
        var e := if setup.multiKeyReq then x.encapD else [];
        var e' := if setup.multiKeyReq then y.encapD else [];
        SplitAt(e, x.cm.value, e', y.cm.value);
      }
    }
  }

  lemma MovedByte(p: Bytes, k: Bytes, f: Bytes, x: Byte)
    ensures p + (k + [x]) + [] + f == p + k + [] + ([x] + f)
  {
  }

  /** Lengths matter: moving a byte from K to F leaves the finish transcript unchanged. */
  lemma FinishAloneDeterminesNothing(setup: Setup, com: Common, buf: Buffers, x: Byte)
    requires MutualPart(setup, com) == []
    ensures FinishTh(setup, com, buf[K := buf[K] + [x]])
         == FinishTh(setup, com, buf[F := [x] + buf[F]])
  {
    FinishExtendsExchange(setup, com, buf[K := buf[K] + [x]]);
    FinishExtendsExchange(setup, com, buf[F := [x] + buf[F]]);
    MovedByte(Prelude(setup, com), buf[K], buf[F], x);
  }

  // Capacities, from the build configuration.

  datatype Limits = Limits(hash: nat, certChain: nat, measurementRecord: nat, endpointInfo: nat,
                           reqExchange: nat, rspExchange: nat, reqSignature: nat, rspSignature: nat)

  const VCA_SIZE := 300
  const NONCE_SIZE := 32
  const OPAQUE_SIZE := 1024

  function DigestsSize(lim: Limits): (r: nat)
  {
    4 + (lim.hash + 4) * SLOT_COUNT
  }

  function Capacity(lim: Limits, m: Message): (r: nat)
  {
    match m
    case B => 40 + (lim.hash + 4) * SLOT_COUNT + lim.certChain
    case MutB => 40 + (lim.hash + 4) * SLOT_COUNT + lim.certChain
    case C => 90 + lim.hash * 2 + lim.rspSignature + OPAQUE_SIZE
    case MutC => 90 + lim.hash * 2 + lim.rspSignature + OPAQUE_SIZE
    case M => 63 + NONCE_SIZE + lim.measurementRecord + lim.rspSignature + OPAQUE_SIZE
    case SessM => 63 + NONCE_SIZE + lim.measurementRecord + lim.rspSignature + OPAQUE_SIZE
    case K => 84 + lim.reqExchange + lim.rspExchange + lim.hash * 2 + lim.rspSignature
              + OPAQUE_SIZE * 2
    case F => 12 + lim.hash * 2 + lim.reqSignature + OPAQUE_SIZE * 2
    case _ => 20 + NONCE_SIZE * 2 + lim.endpointInfo + lim.rspSignature
  }

  /** The declared size of the buffer a channel's transcript is assembled in. */
  function AssemblySize(lim: Limits, ch: Channel): (r: nat)
  {
    VCA_SIZE + Capacity(lim, First(ch)) + if HasTwo(ch) then Capacity(lim, Second(ch)) else 0
  }

  function ThSize(lim: Limits): (r: nat)
  {
    VCA_SIZE + DigestsSize(lim) + lim.hash + Capacity(lim, K) + DigestsSize(lim) + lim.hash
    + Capacity(lim, F)
  }

  /** Every component is within its own buffer. */
  predicate Bounded(lim: Limits, com: Common, buf: Buffers)
  {
    && |com.a| <= VCA_SIZE && |com.d| <= DigestsSize(lim) && |com.encapD| <= DigestsSize(lim)
    && |com.ct| <= lim.hash && (com.cm.Some? ==> |com.cm.value| <= lim.hash)
    && forall m: Message :: |buf[m]| <= Capacity(lim, m)
  }

  lemma StoreKeepsBounded(lim: Limits, com: Common, buf: Buffers, kind: Message, m: Bytes)
    requires Bounded(lim, com, buf) && |m| <= Capacity(lim, kind)
    ensures Bounded(lim, com, buf[kind := m])
  {
  }

  /** If every component is within its buffer, every assembled transcript fits its buffer. */
  lemma AssembliesFit(lim: Limits, setup: Setup, com: Common, buf: Buffers)
    requires Bounded(lim, com, buf)
    ensures forall ch: Channel :: |Assembled(setup, com, buf, ch)| <= AssemblySize(lim, ch)
    ensures |ExchangeTh(setup, com, buf)| <= |FinishTh(setup, com, buf)| <= ThSize(lim)
  {
    forall ch: Channel
      ensures |Assembled(setup, com, buf, ch)| <= AssemblySize(lim, ch)
    {
      assert |buf[First(ch)]| <= Capacity(lim, First(ch));
      if HasTwo(ch) { assert |buf[Second(ch)]| <= Capacity(lim, Second(ch)); }
    }
    FinishExtendsExchange(setup, com, buf);
    assert |buf[K]| <= Capacity(lim, K) && |buf[F]| <= Capacity(lim, F);
  }
}
