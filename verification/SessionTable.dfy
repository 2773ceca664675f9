/**
 The session table, on values: a fixed array of slots used as an allocator keyed by session ID,
 with two cached counters and the cached ID of the session assigned last.
 */
module SessionTable {
  import opened Codec
  import opened Transcript
  import opened Digests

  const INVALID_SESSION_ID := 0
  const ENCRYPT_CAP: bv32 := 0x40
  const MAC_CAP: bv32 := 0x80
  const HANDSHAKE_IN_THE_CLEAR_CAP: bv32 := 0x8000
  const SECURED_VERSION_12 := 0x12
  const LITTLE_ENDIAN := 0

  datatype EncapFlow = NoFlow | BasicMutAuth | SessMutAuth | General

  datatype EncapContext = EncapContext(requestId: nat, reqSlotId: nat, mutAuthReqSlotId: nat,
                                       certChainTotalLen: nat, useLargeCertChain: bool, flow: EncapFlow)

  const ZeroEncap := EncapContext(0, 0, 0, 0, false, NoFlow)

  datatype SessionType = TypeNone | MacOnly | EncMac | TypeMax

  datatype Algorithms = Algorithms(baseHash: nat, dheGroup: nat, kem: nat, aead: nat, keySchedule: nat)

  /** The secured message context a slot points to. */
  datatype Secured = Secured(usePsk: bool, sessionType: SessionType, sequenceEndian: nat,
                             maxSequence: nat, version: nat, securedVersion: nat,
                             algorithms: Algorithms, state: nat, secrets: Bytes, pskHint: Bytes)

  const ZeroSecured := Secured(false, TypeNone, 0, 0, 0, 0, Algorithms(0, 0, 0, 0, 0), 0, [], [])

  datatype Buffer = Buffer(max: nat, bytes: Bytes)

  /** The transcripts of a session: buffers in the recorded build, contexts in the running one. */
  datatype SlotTranscript = SlotTranscript(
    encapD: Buffer, encapDClosed: bool,
    k: Buffer, f: Buffer, m: Buffer, e: Buffer, encapE: Buffer,
    fInit: bool, th: Option<Handle>, l1l2: Option<Handle>, il1il2: Option<Handle>,
    encapIl1il2: Option<Handle>, thBackup: Option<Handle>)

  const ZeroBuffer := Buffer(0, [])
  const ZeroTranscript := SlotTranscript(ZeroBuffer, false, ZeroBuffer, ZeroBuffer, ZeroBuffer, ZeroBuffer,
                                         ZeroBuffer, false, None, None, None, None, None)

  /** A slot in declaration order; the fields after secured are not covered by the bulk zeroing. */
  datatype Slot = Slot(sessionId: nat, usePsk: bool, mutAuthRequested: nat, endSessionAttributes: nat,
                       sessionPolicy: nat, heartbeatPeriod: nat, transcript: SlotTranscript,
                       lastKeyUpdate: nat, securedRef: nat, secured: Secured,
                       localSlot: nat, peerSlot: nat, encap: EncapContext)

  /** What the rest of the context contributes to a new session. */
  datatype Config = Config(connFlags: bv32, localFlags: bv32, sequenceEndian: nat, maxSequence: nat,
                           version: nat, algorithms: Algorithms, lim: Limits, recorded: bool)

  /** By capability flags; encryption without authentication has no session type. */
  function TypeOf(cfg: Config): (r: SessionType)
  {
    var caps := cfg.connFlags & cfg.localFlags & (ENCRYPT_CAP | MAC_CAP);
    if caps == 0 then TypeNone
    else if caps == ENCRYPT_CAP | MAC_CAP then EncMac
    else if caps == MAC_CAP then MacOnly
    else TypeMax
  }

  /** The state of a slot after initialisation: it does not depend on what the slot held. */
  function FreshSlot(cfg: Config, securedRef: nat, id: nat, securedVersion: nat, usePsk: bool): (r: Slot)
  {
    var buffer := (m: Message) => if cfg.recorded then Buffer(Capacity(cfg.lim, m), []) else ZeroBuffer;
    Slot(id, usePsk, 0, 0, 0, 0,
         SlotTranscript(Buffer(DigestsSize(cfg.lim), []), false,
                        buffer(K), buffer(F), buffer(SessM), buffer(SessE), buffer(SessEncapE),
                        false, None, None, None, None, None),
         0, securedRef,
         Secured(usePsk, TypeOf(cfg),
                 if securedVersion / 256 >= SECURED_VERSION_12 then LITTLE_ENDIAN else cfg.sequenceEndian,
                 cfg.maxSequence, cfg.version, securedVersion, cfg.algorithms, 0, [], []),
         0, 0, ZeroEncap)
  }

  /**
   What kind of secured session the two endpoints' capabilities give: bit 6 is encryption, bit 7
   authentication, and both sides must have the bit.
   */
  lemma SessionTypes(cfg: Config)
    ensures var encrypts := cfg.connFlags & 0x40 != 0 && cfg.localFlags & 0x40 != 0;
            var authenticates := cfg.connFlags & 0x80 != 0 && cfg.localFlags & 0x80 != 0;
            TypeOf(cfg) == if encrypts && authenticates then EncMac
                           else if authenticates then MacOnly
                           else if encrypts then TypeMax else TypeNone
  {
    var a, b := cfg.connFlags, cfg.localFlags;
    assert a & b & 0x40 != 0 <==> a & 0x40 != 0 && b & 0x40 != 0;
    assert a & b & 0x80 != 0 <==> a & 0x80 != 0 && b & 0x80 != 0;
    assert a & b & 0xC0 == (a & b & 0x40) | (a & b & 0x80);
  }

  /** A new slot: sequence numbers are little-endian from secured-message version 1.2 on. */
  lemma NewSlot(cfg: Config, securedRef: nat, id: nat, securedVersion: nat, usePsk: bool)
    ensures var s := FreshSlot(cfg, securedRef, id, securedVersion, usePsk);
            && s.sessionId == id && s.usePsk == usePsk && s.secured.usePsk == usePsk && s.securedRef == securedRef
            && s.secured.sessionType == TypeOf(cfg) && s.secured.securedVersion == securedVersion
            && (securedVersion >= 0x1200 ==> s.secured.sequenceEndian == LITTLE_ENDIAN)
            && (securedVersion < 0x1200 ==> s.secured.sequenceEndian == cfg.sequenceEndian)
            && s.secured.secrets == [] && s.secured.pskHint == [] && s.transcript.th == None
            && s.transcript.thBackup == None && s.transcript.k.bytes == [] && s.transcript.f.bytes == []
            && s.encap.flow == NoFlow && s.mutAuthRequested == 0 && s.localSlot == 0 && s.peerSlot == 0
            && s.secured.version == cfg.version && s.secured.algorithms == cfg.algorithms
            && s.secured.maxSequence == cfg.maxSequence && s.transcript.encapD == Buffer(DigestsSize(cfg.lim), [])
            && (cfg.recorded ==>
                  && s.transcript.k.max == Capacity(cfg.lim, K) && s.transcript.f.max == Capacity(cfg.lim, F)
                  && s.transcript.m.max == Capacity(cfg.lim, M) && s.transcript.e.max == Capacity(cfg.lim, E)
                  && s.transcript.encapE.max == Capacity(cfg.lim, EncapE))
  {
  }

  // The table.

  datatype Table = Table(slots: seq<Slot>, psk: nat, dhe: nat, latest: nat)

  predicate Live(s: Slot)
  {
    s.sessionId != INVALID_SESSION_ID
  }

  /** The first slot with the given ID. */
  function IndexOf(slots: seq<Slot>, id: nat): (r: Option<nat>)
    ensures r.Some? ==> r.value < |slots| && slots[r.value].sessionId == id
    ensures r.Some? ==> forall j :: 0 <= j < r.value ==> slots[j].sessionId != id
    ensures r.None? <==> forall j :: 0 <= j < |slots| ==> slots[j].sessionId != id
  {
    if slots == [] then None
    else if slots[0].sessionId == id then Some(0)
    else
      var rest := IndexOf(slots[1..], id);
      assert forall j :: 1 <= j < |slots| ==> slots[j] == slots[1..][j - 1];
      if rest.None? then None else Some(rest.value + 1)
  }

  function Lookup(slots: seq<Slot>, id: nat): (r: Option<nat>)
  {
    if id == INVALID_SESSION_ID then None else IndexOf(slots, id)
  }

  /** Counters are 32-bit; the decrement is guarded. */
  function Incremented(n: nat): (r: nat)
  {
    (n + 1) % 0x1_0000_0000
  }

  function Decremented(n: nat): (r: nat)
  {
    if n > 0 then n - 1 else 0
  }

  function Assign(cfg: Config, t: Table, id: nat, securedVersion: nat, usePsk: bool): (r: (Table, Option<nat>))
  {
    var free := IndexOf(t.slots, INVALID_SESSION_ID);
    if id == INVALID_SESSION_ID || IndexOf(t.slots, id).Some? || free.None? then (t, None)
    else
      (Table(t.slots[free.value := FreshSlot(cfg, t.slots[free.value].securedRef, id, securedVersion, usePsk)],
             if usePsk then Incremented(t.psk) else t.psk,
             if usePsk then t.dhe else Incremented(t.dhe),
             id),
       free)
  }

  function Free(cfg: Config, t: Table, id: nat): (r: Table)
  {
    if id == INVALID_SESSION_ID then t
    else
      var latest := if t.latest == id then INVALID_SESSION_ID else t.latest;
      var i := IndexOf(t.slots, id);
      if i.None? then t.(latest := latest)
      else
        var s := t.slots[i.value];
        Table(t.slots[i.value := FreshSlot(cfg, s.securedRef, INVALID_SESSION_ID, 0, s.usePsk)],
              if s.usePsk then Decremented(t.psk) else t.psk,
              if s.usePsk then t.dhe else Decremented(t.dhe),
              latest)
  }

  // What every run keeps.

  /** Every slot is blanked when the context is reset. */
  function Clear(cfg: Config, t: Table): (r: Table)
  {
    Table(seq(|t.slots|, i requires 0 <= i < |t.slots| =>
                FreshSlot(cfg, t.slots[i].securedRef, INVALID_SESSION_ID, 0, false)),
          0, 0, INVALID_SESSION_ID)
  }

  predicate Counted(s: Slot, usePsk: bool)
  {
    Live(s) && s.usePsk == usePsk
  }

  function Count(slots: seq<Slot>, usePsk: bool): (n: nat)
  {
    if slots == [] then 0 else (if Counted(slots[0], usePsk) then 1 else 0) + Count(slots[1..], usePsk)
  }

  predicate UniqueIds(slots: seq<Slot>)
  {
    forall i, j :: 0 <= i < j < |slots| && Live(slots[i]) ==> slots[i].sessionId != slots[j].sessionId
  }

  /** Live IDs are unique, the counters are exact, and the latest session is live or none. */
  ghost predicate Consistent(t: Table)
  {
    && |t.slots| < 0x1_0000_0000
    && UniqueIds(t.slots)
    && t.psk == Count(t.slots, true) && t.dhe == Count(t.slots, false)
    && (t.latest == INVALID_SESSION_ID || Lookup(t.slots, t.latest).Some?)
  }

  lemma {:induction false} CountsFit(slots: seq<Slot>)
    ensures Count(slots, true) + Count(slots, false) <= |slots|
    ensures (exists i :: 0 <= i < |slots| && !Live(slots[i])) ==>
              Count(slots, true) + Count(slots, false) < |slots|
  {
    if slots != [] {
      CountsFit(slots[1..]);
      if Live(slots[0]) && exists i :: 0 <= i < |slots| && !Live(slots[i]) {
        var i :| 0 <= i < |slots| && !Live(slots[i]);
        assert !Live(slots[1..][i - 1]);
      }
    }
  }

  /** Replacing one slot changes a counter by that slot alone. */
  lemma {:induction false} CountAfterReplace(slots: seq<Slot>, i: nat, s: Slot, usePsk: bool)
    requires i < |slots|
    ensures Count(slots[i := s], usePsk) + (if Counted(slots[i], usePsk) then 1 else 0)
         == Count(slots, usePsk) + (if Counted(s, usePsk) then 1 else 0)
  {
    if i == 0 {
      assert slots[i := s][1..] == slots[1..];
    } else {
      CountAfterReplace(slots[1..], i - 1, s, usePsk);
      assert slots[i := s][1..] == slots[1..][i - 1 := s];
    }
  }

  lemma LookupIsTheSlot(slots: seq<Slot>, i: nat)
    requires UniqueIds(slots) && i < |slots| && Live(slots[i])
    ensures Lookup(slots, slots[i].sessionId) == Some(i)
  {
  }

  lemma LookupAfterReplace(slots: seq<Slot>, i: nat, s: Slot, id: nat)
    requires i < |slots| && UniqueIds(slots)
    requires s.sessionId == slots[i].sessionId || !Live(s) || !Live(slots[i])
    requires Live(s) && !Live(slots[i]) ==> IndexOf(slots, s.sessionId).None?
    ensures UniqueIds(slots[i := s])
    ensures Lookup(slots[i := s], id)
         == if id == INVALID_SESSION_ID then None
            else if id == s.sessionId then Some(i)
            else if id == slots[i].sessionId then None
            else Lookup(slots, id)
  {
    var slots' := slots[i := s];
    assert UniqueIds(slots');
    if id != INVALID_SESSION_ID {
      var r := IndexOf(slots', id);
      if id == s.sessionId {
        LookupIsTheSlot(slots', i);
      } else if IndexOf(slots, id).Some? {
        var k := IndexOf(slots, id).value;
        if k != i {
          assert slots'[k].sessionId == id;
          LookupIsTheSlot(slots', k);
        }
      }
    }
  }

  /** Filling a free slot moves exactly one counter, and not past its width. */
  lemma FillCounts(slots: seq<Slot>, i: nat, s: Slot)
    requires |slots| < 0x1_0000_0000 && i < |slots| && !Live(slots[i]) && Live(s)
    ensures forall psk :: Count(slots[i := s], psk)
                       == if psk == s.usePsk then Incremented(Count(slots, psk)) else Count(slots, psk)
  {
    CountsFit(slots);
    CountAfterReplace(slots, i, s, true);
    CountAfterReplace(slots, i, s, false);
  }

  /**
   Assigning succeeds exactly when the ID is valid and absent and a slot is free.  It then adds
   exactly that ID, in a slot whose state owes nothing to its previous owner; otherwise nothing
   changes.
   */
  lemma AssignRefinesMap(cfg: Config, t: Table, id: nat, securedVersion: nat, usePsk: bool)
    requires Consistent(t)
    ensures var (t', r) := Assign(cfg, t, id, securedVersion, usePsk);
            && Consistent(t') && |t'.slots| == |t.slots|
            && (r.Some? <==> && id != INVALID_SESSION_ID && Lookup(t.slots, id).None?
                             && exists i :: 0 <= i < |t.slots| && !Live(t.slots[i]))
            && (r.None? ==> t' == t)
            && (r.Some? ==>
                  && r.value < |t.slots| && !Live(t.slots[r.value]) && t'.latest == id
                  && t'.slots[r.value] == FreshSlot(cfg, t.slots[r.value].securedRef, id, securedVersion, usePsk)
                  && (forall j :: 0 <= j < |t.slots| && j != r.value ==> t'.slots[j] == t.slots[j])
                  && (forall x :: Lookup(t'.slots, x) == if x == id then r else Lookup(t.slots, x)))
  {
    var (t', r) := Assign(cfg, t, id, securedVersion, usePsk);
    if r.Some? {
      var i := r.value;
      var s := FreshSlot(cfg, t.slots[i].securedRef, id, securedVersion, usePsk);
      FillCounts(t.slots, i, s);
      forall x
        ensures Lookup(t'.slots, x) == if x == id then r else Lookup(t.slots, x)
      {
        LookupAfterReplace(t.slots, i, s, x);
      }
      LookupAfterReplace(t.slots, i, s, id);
    }
  }

  /**
   Freeing removes exactly the given ID and leaves its slot blank; an unknown or invalid ID
   changes nothing.  The guarded decrement always finds a positive counter.
   */
  lemma FreeRefinesMap(cfg: Config, t: Table, id: nat)
    requires Consistent(t)
    ensures var t' := Free(cfg, t, id);
            && Consistent(t') && |t'.slots| == |t.slots|
            && (Lookup(t.slots, id).None? ==> t' == t)
            && (Lookup(t.slots, id).Some? ==>
                  var i := Lookup(t.slots, id).value;
                  && i < |t.slots| && !Live(t'.slots[i])
                  && (if t.slots[i].usePsk then t.psk > 0 && t'.psk == t.psk - 1 && t'.dhe == t.dhe
                      else t.dhe > 0 && t'.dhe == t.dhe - 1 && t'.psk == t.psk)
                  && (forall j :: 0 <= j < |t.slots| && j != i ==> t'.slots[j] == t.slots[j])
                  && (forall x :: Lookup(t'.slots, x) == if x == id then None else Lookup(t.slots, x)))
  {
    var t', found := Free(cfg, t, id), Lookup(t.slots, id);
    if found.Some? {
      var i := found.value;
      var s := FreshSlot(cfg, t.slots[i].securedRef, INVALID_SESSION_ID, 0, t.slots[i].usePsk);
      CountAfterReplace(t.slots, i, s, true);
      CountAfterReplace(t.slots, i, s, false);
      forall x
        ensures Lookup(t'.slots, x) == if x == id then None else Lookup(t.slots, x)
      {
        LookupAfterReplace(t.slots, i, s, x);
      }
      LookupAfterReplace(t.slots, i, s, id);
    }
  }

  /** The next owner of a slot cannot tell what the previous one left in it. */
  lemma NoResidue(cfg: Config, t: Table, u: Table, id: nat, securedVersion: nat, usePsk: bool)
    requires |t.slots| == |u.slots|
    requires forall i :: 0 <= i < |t.slots| ==>
               t.slots[i].sessionId == u.slots[i].sessionId && t.slots[i].securedRef == u.slots[i].securedRef
    ensures var (t', r) := Assign(cfg, t, id, securedVersion, usePsk);
            var (u', q) := Assign(cfg, u, id, securedVersion, usePsk);
            r == q && (r.Some? ==> r.value < |t.slots| && t'.slots[r.value] == u'.slots[r.value])
  {
    SameIndex(t.slots, u.slots, id);
    SameIndex(t.slots, u.slots, INVALID_SESSION_ID);
  }

  lemma SameIndex(xs: seq<Slot>, ys: seq<Slot>, id: nat)
    requires |xs| == |ys| && forall i :: 0 <= i < |xs| ==> xs[i].sessionId == ys[i].sessionId
    ensures IndexOf(xs, id) == IndexOf(ys, id)
  {
  }

  // Runs: sessions come and go, and the rest of the library works inside live slots.

  datatype Event =
    | Assigned(id: nat, securedVersion: nat, usePsk: bool)
    | Freed(id: nat)
    | ContextReset
    | Worked(index: nat, slot: Slot)

  /** Work inside a slot never changes whose slot it is. */
  function Step(cfg: Config, t: Table, e: Event): (t': Table)
  {
    match e
    case Assigned(id, securedVersion, usePsk) => Assign(cfg, t, id, securedVersion, usePsk).0
    case Freed(id) => Free(cfg, t, id)
    case ContextReset => Clear(cfg, t)
    case Worked(i, slot) =>
      if i < |t.slots| && slot.sessionId == t.slots[i].sessionId && slot.usePsk == t.slots[i].usePsk
         && slot.securedRef == t.slots[i].securedRef
      then t.(slots := t.slots[i := slot]) else t
  }

  function Run(cfg: Config, t: Table, es: seq<Event>): (t': Table)
    decreases |es|
  {
    if es == [] then t else Run(cfg, Step(cfg, t, es[0]), es[1..])
  }

  predicate Empty(t: Table)
  {
    t.psk == 0 && t.dhe == 0 && t.latest == INVALID_SESSION_ID
    && |t.slots| < 0x1_0000_0000 && forall i :: 0 <= i < |t.slots| ==> !Live(t.slots[i])
  }

  lemma {:induction false} EmptyCountsNothing(slots: seq<Slot>, usePsk: bool)
    requires forall i :: 0 <= i < |slots| ==> !Live(slots[i])
    ensures Count(slots, usePsk) == 0
  {
    if slots != [] {
      EmptyCountsNothing(slots[1..], usePsk);
    }
  }

  lemma StepKeepsConsistent(cfg: Config, t: Table, e: Event)
    requires Consistent(t)
    ensures Consistent(Step(cfg, t, e)) && |Step(cfg, t, e).slots| == |t.slots|
  {
    match e
    case Assigned(id, securedVersion, usePsk) => AssignRefinesMap(cfg, t, id, securedVersion, usePsk);
    case Freed(id) => FreeRefinesMap(cfg, t, id);
    case ContextReset =>
      EmptyCountsNothing(Clear(cfg, t).slots, true);
      EmptyCountsNothing(Clear(cfg, t).slots, false);
    case Worked(i, slot) =>
      if i < |t.slots| && slot.sessionId == t.slots[i].sessionId && slot.usePsk == t.slots[i].usePsk {
        CountAfterReplace(t.slots, i, slot, true);
        CountAfterReplace(t.slots, i, slot, false);
        LookupAfterReplace(t.slots, i, slot, t.latest);
      }
  }

  /**
   Over every run from an empty table, live IDs are unique, both counters are exact, together
   they never exceed the number of slots, and the latest session is live or none.
   */
  lemma {:induction false} RunsStayConsistent(cfg: Config, t: Table, es: seq<Event>)
    requires Consistent(t) || Empty(t)
    ensures var t' := Run(cfg, t, es);
            && Consistent(t') && |t'.slots| == |t.slots|
            && t'.psk + t'.dhe <= |t'.slots|
    decreases |es|
  {
    if Empty(t) {
      EmptyCountsNothing(t.slots, true);
      EmptyCountsNothing(t.slots, false);
    }
    if es == [] {
      CountsFit(t.slots);
    } else {
      StepKeepsConsistent(cfg, t, es[0]);
      RunsStayConsistent(cfg, Step(cfg, t, es[0]), es[1..]);
    }
  }

  /** A limit of zero is no limit. */
  predicate WithinLimits(t: Table, maxPsk: nat, maxDhe: nat)
  {
    (maxPsk == 0 || t.psk <= maxPsk) && (maxDhe == 0 || t.dhe <= maxDhe)
  }

  /** What the assertions in initialisation demand of whoever assigns a session. */
  predicate Respects(t: Table, e: Event, maxPsk: nat, maxDhe: nat)
  {
    e.Assigned? ==> if e.usePsk then maxPsk == 0 || t.psk < maxPsk else maxDhe == 0 || t.dhe < maxDhe
  }

  predicate RespectsAll(cfg: Config, t: Table, es: seq<Event>, maxPsk: nat, maxDhe: nat)
    decreases |es|
  {
    es == [] || (Respects(t, es[0], maxPsk, maxDhe)
                 && RespectsAll(cfg, Step(cfg, t, es[0]), es[1..], maxPsk, maxDhe))
  }

  lemma StepWithinLimits(cfg: Config, t: Table, e: Event, maxPsk: nat, maxDhe: nat)
    requires Consistent(t) && WithinLimits(t, maxPsk, maxDhe) && Respects(t, e, maxPsk, maxDhe)
    ensures WithinLimits(Step(cfg, t, e), maxPsk, maxDhe)
  {
    if e.Freed? {
      FreeRefinesMap(cfg, t, e.id);
    } else if e.Assigned? {
      CountsFit(t.slots);
    }
  }

  lemma {:induction false} LimitsHoldOverRuns(cfg: Config, t: Table, es: seq<Event>, maxPsk: nat, maxDhe: nat)
    requires Consistent(t) && WithinLimits(t, maxPsk, maxDhe) && RespectsAll(cfg, t, es, maxPsk, maxDhe)
    ensures WithinLimits(Run(cfg, t, es), maxPsk, maxDhe)
    decreases |es|
  {
    if es != [] {
      StepWithinLimits(cfg, t, es[0], maxPsk, maxDhe);
      StepKeepsConsistent(cfg, t, es[0]);
      LimitsHoldOverRuns(cfg, Step(cfg, t, es[0]), es[1..], maxPsk, maxDhe);
    }
  }

  // Which encapsulated context a channel resolves to.

  datatype EncapRef = OfConnection | OfSession(index: nat)

  predicate HandshakeInTheClear(cfg: Config)
  {
    cfg.connFlags & HANDSHAKE_IN_THE_CLEAR_CAP != 0 && cfg.localFlags & HANDSHAKE_IN_THE_CLEAR_CAP != 0
  }

  /** The session that the flow on the current channel belongs to. */
  function EncapSession(cfg: Config, t: Table, lastRequest: Option<nat>): (r: Option<nat>)
  {
    if lastRequest.Some? then lastRequest
    else if t.latest != INVALID_SESSION_ID && HandshakeInTheClear(cfg) then
      var i := Lookup(t.slots, t.latest);
      if i.Some? && t.slots[i.value].encap.flow == SessMutAuth then Some(t.latest) else None
    else None
  }

  function EncapOf(t: Table, session: Option<nat>): (r: Option<EncapRef>)
  {
    if session.None? then Some(OfConnection)
    else
      var i := Lookup(t.slots, session.value);
      if i.None? then None else Some(OfSession(i.value))
  }

  /**
   Which encapsulated context the current request belongs to, as an if and only if for each of them:
   inside a session that session's; outside, the latest session's while both sides allow the handshake
   in the clear (bit 15) and that session is in its mutual authentication flow, and otherwise the
   connection's.  Only a request in an unknown session has none.
   */
  lemma EncapResolves(cfg: Config, t: Table, lastRequest: Option<nat>)
    requires Consistent(t)
    ensures var r := EncapOf(t, EncapSession(cfg, t, lastRequest));
            && (lastRequest.None? ==>
                  && (forall i: nat :: r == Some(OfSession(i))
                        <==> (&& i < |t.slots| && t.slots[i].sessionId == t.latest != 0
                              && t.slots[i].encap.flow == SessMutAuth
                              && cfg.connFlags & 0x8000 != 0 && cfg.localFlags & 0x8000 != 0))
                  && r.Some?)
            && (lastRequest.Some? ==>
                  && (forall i: nat :: r == Some(OfSession(i))
                        <==> i < |t.slots| && t.slots[i].sessionId == lastRequest.value != 0)
                  && r != Some(OfConnection))
  {
    forall i: nat | i < |t.slots| && Live(t.slots[i])
      ensures Lookup(t.slots, t.slots[i].sessionId) == Some(i)
    {
      LookupIsTheSlot(t.slots, i);
    }
  }

  /** Once the latest session is freed, traffic outside a session is back on the connection. */
  lemma FreedSessionIsNotResolved(cfg: Config, t: Table, id: nat)
    requires Consistent(t)
    ensures var t' := Free(cfg, t, id);
            && (t.latest == id ==> EncapOf(t', EncapSession(cfg, t', None)) == Some(OfConnection))
            && (id != INVALID_SESSION_ID ==> EncapOf(t', Some(id)) == None)
  {
    FreeRefinesMap(cfg, t, id);
  }

  /** A freed session stays unresolved over every run that does not assign its ID again. */
  lemma {:induction false} FreedStaysFreed(cfg: Config, t: Table, id: nat, es: seq<Event>)
    requires Consistent(t) && id != INVALID_SESSION_ID && Lookup(t.slots, id).None?
    requires forall e :: e in es && e.Assigned? ==> e.id != id
    ensures var t' := Run(cfg, t, es);
            && Lookup(t'.slots, id).None? && EncapOf(t', Some(id)) == None
            && forall lastRequest :: lastRequest != Some(id) ==>
                 EncapSession(cfg, t', lastRequest) != Some(id)
    decreases |es|
  {
    if es != [] {
      var t1 := Step(cfg, t, es[0]);
      StepKeepsConsistent(cfg, t, es[0]);
      match es[0] {
        case Assigned(x, securedVersion, usePsk) => AssignRefinesMap(cfg, t, x, securedVersion, usePsk);
        case Freed(x) => FreeRefinesMap(cfg, t, x);
        case ContextReset => assert forall i :: 0 <= i < |t1.slots| ==> t1.slots[i].sessionId == INVALID_SESSION_ID;
        case Worked(i, slot) =>
          assert forall j :: 0 <= j < |t.slots| ==> t1.slots[j].sessionId == t.slots[j].sessionId;
      }
      FreedStaysFreed(cfg, t1, id, es[1..]);
    }
  }

  // The table as a bounded map from live IDs to the kind of session.

  function LiveMap(slots: seq<Slot>): (m: map<nat, bool>)
  {
    if slots == [] then map[]
    else
      var rest := LiveMap(slots[1..]);
      if Live(slots[0]) then rest[slots[0].sessionId := slots[0].usePsk] else rest
  }

  /** The map holds exactly the live IDs, each with the kind of the slot a lookup finds. */
  lemma {:induction false} LiveMapIsLookup(slots: seq<Slot>, id: nat)
    requires UniqueIds(slots)
    ensures id in LiveMap(slots) <==> Lookup(slots, id).Some?
    ensures id in LiveMap(slots) ==> LiveMap(slots)[id] == slots[Lookup(slots, id).value].usePsk
  {
    if slots != [] {
      assert UniqueIds(slots[1..]);
      LiveMapIsLookup(slots[1..], id);
    }
  }

  lemma {:induction false} LiveMapSize(slots: seq<Slot>)
    requires UniqueIds(slots)
    ensures |LiveMap(slots)| == Count(slots, true) + Count(slots, false)
  {
    if slots != [] {
      var rest := slots[1..];
      assert UniqueIds(rest);
      LiveMapSize(rest);
      if Live(slots[0]) {
        LiveMapIsLookup(rest, slots[0].sessionId);
        assert forall j :: 0 <= j < |rest| ==> rest[j] == slots[j + 1];
        assert slots[0].sessionId !in LiveMap(rest);
      }
    }
  }

  lemma {:induction false} FullTable(slots: seq<Slot>)
    requires forall i :: 0 <= i < |slots| ==> Live(slots[i])
    ensures Count(slots, true) + Count(slots, false) == |slots|
  {
    if slots != [] {
      FullTable(slots[1..]);
    }
  }

  /** There is room in the table exactly if the map is smaller than the table. */
  lemma RoomInMap(t: Table)
    requires Consistent(t)
    ensures (exists i :: 0 <= i < |t.slots| && !Live(t.slots[i])) <==> |LiveMap(t.slots)| < |t.slots|
  {
    LiveMapSize(t.slots);
    CountsFit(t.slots);
    if forall i :: 0 <= i < |t.slots| ==> Live(t.slots[i]) {
      FullTable(t.slots);
    }
  }

  /** The same events on a map of bounded size. */
  function MapStep(bound: nat, m: map<nat, bool>, e: Event): (m': map<nat, bool>)
  {
    match e
    case Assigned(id, _, usePsk) =>
      if id != INVALID_SESSION_ID && id !in m && |m| < bound then m[id := usePsk] else m
    case Freed(id) => m - {id}
    case ContextReset => map[]
    case Worked(_, _) => m
  }

  function MapRun(bound: nat, m: map<nat, bool>, es: seq<Event>): (m': map<nat, bool>)
    decreases |es|
  {
    if es == [] then m else MapRun(bound, MapStep(bound, m, es[0]), es[1..])
  }

  /** Each event has the effect on the live sessions that it has on the map. */
  lemma StepRefinesMap(cfg: Config, t: Table, e: Event)
    requires Consistent(t)
    ensures LiveMap(Step(cfg, t, e).slots) == MapStep(|t.slots|, LiveMap(t.slots), e)
  {
    var m, m' := MapStep(|t.slots|, LiveMap(t.slots), e), LiveMap(Step(cfg, t, e).slots);
    forall id
      ensures SameAt(m, m', id)
    {
      StepRefinesAt(cfg, t, e, id);
    }
    SameMaps(m, m');
  }

  lemma SameMaps(m: map<nat, bool>, m': map<nat, bool>)
    requires forall id :: SameAt(m, m', id)
    ensures m' == m
  {
    forall id
      ensures (id in m' <==> id in m) && (id in m ==> m'[id] == m[id])
    {
      assert SameAt(m, m', id);
    }
  }

  predicate SameAt(m: map<nat, bool>, m': map<nat, bool>, id: nat)
  {
    (id in m' <==> id in m) && (id in m ==> m'[id] == m[id])
  }

  lemma AssignAt(cfg: Config, t: Table, x: nat, securedVersion: nat, usePsk: bool, id: nat)
    requires Consistent(t)
    ensures SameAt(MapStep(|t.slots|, LiveMap(t.slots), Assigned(x, securedVersion, usePsk)),
                   LiveMap(Assign(cfg, t, x, securedVersion, usePsk).0.slots), id)
  {
    AssignRefinesMap(cfg, t, x, securedVersion, usePsk);
    RoomInMap(t);
    LiveMapIsLookup(t.slots, x);
    LiveMapIsLookup(t.slots, id);
    LiveMapIsLookup(Assign(cfg, t, x, securedVersion, usePsk).0.slots, id);
  }

  lemma FreeAt(cfg: Config, t: Table, x: nat, id: nat)
    requires Consistent(t)
    ensures SameAt(LiveMap(t.slots) - {x}, LiveMap(Free(cfg, t, x).slots), id)
  {
    FreeRefinesMap(cfg, t, x);
    LiveMapIsLookup(t.slots, id);
    LiveMapIsLookup(Free(cfg, t, x).slots, id);
  }

  lemma {:induction false} NobodyLive(slots: seq<Slot>)
    requires forall i :: 0 <= i < |slots| ==> !Live(slots[i])
    ensures LiveMap(slots) == map[]
  {
    if slots != [] {
      NobodyLive(slots[1..]);
    }
  }

  lemma WorkAt(cfg: Config, t: Table, i: nat, slot: Slot, id: nat)
    requires Consistent(t)
    ensures SameAt(LiveMap(t.slots), LiveMap(Step(cfg, t, Worked(i, slot)).slots), id)
  {
    var t' := Step(cfg, t, Worked(i, slot));
    StepKeepsConsistent(cfg, t, Worked(i, slot));
    SameIndex(t'.slots, t.slots, id);
    LiveMapIsLookup(t.slots, id);
    LiveMapIsLookup(t'.slots, id);
  }

  lemma StepRefinesAt(cfg: Config, t: Table, e: Event, id: nat)
    requires Consistent(t)
    ensures SameAt(MapStep(|t.slots|, LiveMap(t.slots), e), LiveMap(Step(cfg, t, e).slots), id)
  {
    match e
    case Assigned(x, securedVersion, usePsk) => AssignAt(cfg, t, x, securedVersion, usePsk, id);
    case Freed(x) => FreeAt(cfg, t, x, id);
    case ContextReset => NobodyLive(Clear(cfg, t).slots);
    case Worked(i, slot) => WorkAt(cfg, t, i, slot, id);
  }

  /** Over every run the live sessions are those of a map of bounded size under the same events. */
  lemma {:induction false} RunsRefineMap(cfg: Config, t: Table, es: seq<Event>)
    requires Consistent(t)
    ensures LiveMap(Run(cfg, t, es).slots) == MapRun(|t.slots|, LiveMap(t.slots), es)
    decreases |es|
  {
    if es != [] {
      StepRefinesMap(cfg, t, es[0]);
      StepKeepsConsistent(cfg, t, es[0]);
      RunsRefineMap(cfg, Step(cfg, t, es[0]), es[1..]);
    }
  }
}
