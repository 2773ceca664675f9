/**
 One step of transcript keeping, on values, in each of the two builds: the recorded form keeps
 every message in a buffer, the running form keeps one digest per transcript and discards the
 messages.
 */
module Steps {
  import opened Codec
  import opened ManagedBuffers
  import opened Transcript

  /** The digest contexts of the running form. */
  datatype Role = Digest(ch: Channel) | Th | ThBackup

  datatype Recorded = Recorded(com: Common, buf: Buffers)

  /** dig holds the bytes absorbed by each context; a NULL context is absent. */
  datatype Running = Running(com: Common, dig: map<Role, Bytes>, fInit: bool)

  datatype Request = GetDigests | GetMeasurements | KeyExchange | Finish | PskExchange | PskFinish
                   | KeyUpdate | Heartbeat | GetEncapsulatedRequest | EndSession
                   | GetMeasurementExtensionLog | DeliverEncapsulatedResponse | GetEndpointInfo
                   | OtherRequest

  datatype Op =
    | AppendA(m: Bytes) | AppendD(m: Bytes) | AppendEncapD(m: Bytes)
    | Append(kind: Message, m: Bytes)
    | ResetA | ResetD | ResetEncapD
    | Reset(kind: Message)
    | RequestCode(request: Request, negotiated: bool, authenticated: bool, inSession: bool)
    | EncapRequestCode(request: Request)
    | SetResponder(ct: Bytes)
    | SetMutual(cm: Option<Bytes>)

  /** How far an append gets before the provider fails; only message F distinguishes stages. */
  datatype Outcome = Done | KFailed | CertFailed | BackupFailed | UpdateFailed

  /** An operation and how it ended in the running form; the recorded form calls no provider. */
  datatype Call = Call(op: Op, outcome: Outcome)

  function OpsOf(run: seq<Call>): (ops: seq<Op>)
    ensures |ops| == |run|
  {
    if run == [] then [] else [run[0].op] + OpsOf(run[1..])
  }

  /** Only the first DIGESTS counts, and only while the window after message A is open. */
  predicate TakesD(com: Common)
  {
    !com.dClosed && com.d == []
  }

  predicate TakesEncapD(com: Common)
  {
    !com.encapDClosed && com.encapD == []
  }

  /** The effect of a step on what both builds keep as plain bytes. */
  function StepCommon(lim: Limits, com: Common, op: Op): (r: Common)
  {
    match op
    case AppendA(m) => com.(a := Appended(com.a, VCA_SIZE, m))
    case AppendD(m) =>
      if TakesD(com) then com.(d := Appended(com.d, DigestsSize(lim), m)) else com
    case AppendEncapD(m) =>
      if TakesEncapD(com) then com.(encapD := Appended(com.encapD, DigestsSize(lim), m)) else com
    case ResetA => com.(a := [])
    case ResetD => com.(d := [], dClosed := false)
    case ResetEncapD => com.(encapD := [], encapDClosed := false)
    case RequestCode(request, negotiated, _, _) =>
      if !request.GetDigests? && negotiated then com.(dClosed := true) else com
    case EncapRequestCode(request) =>
      if !request.GetDigests? && com.encapD == [] then com.(encapDClosed := true) else com
    case SetResponder(ct) => com.(ct := ct)
    case SetMutual(cm) => com.(cm := cm)
    case _ => com
  }

  /** Any request but GET_MEASUREMENTS resets L1/L2. */
  function MeasurementReset(request: Request, inSession: bool): (r: set<Message>)
  {
    if request.GetMeasurements? then {} else if inSession then {SessM} else {M}
  }

  /** The other messages a request resets. */
  function OtherReset(request: Request, authenticated: bool, inSession: bool): (r: set<Message>)
  {
    match request
    case GetDigests => {B}
    case GetEndpointInfo => if inSession then {SessE, SessEncapE} else {E, EncapE}
    case DeliverEncapsulatedResponse => if authenticated then {} else {B, C}
    case OtherRequest => {}
    case _ => if authenticated then {} else {B, C} + {MutB, MutC}
  }

  /** The messages a request resets. */
  function ResetBy(request: Request, authenticated: bool, inSession: bool): (r: set<Message>)
  {
    MeasurementReset(request, inSession) + OtherReset(request, authenticated, inSession)
  }

  function Cleared(buf: Buffers, ms: set<Message>): (r: Buffers)
  {
    map m: Message | true :: if m in ms then [] else buf[m]
  }

  lemma ClearedTwice(buf: Buffers, ms: set<Message>, ms': set<Message>)
    ensures Cleared(Cleared(buf, ms), ms') == Cleared(buf, ms + ms')
    ensures Cleared(buf, {}) == buf
  {
  }

  lemma ClearedOne(buf: Buffers, m: Message)
    ensures buf[m := []] == Cleared(buf, {m})
  {
  }

  function StepRecorded(lim: Limits, s: Recorded, op: Op): (r: Recorded)
  {
    Recorded(
      StepCommon(lim, s.com, op),
      match op
      case Append(kind, m) => s.buf[kind := Appended(s.buf[kind], Capacity(lim, kind), m)]
      case Reset(kind) => s.buf[kind := []]
      case RequestCode(request, _, authenticated, inSession) =>
        Cleared(s.buf, ResetBy(request, authenticated, inSession))
      case _ => s.buf)
  }

  /** A context absorbs m, starting from prefix if it does not exist yet. */
  function Absorbed(dig: map<Role, Bytes>, role: Role, prefix: Bytes, m: Bytes): (r: map<Role, Bytes>)
  {
    dig[role := (if role in dig then dig[role] else prefix) + m]
  }

  function Dropped(ms: set<Message>): (r: set<Role>)
  {
    set m | m in ms && Signed(m) :: Digest(ChannelOf(m))
  }

  lemma DroppedUnion(ms: set<Message>, ms': set<Message>)
    ensures Dropped(ms + ms') == Dropped(ms) + Dropped(ms')
    ensures Dropped({}) == {}
  {
    forall role | role in Dropped(ms) + Dropped(ms')
      ensures role in Dropped(ms + ms')
    {
      var m :| m in ms + ms' && Signed(m) && role == Digest(ChannelOf(m));
    }
  }

  lemma DroppedOne(m: Message)
    requires Signed(m)
    ensures Dropped({m}) == {Digest(ChannelOf(m))}
  {
    assert m in {m};
  }

  /**
   Appending to F.  The first append makes sure the TH context exists, backs it up for a later
   reset of F, and absorbs the mutual part; a failed update frees the TH context.
   */
  function AppendFinish(setup: Setup, s: Running, m: Bytes, outcome: Outcome): (r: Running)
  {
    if s.fInit then
      if Th in s.dig && outcome.Done? then s.(dig := Absorbed(s.dig, Th, [], m))
      else s.(dig := s.dig - {Th})
    else
      var started := if Th in s.dig then s.dig else s.dig[Th := Prelude(setup, s.com)];
      match outcome
      case KFailed => s
      case CertFailed => s.(dig := started)
      case BackupFailed => s.(dig := started - {ThBackup})
      case UpdateFailed => s.(dig := started[ThBackup := started[Th]] - {Th})
      case Done =>
        s.(dig := started[ThBackup := started[Th]][Th := started[Th] + MutualPart(setup, s.com) + m],
           fInit := true)
  }

  function StepRunning(lim: Limits, setup: Setup, s: Running, op: Op, outcome: Outcome): (r: Running)
  {
    var com := StepCommon(lim, s.com, op);
    match op
    case Append(F, m) => AppendFinish(setup, s, m, outcome)
    case Append(K, m) =>
      s.(dig := if outcome.Done? then Absorbed(s.dig, Th, Prelude(setup, s.com), m)
                else s.dig - {Th})
    case Append(kind, m) =>
      var ch := ChannelOf(kind);
      s.(dig := if outcome.Done? then Absorbed(s.dig, Digest(ch), Prefix(setup, s.com, ch), m)
                else s.dig - {Digest(ch)})
    case Reset(K) => s.(dig := s.dig - {Th, ThBackup})
    case Reset(F) =>
      s.(dig := if Th !in s.dig then s.dig
                else if ThBackup in s.dig then s.dig[Th := s.dig[ThBackup]] - {ThBackup}
                else s.dig - {Th},
         fInit := false)
    case Reset(kind) => s.(dig := s.dig - {Digest(ChannelOf(kind))})
    case RequestCode(request, _, authenticated, inSession) =>
      s.(com := com, dig := s.dig - Dropped(ResetBy(request, authenticated, inSession)))
    case _ => s.(com := com)
  }

  // What a processed request does, message by message.

  /** The requests after which an uncompleted CHALLENGE, in either direction, is given up. */
  predicate GivesUpChallenge(request: Request)
  {
    || request.KeyExchange? || request.GetMeasurements? || request.Finish? || request.PskExchange?
    || request.PskFinish? || request.KeyUpdate? || request.Heartbeat? || request.GetEncapsulatedRequest?
    || request.EndSession? || request.GetMeasurementExtensionLog?
  }

  /**
   Which messages a request empties: before the connection is authenticated the ten requests above
   empty B, C, MutB and MutC, and DELIVER_ENCAPSULATED_RESPONSE empties B and C; GET_DIGESTS always
   empties B; GET_ENDPOINT_INFO empties E and EncapE, and every request but GET_MEASUREMENTS empties M,
   of the scope it came in.  Everything else stays.
   */
  lemma RequestEmpties(lim: Limits, r: Recorded, request: Request, negotiated: bool, authenticated: bool,
                       inSession: bool)
    ensures var b, b' := r.buf, StepRecorded(lim, r, RequestCode(request, negotiated, authenticated, inSession)).buf;
            var gaveUp := !authenticated && GivesUpChallenge(request);
            var delivered := !authenticated && request.DeliverEncapsulatedResponse?;
            && b'[B] == (if gaveUp || delivered || request.GetDigests? then [] else b[B])
            && b'[C] == (if gaveUp || delivered then [] else b[C])
            && b'[MutB] == (if gaveUp then [] else b[MutB]) && b'[MutC] == (if gaveUp then [] else b[MutC])
            && b'[E] == (if request.GetEndpointInfo? && !inSession then [] else b[E])
            && b'[EncapE] == (if request.GetEndpointInfo? && !inSession then [] else b[EncapE])
            && b'[SessE] == (if request.GetEndpointInfo? && inSession then [] else b[SessE])
            && b'[SessEncapE] == (if request.GetEndpointInfo? && inSession then [] else b[SessEncapE])
            && b'[M] == (if !request.GetMeasurements? && !inSession then [] else b[M])
            && b'[SessM] == (if !request.GetMeasurements? && inSession then [] else b[SessM])
            && b'[K] == b[K] && b'[F] == b[F]
  {
  }

  /** The same for the digests: those of M1/M2 and the mutual M1/M2 are shared by two messages. */
  predicate DropsDigest(request: Request, authenticated: bool, inSession: bool, ch: Channel)
  {
    var gaveUp := !authenticated && GivesUpChallenge(request);
    match ch
    case M1M2 => gaveUp || request.GetDigests? || (!authenticated && request.DeliverEncapsulatedResponse?)
    case MutM1M2 => gaveUp
    case L1L2 => !request.GetMeasurements? && !inSession
    case SessL1L2 => !request.GetMeasurements? && inSession
    case IL1IL2 => request.GetEndpointInfo? && !inSession
    case EncapIL1IL2 => request.GetEndpointInfo? && !inSession
    case SessIL1IL2 => request.GetEndpointInfo? && inSession
    case SessEncapIL1IL2 => request.GetEndpointInfo? && inSession
  }

  lemma RequestDrops(lim: Limits, setup: Setup, s: Running, request: Request, negotiated: bool,
                     authenticated: bool, inSession: bool, outcome: Outcome)
    ensures var s' := StepRunning(lim, setup, s, RequestCode(request, negotiated, authenticated, inSession), outcome);
            && (forall role :: role in s'.dig
                  <==> role in s.dig && !(role.Digest? && DropsDigest(request, authenticated, inSession, role.ch)))
            && (forall role :: role in s'.dig ==> s'.dig[role] == s.dig[role]) && s'.fInit == s.fInit
  {
    forall ch: Channel
      ensures Digest(ch) in Dropped(ResetBy(request, authenticated, inSession))
              <==> DropsDigest(request, authenticated, inSession, ch)
    {
      DroppedAt(ResetBy(request, authenticated, inSession), ch);
    }
  }

  lemma DroppedAt(ms: set<Message>, ch: Channel)
    ensures Digest(ch) in Dropped(ms) <==> First(ch) in ms || (HasTwo(ch) && Second(ch) in ms)
  {
    if First(ch) in ms || (HasTwo(ch) && Second(ch) in ms) {
      var m := if First(ch) in ms then First(ch) else Second(ch);
      assert m in ms && Signed(m) && Digest(ChannelOf(m)) == Digest(ch);
    } else if Digest(ch) in Dropped(ms) {
      var m :| m in ms && Signed(m) && ChannelOf(m) == ch;
      MessageIsFirstOrSecond(m);
      assert false;
    }
  }

  /** The first step of F with a backup still held drops the only reference to that backup. */
  predicate LosesHandle(s: Running, op: Op, outcome: Outcome)
  {
    && op.Append? && op.kind.F? && !s.fInit && ThBackup in s.dig
    && !outcome.KFailed? && !outcome.CertFailed?
  }
}
