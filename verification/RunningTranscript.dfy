/**
 The running form: one hash context per transcript, held by handle.  Every method is proved
 against the value step it implements, and accounts for every live handle: contexts held by
 others are never touched, and a handle this object no longer refers to is recorded as lost.
 */
module RunningTranscripts {
  import opened Codec
  import opened ManagedBuffers
  import opened Transcript
  import opened Steps
  import opened Digests
  import opened Identities
  import opened PlainTranscripts
  import opened Signing

  lemma StartedThenExtended(dig: map<Role, Bytes>, role: Role, prefix: Bytes, m: Bytes)
    requires role !in dig
    ensures dig[role := prefix][role := prefix + m] == Absorbed(dig, role, prefix, m)
    ensures dig[role := prefix] - {role} == dig - {role}
  {
  }

  function Started(dig: map<Role, Bytes>, prelude: Bytes): (r: map<Role, Bytes>)
    ensures Th in r
  {
    if Th in dig then dig else dig[Th := prelude]
  }

  /**
   Every live context is accounted for exactly once: held under one role and absorbing dig[role],
   or somebody else's and untouched, or lost.
   */
  ghost predicate Accounts(ctx: map<Handle, State>, held: map<Role, Handle>, dig: map<Role, Bytes>,
                           owner: map<Handle, Role>, foreign: map<Handle, State>, lost: set<Handle>)
  {
    && dig.Keys == held.Keys
    && (forall r :: r in held ==> held[r] in owner && owner[held[r]] == r)
    && (forall h :: h in owner ==> owner[h] in held && held[owner[h]] == h)
    && (forall h :: h in owner ==> h in ctx && ctx[h] == Absorbing(dig[owner[h]]))
    && (forall h :: h in owner ==> h !in foreign && h !in lost)
    && (forall h :: h in foreign ==> h in ctx && ctx[h] == foreign[h] && h !in lost)
    && (forall h :: h in lost ==> h in ctx)
    && (forall h :: h in ctx ==> h in owner || h in foreign || h in lost)
  }

  lemma AccountUpdated(ctx: map<Handle, State>, held: map<Role, Handle>, dig: map<Role, Bytes>,
                       owner: map<Handle, Role>, foreign: map<Handle, State>, lost: set<Handle>,
                       role: Role, data: Bytes)
    requires Accounts(ctx, held, dig, owner, foreign, lost) && role in held
    ensures Accounts(ctx[held[role] := Absorbing(data)], held, dig[role := data], owner, foreign, lost)
  {
  }

  lemma AccountAdded(ctx: map<Handle, State>, held: map<Role, Handle>, dig: map<Role, Bytes>,
                     owner: map<Handle, Role>, foreign: map<Handle, State>, lost: set<Handle>,
                     role: Role, h: Handle, data: Bytes)
    requires Accounts(ctx, held, dig, owner, foreign, lost) && role !in held && h !in ctx
    ensures Accounts(ctx[h := Absorbing(data)], held[role := h], dig[role := data],
                     owner[h := role], foreign, lost)
  {
  }

  lemma AccountFreed(ctx: map<Handle, State>, held: map<Role, Handle>, dig: map<Role, Bytes>,
                     owner: map<Handle, Role>, foreign: map<Handle, State>, lost: set<Handle>, role: Role)
    requires Accounts(ctx, held, dig, owner, foreign, lost) && role in held
    ensures Accounts(ctx - {held[role]}, held - {role}, dig - {role}, owner - {held[role]}, foreign, lost)
  {
  }

  lemma AccountForgotten(ctx: map<Handle, State>, held: map<Role, Handle>, dig: map<Role, Bytes>,
                         owner: map<Handle, Role>, foreign: map<Handle, State>, lost: set<Handle>, role: Role)
    requires Accounts(ctx, held, dig, owner, foreign, lost) && role in held
    ensures Accounts(ctx, held - {role}, dig - {role}, owner - {held[role]}, foreign, lost + {held[role]})
  {
  }

  lemma AccountRenamed(ctx: map<Handle, State>, held: map<Role, Handle>, dig: map<Role, Bytes>,
                       owner: map<Handle, Role>, foreign: map<Handle, State>, lost: set<Handle>,
                       from: Role, to: Role)
    requires Accounts(ctx, held, dig, owner, foreign, lost) && from in held && to !in held
    ensures Accounts(ctx, held[to := held[from]] - {from}, dig[to := dig[from]] - {from},
                     owner[held[from] := to], foreign, lost)
  {
  }

  class RunningTranscript {
    const lim: Limits
    const setup: Setup
    const isRequester: bool
    const provider: Provider
    const plain: PlainTranscript
    var identity: HashedIdentity
    var slots: Slots
    var mutAuthRequested: nat
    var held: map<Role, Handle>
    var fInit: bool

    // Accounting: the bytes each held context has absorbed, who holds which handle, the live
    // contexts of others, and live contexts nobody refers to any more.
    ghost var dig: map<Role, Bytes>
    ghost var owner: map<Handle, Role>
    ghost var foreign: map<Handle, State>
    ghost var lost: set<Handle>

    ghost predicate Valid()
      reads this, provider
    {
      && provider.Valid() && identity.Valid() && slots.Valid() && plain.lim == lim
      && Accounts(provider.ctx, held, dig, owner, foreign, lost)
    }

    ghost function CtLookup(): (r: Lookup)
      requires identity.Valid() && slots.Valid()
      reads this`identity, this`slots
    {
      ResponderDigest(identity, slots, setup.usePsk, isRequester, provider.algo.hash)
    }

    ghost function CmLookup(): (r: Lookup)
      requires identity.Valid() && slots.Valid()
      reads this`identity, this`slots, this`mutAuthRequested
    {
      RequesterDigest(identity, slots, setup.usePsk, mutAuthRequested, isRequester, provider.algo.hash)
    }

    ghost function Ct(): (r: Bytes)
      requires identity.Valid() && slots.Valid()
      reads this`identity, this`slots
    {
      AsDigest(CtLookup())
    }

    /** A raw key that beginning F would need was never provisioned. */
    ghost predicate LacksKey(held: map<Role, Handle>)
      requires identity.Valid() && slots.Valid()
      reads this`identity, this`slots, this`mutAuthRequested
    {
      (CtLookup() == Missing && Th !in held) || CmLookup() == Missing
    }

    ghost function Com(): (r: Common)
      requires identity.Valid() && slots.Valid()
      reads this`identity, this`slots, this`mutAuthRequested, plain
    {
      plain.View(Ct(), AsMutual(CmLookup()))
    }

    ghost function View(): (r: Running)
      requires identity.Valid() && slots.Valid()
      reads this, plain
    {
      Running(Com(), dig, fInit)
    }

    constructor (lim: Limits, setup: Setup, isRequester: bool, identity: HashedIdentity,
                 provider: Provider, plain: PlainTranscript, slots: Slots)
      requires provider.Valid() && identity.Valid() && slots.Valid() && plain.lim == lim
      ensures Valid() && fresh(this) && this.provider == provider && this.plain == plain
      ensures dig == map[] && !fInit && lost == {} && foreign == provider.ctx
    {
      this.lim, this.setup, this.isRequester := lim, setup, isRequester;
      this.identity, this.provider, this.plain, this.slots := identity, provider, plain, slots;
      mutAuthRequested, held, fInit := 0, map[], false;
      dig, owner, foreign, lost := map[], map[], provider.ctx, {};
    }

    /** The peer's chain in a slot is replaced: only its hash is kept, and no context hears of it. */
    method SetPeerChain(slot: nat, chain: Bytes) returns (ok: bool)
      requires Valid() && slot < SLOT_COUNT
      modifies this`identity
      ensures Valid() && (provider.reliable ==> ok)
      ensures identity == if !ok then old(identity)
                          else old(identity).(peerChainHash :=
                                 old(identity).peerChainHash[slot := provider.algo.hash(chain)])
      ensures View() == StepRunning(lim, setup, StepRunning(lim, setup, old(View()), SetResponder(Ct()), Done),
                                    SetMutual(AsMutual(CmLookup())), Done)
    {
      var digest;
      ok, digest := provider.HashAll(chain);
      if ok {
        identity := identity.(peerChainHash := identity.peerChainHash[slot := digest]);
      }
    }

    /**
     A new context that has absorbed the given pieces in order.  If any call fails, whatever was
     allocated is freed again.
     */
    method Create(pieces: seq<Bytes>) returns (r: Option<Handle>)
      requires provider.Valid()
      modifies provider
      ensures provider.Valid()
      ensures r.None? ==> !provider.reliable && provider.ctx == old(provider.ctx)
      ensures r.Some? ==> r.value !in old(provider.ctx)
                          && provider.ctx == old(provider.ctx)[r.value := Absorbing(Flatten(pieces))]
    {
      r := provider.New();
      if r.None? {
        return None;
      }
      var h := r.value;
      var ok := provider.Init(h);
      if !ok {
        provider.Free(h);
        assert provider.ctx == old(provider.ctx);
        return None;
      }
      var rest := pieces;
      ghost var done := [];
      while rest != []
        invariant provider.Valid() && r == Some(h) && h !in old(provider.ctx)
        invariant provider.ctx == old(provider.ctx)[h := Absorbing(done)]
        invariant done + Flatten(rest) == Flatten(pieces)
        decreases |rest|
      {
        ok := provider.Update(Some(h), rest[0]);
        if !ok {
          provider.Free(h);
          assert provider.ctx == old(provider.ctx);
          return None;
        }
        assert done + rest[0] + Flatten(rest[1..]) == done + Flatten(rest);
        done := done + rest[0];
        rest := rest[1..];
      }
      assert done + [] == done;
    }

    /** Replaces the references, with the accounting that goes with them. */
    method Install(newHeld: map<Role, Handle>, ghost newDig: map<Role, Bytes>, ghost newOwner: map<Handle, Role>)
      requires provider.Valid() && identity.Valid() && slots.Valid() && plain.lim == lim
      requires Accounts(provider.ctx, newHeld, newDig, newOwner, foreign, lost)
      modifies this`held, this`dig, this`owner
      ensures Valid() && held == newHeld && dig == newDig && owner == newOwner
    {
      held, dig, owner := newHeld, newDig, newOwner;
    }

    /** Takes over a context that was just created. */
    method Adopt(role: Role, h: Handle, ghost ctx: map<Handle, State>, ghost data: Bytes)
      requires provider.Valid() && identity.Valid() && slots.Valid() && plain.lim == lim
      requires Accounts(ctx, held, dig, owner, foreign, lost) && role !in held && h !in ctx
      requires provider.ctx == ctx[h := Absorbing(data)]
      modifies this`held, this`dig, this`owner
      ensures Valid() && dig == old(dig)[role := data] && held == old(held)[role := h]
    {
      AccountAdded(ctx, held, dig, owner, foreign, lost, role, h, data);
      Install(held[role := h], dig[role := data], owner[h := role]);
    }

    /** Clears the reference to a context that was just freed. */
    method Release(role: Role, ghost ctx: map<Handle, State>)
      requires provider.Valid() && identity.Valid() && slots.Valid() && plain.lim == lim
      requires Accounts(ctx, held, dig, owner, foreign, lost) && role in held
      requires provider.ctx == ctx - {held[role]}
      modifies this`held, this`dig, this`owner
      ensures Valid() && dig == old(dig) - {role} && held == old(held) - {role}
    {
      AccountFreed(ctx, held, dig, owner, foreign, lost, role);
      Install(held - {role}, dig - {role}, owner - {held[role]});
    }

    /** Absorbs m into an existing context; on failure the context is freed and forgotten. */
    method Absorb(role: Role, m: Bytes) returns (ok: bool)
      requires Valid() && role in held
      modifies this`held, this`dig, this`owner, provider
      ensures Valid()
      ensures dig == if ok then old(dig)[role := old(dig)[role] + m] else old(dig) - {role}
      ensures held == if ok then old(held) else old(held) - {role}
      ensures provider.reliable ==> ok
    {
      var h := held[role];
      ghost var ctx := provider.ctx;
      ok := provider.Update(Some(h), m);
      if ok {
        AccountUpdated(ctx, held, dig, owner, foreign, lost, role, dig[role] + m);
        dig := dig[role := dig[role] + m];
      } else {
        provider.Free(h);
        assert provider.ctx == ctx - {h};
        Release(role, ctx);
      }
    }

    /** Frees a context if it exists. */
    method Drop(role: Role)
      requires Valid()
      modifies this`held, this`dig, this`owner, provider
      ensures Valid() && dig == old(dig) - {role} && held == old(held) - {role}
    {
      if role in held {
        ghost var ctx := provider.ctx;
        provider.Free(held[role]);
        Release(role, ctx);
      } else {
        assert dig - {role} == dig && held - {role} == held;
      }
    }

    method Start(role: Role, pieces: seq<Bytes>) returns (ok: bool)
      requires Valid() && role !in held
      modifies this`held, this`dig, this`owner, provider
      ensures Valid()
      ensures dig == if ok then old(dig)[role := Flatten(pieces)] else old(dig)
      ensures role.Th? ==> LostBackup(held) == LostBackup(old(held))
      ensures provider.reliable ==> ok
    {
      ghost var ctx := provider.ctx;
      var r := Create(pieces);
      ok := r.Some?;
      if ok {
        Adopt(role, r.value, ctx, Flatten(pieces));
      }
    }

    /** Absorbs m, first starting the context from the given pieces if it does not exist. */
    method Extend(role: Role, pieces: seq<Bytes>, m: Bytes) returns (ok: bool)
      requires Valid()
      modifies this`held, this`dig, this`owner, provider
      ensures Valid()
      ensures dig == if ok then Absorbed(old(dig), role, Flatten(pieces), m) else old(dig) - {role}
      ensures role.Th? ==> LostBackup(held) == LostBackup(old(held))
      ensures provider.reliable ==> ok
    {
      if role !in held {
        ok := Start(role, pieces);
        if !ok {
          assert dig - {role} == dig;
          return;
        }
        ok := Absorb(role, m);
        StartedThenExtended(old(dig), role, Flatten(pieces), m);
      } else {
        ok := Absorb(role, m);
      }
    }

    method AppendSigned(kind: Message, m: Bytes) returns (status: Status)
      requires Valid() && Signed(kind)
      modifies this`held, this`dig, this`owner, provider
      ensures Valid()
      ensures status == Success || (status == CryptoError && !provider.reliable)
      ensures View() == StepRunning(lim, setup, old(View()), Append(kind, m),
                                    if status == Success then Done else UpdateFailed)
    {
      var ch := ChannelOf(kind);
      var pieces := if WithVca(setup, ch) then [plain.a] else [];
      assert Flatten(pieces) == Prefix(setup, Com(), ch) by { FlattenOne(plain.a); }
      var ok := Extend(Digest(ch), pieces, m);
      status := if ok then Success else CryptoError;
    }

    method LocalDigest() returns (status: Status, digest: Bytes)
      requires identity.Valid() && slots.Valid()
      ensures status == Success ==> identity.Local(slots, provider.algo.hash) == Found(digest)
      ensures status == MissingKey <==> identity.Local(slots, provider.algo.hash) == Missing
      ensures status != BufferFull && (status == CryptoError ==> !provider.reliable)
    {
      var chain := identity.localKey;
      if slots.local == PUBLIC_KEY_SLOT {
        if |identity.localKey| == 0 {
          return MissingKey, [];
        }
      } else {
        chain := identity.localChain[slots.local];
      }
      var ok;
      ok, digest := provider.HashAll(chain);
      status := if ok then Success else CryptoError;
    }

    method PeerDigest() returns (status: Status, digest: Bytes)
      requires identity.Valid() && slots.Valid()
      ensures status == Success ==> identity.Peer(slots, provider.algo.hash) == Found(digest)
      ensures status == MissingKey <==> identity.Peer(slots, provider.algo.hash) == Missing
      ensures status != BufferFull && (status == CryptoError ==> !provider.reliable)
    {
      if slots.peer == PUBLIC_KEY_SLOT {
        if |identity.peerKey| == 0 {
          return MissingKey, [];
        }
        var ok;
        ok, digest := provider.HashAll(identity.peerKey);
        status := if ok then Success else CryptoError;
      } else {
        status, digest := Success, identity.peerChainHash[slots.peer];
      }
    }

    /** The pieces that precede K. */
    method PreludePieces() returns (status: Status, pieces: seq<Bytes>)
      requires identity.Valid() && slots.Valid()
      ensures status != BufferFull && (status == CryptoError ==> !provider.reliable)
      ensures status == MissingKey <==> CtLookup() == Missing
      ensures status == Success ==> Flatten(pieces) == Prelude(setup, Com())
    {
      pieces := [plain.a];
      FlattenOne(plain.a);
      if setup.usePsk {
        return Success, pieces;
      }
      var digest;
      if isRequester {
        status, digest := PeerDigest();
      } else {
        status, digest := LocalDigest();
      }
      if status == Success {
        pieces := if setup.multiKeyRsp then [plain.a, plain.d, digest] else [plain.a, digest];
        FlattenMore(plain.a, plain.d, digest);
      }
    }

    /** Extends the TH context, first creating it from the prelude. */
    method ExtendTh(m: Bytes) returns (status: Status)
      requires Valid()
      modifies this`held, this`dig, this`owner, provider
      ensures Valid()
      ensures status != BufferFull && (status == CryptoError ==> !provider.reliable)
      ensures status == MissingKey <==> CtLookup() == Missing && Th !in old(held)
      ensures dig == if status == Success then Absorbed(old(dig), Th, Prelude(setup, Com()), m)
                     else old(dig) - {Th}
      ensures LostBackup(held) == LostBackup(old(held))
    {
      var pieces := [];
      status := Success;
      if Th !in held {
        status, pieces := PreludePieces();
      }
      if status == Success {
        var ok := Extend(Th, pieces, m);
        status := if ok then Success else CryptoError;
      } else {
        assert dig - {Th} == dig;
      }
    }

    method AppendK(m: Bytes) returns (status: Status)
      requires Valid()
      modifies this`held, this`dig, this`owner, provider
      ensures Valid()
      ensures status != BufferFull && (status == CryptoError ==> !provider.reliable)
      ensures status == MissingKey <==> CtLookup() == Missing && Th !in old(held)
      ensures View() == StepRunning(lim, setup, old(View()), Append(K, m),
                                    if status == Success then Done else UpdateFailed)
      ensures !setup.usePsk && status != MissingKey && Th !in old(held) ==>
                Com().ct == if isRequester && slots.peer != 0xFF then identity.peerChainHash[slots.peer]
                            else provider.algo.hash(
                              if isRequester then identity.peerKey
                              else if slots.local == 0xFF then identity.localKey
                              else identity.localChain[slots.local])
    {
      status := ExtendTh(m);
    }

    /** Absorbs pieces in order; on failure the context is freed and forgotten. */
    method AbsorbAll(role: Role, pieces: seq<Bytes>) returns (ok: bool)
      requires Valid() && role in held
      modifies this`held, this`dig, this`owner, provider
      ensures Valid()
      ensures dig == if ok then old(dig)[role := old(dig)[role] + Flatten(pieces)]
                     else old(dig) - {role}
      ensures provider.reliable ==> ok
      decreases |pieces|
    {
      if pieces == [] {
        SameContents(dig, role);
        return true;
      }
      ok := Absorb(role, pieces[0]);
      if ok {
        ExtendedTwice(old(dig), role, pieces[0], Flatten(pieces[1..]));
        ok := AbsorbAll(role, pieces[1..]);
      }
    }

    /**
     Backs up the TH context.  The backup pointer is overwritten by the new context, whether or
     not it still referred to an earlier backup.
     */
    method Backup() returns (ok: bool)
      requires Valid() && Th in held
      modifies this`held, this`dig, this`owner, this`lost, provider
      ensures Valid()
      ensures lost == old(lost) + LostBackup(old(held))
      ensures dig == if ok then old(dig)[ThBackup := old(dig)[Th]] else old(dig) - {ThBackup}
      ensures provider.reliable ==> ok
    {
      ForgetBackup();
      BackupReplaced(old(dig));
      ok := DuplicateTh();
    }

    method DuplicateTh() returns (ok: bool)
      requires Valid() && Th in held && ThBackup !in held
      modifies this`held, this`dig, this`owner, provider
      ensures Valid()
      ensures dig == if ok then old(dig)[ThBackup := old(dig)[Th]] else old(dig)
      ensures provider.reliable ==> ok
    {
      ghost var ctx := provider.ctx;
      var r := Copy(held[Th]);
      ok := r.Some?;
      if ok {
        Adopt(ThBackup, r.value, ctx, dig[Th]);
      }
    }

    /** A new context holding a copy of another. */
    method Copy(source: Handle) returns (r: Option<Handle>)
      requires provider.Valid() && source in provider.ctx && provider.ctx[source].Absorbing?
      modifies provider
      ensures provider.Valid()
      ensures r.None? ==> !provider.reliable && provider.ctx == old(provider.ctx)
      ensures r.Some? ==> r.value !in old(provider.ctx)
                          && provider.ctx == old(provider.ctx)[r.value := old(provider.ctx)[source]]
    {
      r := provider.New();
      if r.None? {
        return None;
      }
      var ok := provider.Duplicate(Some(source), r.value);
      if !ok {
        provider.Free(r.value);
        assert provider.ctx == old(provider.ctx);
        return None;
      }
    }

    method ForgetBackup()
      requires Valid()
      modifies this`held, this`dig, this`owner, this`lost
      ensures Valid()
      ensures lost == old(lost) + LostBackup(old(held)) && dig == old(dig) - {ThBackup}
    {
      if ThBackup in held {
        var h := held[ThBackup];
        AccountForgotten(provider.ctx, held, dig, owner, foreign, lost, ThBackup);
        lost, owner := lost + {h}, owner - {h};
        held, dig := held - {ThBackup}, dig - {ThBackup};
      } else {
        assert dig - {ThBackup} == dig;
      }
    }

    /** The pieces that precede F under mutual authentication. */
    method MutualPieces() returns (status: Status, pieces: seq<Bytes>)
      requires identity.Valid() && slots.Valid()
      ensures status != BufferFull && (status == CryptoError ==> !provider.reliable)
      ensures status == MissingKey <==> CmLookup() == Missing
      ensures status == Success ==> Flatten(pieces) == MutualPart(setup, Com())
    {
      pieces := [];
      if setup.usePsk || mutAuthRequested == 0 {
        return Success, pieces;
      }
      var digest;
      if isRequester {
        status, digest := LocalDigest();
      } else {
        status, digest := PeerDigest();
      }
      if status == Success {
        pieces := if setup.multiKeyReq then [plain.encapD, digest] else [digest];
        FlattenOne(digest);
        FlattenMore(plain.encapD, [], digest);
        assert [] + digest == digest;
      }
    }

    /** The first append to F: makes sure TH exists, finds the mutual chain, backs TH up. */
    method StartFinish() returns (status: Status, pieces: seq<Bytes>, ghost outcome: Outcome)
      requires Valid() && !fInit
      modifies this`held, this`dig, this`owner, this`lost, provider
      ensures Valid()
      ensures status != BufferFull && (status == Success <==> outcome.Done?) && !outcome.UpdateFailed?
      ensures status == CryptoError ==> !provider.reliable
      ensures status == MissingKey ==> LacksKey(old(held))
      ensures LacksKey(old(held)) ==> outcome.KFailed? || outcome.CertFailed?
      ensures status == Success ==> Flatten(pieces) == MutualPart(setup, Com())
      ensures lost == if outcome.KFailed? || outcome.CertFailed? then old(lost)
                      else old(lost) + LostBackup(old(held))
      ensures var started := Started(old(dig), Prelude(setup, Com()));
              dig == match outcome
                     case KFailed => old(dig)
                     case CertFailed => started
                     case BackupFailed => started - {ThBackup}
                     case Done => started[ThBackup := started[Th]]
                     case UpdateFailed => map[]
    {
      pieces := [];
      status := StartTh();
      if status != Success {
        outcome := KFailed;
        return;
      }
      status, pieces := MutualPieces();
      if status != Success {
        outcome := CertFailed;
        return;
      }
      var ok := Backup();
      status, outcome := if ok then Success else CryptoError, if ok then Done else BackupFailed;
    }

    method StartTh() returns (status: Status)
      requires Valid()
      modifies this`held, this`dig, this`owner, provider
      ensures Valid() && status != BufferFull && (status == CryptoError ==> !provider.reliable)
      ensures status == MissingKey <==> CtLookup() == Missing && Th !in old(held)
      ensures dig == if status == Success then Started(old(dig), Prelude(setup, Com())) else old(dig)
      ensures LostBackup(held) == LostBackup(old(held))
    {
      if Th in held {
        return Success;
      }
      status := ExtendTh([]);
      if status == Success {
        assert Prelude(setup, Com()) + [] == Prelude(setup, Com());
      } else {
        assert old(dig) - {Th} == old(dig);
      }
    }

    /**
     Appends to F.  The ghost outcome says how far the call got; a handle is lost exactly when
     the first append to F finds a backup left over from an earlier, failed one.
     */
    method AppendF(m: Bytes) returns (status: Status, ghost outcome: Outcome)
      requires Valid()
      modifies this`held, this`dig, this`owner, this`lost, this`fInit, provider
      ensures Valid()
      ensures status != BufferFull && (status == Success <==> outcome.Done?)
      ensures status == CryptoError ==> !provider.reliable || (old(fInit) && Th !in old(dig))
      ensures status == MissingKey ==> !old(fInit) && LacksKey(old(held))
      ensures !old(fInit) && LacksKey(old(held)) ==> outcome.KFailed? || outcome.CertFailed?
      ensures View() == StepRunning(lim, setup, old(View()), Append(F, m), outcome)
      ensures lost == if LosesHandle(old(View()), Append(F, m), outcome)
                      then old(lost) + {old(held)[ThBackup]} else old(lost)
      ensures !setup.usePsk && mutAuthRequested != 0 && outcome.Done? && !old(fInit) ==>
                Com().cm == Some(if !isRequester && slots.peer != 0xFF then identity.peerChainHash[slots.peer]
                                 else provider.algo.hash(
                                   if !isRequester then identity.peerKey
                                   else if slots.local == 0xFF then identity.localKey
                                   else identity.localChain[slots.local]))
    {
      ghost var s := View();
      if fInit {
        status := ContinueFinish(m);
        outcome := if status == Success then Done else UpdateFailed;
      } else {
        status, outcome := BeginFinish(m);
      }
      FinishStep(lim, setup, s, m, outcome);
    }

    method ContinueFinish(m: Bytes) returns (status: Status)
      requires Valid() && fInit
      modifies this`held, this`dig, this`owner, provider
      ensures Valid() && (status == Success || status == CryptoError)
      ensures status == Success ==> Th in old(dig)
      ensures status == CryptoError ==> !provider.reliable || Th !in old(dig)
      ensures View() == AppendFinish(setup, old(View()), m,
                                     if status == Success then Done else UpdateFailed)
    {
      if Th !in held {
        assert dig - {Th} == dig;
        return CryptoError;
      }
      var ok := Absorb(Th, m);
      status := if ok then Success else CryptoError;
    }

    method BeginFinish(m: Bytes) returns (status: Status, ghost outcome: Outcome)
      requires Valid() && !fInit
      modifies this`held, this`dig, this`owner, this`lost, this`fInit, provider
      ensures Valid()
      ensures status != BufferFull && (status == Success <==> outcome.Done?)
      ensures status == CryptoError ==> !provider.reliable
      ensures status == MissingKey ==> LacksKey(old(held))
      ensures LacksKey(old(held)) ==> outcome.KFailed? || outcome.CertFailed?
      ensures View() == AppendFinish(setup, old(View()), m, outcome)
      ensures lost == if outcome.KFailed? || outcome.CertFailed? then old(lost)
                      else old(lost) + LostBackup(old(held))
    {
      ghost var s := View();
      var pieces;
      status, pieces, outcome := StartFinish();
      if status == Success {
        status := AbsorbFinish(pieces, m);
        outcome := if status == Success then Done else UpdateFailed;
      }
      FinishEnds(setup, s, m, outcome);
    }

    /** Absorbs the mutual part and the first piece of F, which then counts as started. */
    method AbsorbFinish(pieces: seq<Bytes>, m: Bytes) returns (status: Status)
      requires Valid() && Th in held && !fInit
      modifies this`held, this`dig, this`owner, this`fInit, provider
      ensures Valid() && fInit == (status == Success)
      ensures (status == Success || (status == CryptoError && !provider.reliable))
      ensures dig == if status == Success then old(dig)[Th := old(dig)[Th] + (Flatten(pieces) + m)]
                     else old(dig) - {Th}
    {
      FlattenAppended(pieces, m);
      fInit := AbsorbAll(Th, pieces + [m]);
      status := if fInit then Success else CryptoError;
    }

    method ResetSigned(kind: Message)
      requires Valid() && Signed(kind)
      modifies this`held, this`dig, this`owner, provider
      ensures Valid() && View() == StepRunning(lim, setup, old(View()), Reset(kind), Done)
    {
      Drop(Digest(ChannelOf(kind)));
    }

    /** Drops what a request makes obsolete and closes the DIGESTS window. */
    method Request(request: Request, negotiated: bool, authenticated: bool, inSession: bool)
      requires Valid()
      modifies this`held, this`dig, this`owner, provider, plain
      ensures Valid()
      ensures View() == StepRunning(lim, setup, old(View()),
                                    RequestCode(request, negotiated, authenticated, inSession), Done)
    {
      plain.CloseWindow(request, negotiated, authenticated, inSession);
      DropForRequest(request, authenticated, inSession);
    }

    method DropForRequest(request: Request, authenticated: bool, inSession: bool)
      requires Valid()
      modifies this`held, this`dig, this`owner, provider
      ensures Valid() && dig == old(dig) - Dropped(ResetBy(request, authenticated, inSession))
    {
      ghost var ms := MeasurementReset(request, inSession);
      ghost var ms' := OtherReset(request, authenticated, inSession);
      DroppedUnion(ms, ms');
      SubtractTwice(dig, Dropped(ms), Dropped(ms'));
      DropMeasurements(request, inSession);
      DropOthers(request, authenticated, inSession);
    }

    method DropMeasurements(request: Request, inSession: bool)
      requires Valid()
      modifies this`held, this`dig, this`owner, provider
      ensures Valid() && dig == old(dig) - Dropped(MeasurementReset(request, inSession))
    {
      if request.GetMeasurements? {
        NothingDropped(dig);
      } else {
        DropOne(if inSession then SessM else M);
      }
    }

    method DropOthers(request: Request, authenticated: bool, inSession: bool)
      requires Valid()
      modifies this`held, this`dig, this`owner, provider
      ensures Valid() && dig == old(dig) - Dropped(OtherReset(request, authenticated, inSession))
    {
      if request.GetDigests? {
        DropOne(B);
      } else if request.GetEndpointInfo? {
        DropEndpointInfo(inSession);
      } else {
        DropUnfinished(request, authenticated);
      }
    }

    /** A CHALLENGE that was not completed is given up. */
    method DropUnfinished(request: Request, authenticated: bool)
      requires Valid() && !request.GetDigests? && !request.GetEndpointInfo?
      modifies this`held, this`dig, this`owner, provider
      ensures Valid() && dig == old(dig) - Dropped(OtherReset(request, authenticated, false))
    {
      if request.OtherRequest? || authenticated {
        NothingDropped(dig);
      } else {
        DropChallenges(!request.DeliverEncapsulatedResponse?);
      }
    }

    method DropEndpointInfo(inSession: bool)
      requires Valid()
      modifies this`held, this`dig, this`owner, provider
      ensures Valid() && dig == old(dig) - Dropped(if inSession then {SessE, SessEncapE} else {E, EncapE})
    {
      if inSession {
        DropPair(SessE, SessEncapE);
      } else {
        DropPair(E, EncapE);
      }
    }

    method DropChallenges(mutual: bool)
      requires Valid()
      modifies this`held, this`dig, this`owner, provider
      ensures Valid() && dig == old(dig) - Dropped(if mutual then {B, C} + {MutB, MutC} else {B, C})
    {
      DroppedUnion({B, C}, {MutB, MutC});
      SubtractTwice(dig, Dropped({B, C}), Dropped({MutB, MutC}));
      DropPair(B, C);
      if mutual {
        DropPair(MutB, MutC);
      }
    }

    method DropOne(m: Message)
      requires Valid() && Signed(m)
      modifies this`held, this`dig, this`owner, provider
      ensures Valid() && dig == old(dig) - Dropped({m})
    {
      DroppedOne(m);
      Drop(Digest(ChannelOf(m)));
    }

    /** Resets two messages, which may share one digest. */
    method DropPair(first: Message, second: Message)
      requires Valid() && Signed(first) && Signed(second)
      modifies this`held, this`dig, this`owner, provider
      ensures Valid() && dig == old(dig) - Dropped({first, second})
    {
      DroppedUnion({first}, {second});
      assert {first} + {second} == {first, second};
      SubtractTwice(dig, Dropped({first}), Dropped({second}));
      DropOne(first);
      DropOne(second);
    }

    method ResetK()
      requires Valid()
      modifies this`held, this`dig, this`owner, provider
      ensures Valid() && View() == StepRunning(lim, setup, old(View()), Reset(K), Done)
    {
      DropBoth();
    }

    method DropBoth()
      requires Valid()
      modifies this`held, this`dig, this`owner, provider
      ensures Valid() && dig == old(dig) - {Th, ThBackup}
    {
      DroppedBoth(dig);
      Drop(Th);
      Drop(ThBackup);
    }

    /** Returns to the TH context as it was before F, if there is one to return from. */
    method ResetF()
      requires Valid()
      modifies this`held, this`dig, this`owner, this`fInit, provider
      ensures Valid() && View() == StepRunning(lim, setup, old(View()), Reset(F), Done)
    {
      if Th in held {
        RestoreBackup();
      }
      fInit := false;
    }

    method RestoreBackup()
      requires Valid() && Th in held
      modifies this`held, this`dig, this`owner, provider
      ensures Valid()
      ensures dig == if ThBackup in old(dig) then old(dig)[Th := old(dig)[ThBackup]] - {ThBackup}
                     else old(dig) - {Th}
    {
      Drop(Th);
      if ThBackup in held {
        RestoredBackup(old(dig));
        RenameBackup();
      }
    }

    method RenameBackup()
      requires Valid() && ThBackup in held && Th !in held
      modifies this`held, this`dig, this`owner
      ensures Valid() && dig == old(dig)[Th := old(dig)[ThBackup]] - {ThBackup}
    {
      AccountRenamed(provider.ctx, held, dig, owner, foreign, lost, ThBackup, Th);
      Install(held[Th := held[ThBackup]] - {ThBackup}, dig[Th := dig[ThBackup]] - {ThBackup},
              owner[held[ThBackup] := Th]);
    }

    /**
     The TH hash, for TH1 and TH2 alike.  A duplicate is finalised and freed on every path, so
     the session's own context goes on absorbing and no handle is gained or given up.
     */
    method ThHash() returns (ok: bool, digest: Bytes)
      requires Valid()
      modifies provider
      ensures Valid() && provider.ctx == old(provider.ctx)
      ensures ok ==> Th in dig && digest == provider.algo.hash(dig[Th])
      ensures provider.reliable && Th in dig ==> ok
    {
      digest := [];
      if Th !in held {
        ok := RefuseMissing();
        return;
      }
      var r := Copy(held[Th]);
      if r.None? {
        return false, digest;
      }
      ok, digest := FinalAndFree(r.value);
      assert provider.ctx == old(provider.ctx);
    }

    /** Duplicating a missing context fails after the target was allocated, which is freed. */
    method RefuseMissing() returns (ok: bool)
      requires Valid()
      modifies provider
      ensures Valid() && provider.ctx == old(provider.ctx) && !ok
    {
      var r := provider.New();
      if r.None? {
        return false;
      }
      ok := provider.Duplicate(None, r.value);
      provider.Free(r.value);
      assert provider.ctx == old(provider.ctx);
    }

    /** The HMAC over the TH hash under a finished key. */
    method ThHmac(key: Bytes, hmac: (Bytes, Bytes) -> Bytes) returns (ok: bool, mac: Bytes)
      requires Valid()
      modifies provider
      ensures Valid() && provider.ctx == old(provider.ctx)
      ensures ok ==> Th in dig && mac == hmac(key, provider.algo.hash(dig[Th]))
      ensures provider.reliable && Th in dig ==> ok
    {
      var digest;
      ok, digest := ThHash();
      mac := [];
      if ok {
        ok := *;
        ok := ok || provider.reliable;
        mac := hmac(key, digest);
      }
    }

    /** Finalises a signed transcript in place and then resets it, as every signature step does. */
    method Consume(ch: Channel) returns (ok: bool, digest: Bytes)
      requires Valid()
      modifies this`held, this`dig, this`owner, provider
      ensures Valid() && dig == old(dig) - {Digest(ch)}
      ensures ok ==> Digest(ch) in old(dig) && digest == provider.algo.hash(old(dig)[Digest(ch)])
      ensures provider.reliable && Digest(ch) in old(dig) ==> ok
    {
      var role := Digest(ch);
      if role !in held {
        assert dig - {role} == dig;
        return false, [];
      }
      ghost var ctx := provider.ctx;
      ok, digest := FinalAndFree(held[role]);
      Release(role, ctx);
    }

    method GenerateSignature(purpose: Purpose, scheme: Scheme, key: Key) returns (ok: bool, signature: Bytes)
      requires Valid()
      modifies this`held, this`dig, this`owner, provider
      ensures Valid() && View() == ConsumeRunning(old(View()), SignChannel(purpose, isRequester))
      ensures var role := Digest(ChannelOf(LastCovered(purpose, isRequester)));
              && dig == old(dig) - {role} && (provider.reliable && role in old(dig) ==> ok)
              && (ok ==> role in old(dig) && signature == scheme.sign(key, provider.algo.hash(old(dig)[role])))
    {
      SignatureCovers(setup, Recorded(Com(), EmptyBuffers), purpose, isRequester);
      var digest;
      ok, digest := Consume(SignedChannel(purpose, isRequester));
      signature := [];
      if ok {
        ok := *;
        ok := ok || provider.reliable;
        signature := scheme.sign(key, digest);
      }
    }

    method VerifySignature(purpose: Purpose, scheme: Scheme, key: Option<Key>, signature: Bytes)
      returns (verdict: Verdict)
      requires Valid()
      modifies this`held, this`dig, this`owner, provider
      ensures Valid() && View() == ConsumeRunning(old(View()), VerifyChannel(purpose, isRequester))
      ensures verdict == NoVerificationKey ==> key.None?
      ensures var role := Digest(ChannelOf(LastCovered(purpose, !isRequester)));
              && dig == old(dig) - {role}
              && (verdict == NoTranscript ==> !provider.reliable || role !in old(dig))
              && (verdict == Accepted || verdict == Rejected ==>
                    && key.Some? && role in old(dig)
                    && (verdict == Accepted
                        <==> scheme.verify(key.value, provider.algo.hash(old(dig)[role]), signature)))
    {
      SignatureCovers(setup, Recorded(Com(), EmptyBuffers), purpose, !isRequester);
      var ok, digest := Consume(SignedChannel(purpose, !isRequester));
      if !ok {
        return NoTranscript;
      }
      if key.None? {
        return NoVerificationKey;
      }
      verdict := if scheme.verify(key.value, digest, signature) then Accepted else Rejected;
    }

    method FinalAndFree(h: Handle) returns (ok: bool, digest: Bytes)
      requires provider.Valid() && h in provider.ctx && provider.ctx[h].Absorbing?
      modifies provider
      ensures provider.Valid() && provider.ctx == old(provider.ctx) - {h}
      ensures ok ==> digest == provider.algo.hash(old(provider.ctx)[h].data)
      ensures provider.reliable ==> ok
    {
      ok, digest := provider.Final(Some(h));
      provider.Free(h);
    }
  }

  /** The handle that overwriting the backup pointer would lose. */
  ghost function LostBackup(held: map<Role, Handle>): (r: set<Handle>)
  {
    if ThBackup in held then {held[ThBackup]} else {}
  }

  lemma SubtractTwice(dig: map<Role, Bytes>, x: set<Role>, y: set<Role>)
    ensures dig - x - y == dig - (x + y)
  {
  }

  lemma NothingDropped(dig: map<Role, Bytes>)
    ensures dig - Dropped({}) == dig
  {
  }

  lemma DroppedBoth(dig: map<Role, Bytes>)
    ensures dig - {Th} - {ThBackup} == dig - {Th, ThBackup}
  {
  }

  lemma RestoredBackup(dig: map<Role, Bytes>)
    requires Th in dig && ThBackup in dig
    ensures (dig - {Th})[Th := dig[ThBackup]] - {ThBackup} == dig[Th := dig[ThBackup]] - {ThBackup}
  {
  }

  lemma FinishStep(lim: Limits, setup: Setup, s: Running, m: Bytes, outcome: Outcome)
    ensures StepRunning(lim, setup, s, Append(F, m), outcome) == AppendFinish(setup, s, m, outcome)
  {
  }

  /** How the first append to F ends, in terms of the context it started. */
  lemma FinishEnds(setup: Setup, s: Running, m: Bytes, outcome: Outcome)
    requires !s.fInit
    ensures var started := Started(s.dig, Prelude(setup, s.com));
            AppendFinish(setup, s, m, outcome)
            == match outcome
               case KFailed => s
               case CertFailed => s.(dig := started)
               case BackupFailed => s.(dig := started - {ThBackup})
               case UpdateFailed => s.(dig := started[ThBackup := started[Th]] - {Th})
               case Done =>
                 s.(dig := started[ThBackup := started[Th]][Th := started[Th] + (MutualPart(setup, s.com) + m)],
                    fInit := true)
  {
    JoinThree(Started(s.dig, Prelude(setup, s.com))[Th], MutualPart(setup, s.com), m);
  }

  lemma BackupReplaced(dig: map<Role, Bytes>)
    requires Th in dig
    ensures (dig - {ThBackup})[ThBackup := dig[Th]] == dig[ThBackup := dig[Th]]
  {
  }

  lemma ExtendedTwice(dig: map<Role, Bytes>, role: Role, m: Bytes, m': Bytes)
    requires role in dig
    ensures var x := dig[role];
            && dig[role := x + m][role := x + m + m'] == dig[role := x + (m + m')]
            && dig[role := x + m] - {role} == dig - {role}
  {
    assert dig[role] + m + m' == dig[role] + (m + m');
  }

  lemma SameContents(dig: map<Role, Bytes>, role: Role)
    requires role in dig
    ensures dig == dig[role := dig[role] + []]
  {
    assert dig[role] + [] == dig[role];
  }
}
