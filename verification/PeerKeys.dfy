/**
 Public-key contexts in challenge verification.  A context must be used and released under the
 algorithm that created it; the provider refuses anything else by precondition.
 */
module PeerKeys {
  import opened Codec
  import opened Transcript
  import opened Digests

  /** The post-quantum algorithm, when one is negotiated, takes precedence over the classic one. */
  datatype KeyKind = Classic(alg: nat) | Pqc(alg: nat)

  datatype PublicKey = PublicKey(kind: KeyKind, key: Bytes)

  datatype AsymAlgos = AsymAlgos(base: nat, pqc: nat, reqBase: nat, reqPqc: nat)

  /** The kind of key the given role verifies its peer with. */
  function KindFor(algos: AsymAlgos, isRequester: bool): (k: KeyKind)
  {
    if isRequester then if algos.pqc != 0 then Pqc(algos.pqc) else Classic(algos.base)
    else if algos.reqPqc != 0 then Pqc(algos.reqPqc) else Classic(algos.reqBase)
  }

  /**
   A Requester verifies with the algorithms selected for the Responder, a Responder with those selected
   for the Requester, and a post-quantum one goes before a classic one.
   */
  lemma KindForRole(base: nat, pqc: nat, reqBase: nat, reqPqc: nat)
    ensures KindFor(AsymAlgos(base, 0, reqBase, reqPqc), true) == Classic(base)
    ensures KindFor(AsymAlgos(base, pqc, reqBase, 0), false) == Classic(reqBase)
    ensures pqc != 0 ==> KindFor(AsymAlgos(base, pqc, reqBase, reqPqc), true) == Pqc(pqc)
    ensures reqPqc != 0 ==> KindFor(AsymAlgos(base, pqc, reqBase, reqPqc), false) == Pqc(reqPqc)
  {
  }

  /** Negotiation settles on exactly one of the two algorithms a role is verified with. */
  predicate OneNegotiated(algos: AsymAlgos, isRequester: bool)
  {
    if isRequester then (algos.base == 0) != (algos.pqc == 0)
    else (algos.reqBase == 0) != (algos.reqPqc == 0)
  }

  /** ENDPOINT_INFO numbers the raw-key slot with four bits. */
  const ENDPOINT_RAW_SLOT := 0xF

  /** The kind of key ENDPOINT_INFO verification asks for; from a certificate it is always classic. */
  function EndpointKind(algos: AsymAlgos, isRequester: bool, recorded: bool, slot: nat): (k: KeyKind)
  {
    if recorded && slot != ENDPOINT_RAW_SLOT then Classic(if isRequester then algos.base else algos.reqBase)
    else KindFor(algos, isRequester)
  }

  /**
   There is a key to verify ENDPOINT_INFO with, and it is the negotiated kind, except in the recorded
   build with a certificate slot and a post-quantum algorithm.
   */
  lemma EndpointKindExact(algos: AsymAlgos, isRequester: bool, recorded: bool, slot: nat)
    requires OneNegotiated(algos, isRequester)
    ensures var k := EndpointKind(algos, isRequester, recorded, slot);
            && (k.alg != 0 <==> !(recorded && slot != ENDPOINT_RAW_SLOT && KindFor(algos, isRequester).Pqc?))
            && (k.alg != 0 ==> k == KindFor(algos, isRequester))
  {
  }

  /** With algorithm 1 of the post-quantum family and slot 0, CHALLENGE has a key and ENDPOINT_INFO has none. */
  lemma PqcEndpointHasNoKey()
    ensures var algos := AsymAlgos(0, 1, 0, 0);
            && OneNegotiated(algos, true) && KindFor(algos, true) == Pqc(1)
            && EndpointKind(algos, true, true, 0) == Classic(0) && EndpointKind(algos, true, false, 0) == Pqc(1)
  {
  }

  class KeyProvider {
    const reliable: bool
    var ctx: map<Handle, PublicKey>
    var next: Handle

    ghost predicate Valid()
      reads this
    {
      forall h :: h in ctx ==> h < next
    }

    constructor (reliable: bool)
      ensures Valid() && this.reliable == reliable && ctx == map[]
    {
      this.reliable := reliable;
      ctx, next := map[], 0;
    }

    /** Parses a public key, from DER or from a certificate.  There is no parser for algorithm 0. */
    method Create(kind: KeyKind, key: Bytes) returns (r: Option<Handle>)
      requires Valid()
      modifies this
      ensures Valid()
      ensures r.None? ==> (!reliable || kind.alg == 0) && ctx == old(ctx)
      ensures kind.alg == 0 ==> r.None?
      ensures r.Some? ==> r.value !in old(ctx) && ctx == old(ctx)[r.value := PublicKey(kind, key)]
    {
      var ok: bool := *;
      if kind.alg == 0 || (!ok && !reliable) {
        return None;
      }
      r := Some(next);
      ctx := ctx[next := PublicKey(kind, key)];
      next := next + 1;
    }

    /** accepts says which keys the signature at hand verifies under. */
    method Verify(kind: KeyKind, h: Handle, accepts: Bytes -> bool) returns (ok: bool)
      requires h in ctx && ctx[h].kind == kind
      ensures ok == accepts(ctx[h].key)
    {
      ok := accepts(ctx[h].key);
    }

    method Free(kind: KeyKind, h: Handle)
      requires Valid() && h in ctx && ctx[h].kind == kind
      modifies this
      ensures Valid() && ctx == old(ctx) - {h}
    {
      ctx := ctx - {h};
    }
  }

  datatype Verdict = Verified | Refuted | NoKey

  class PeerKeyStore {
    const recorded: bool
    const isRequester: bool
    const keys: KeyProvider
    var algos: AsymAlgos
    var leaf: seq<Option<Handle>>

    /** Every cached leaf key is live, its own, and of the kind this role verifies with. */
    ghost predicate Valid()
      reads this, keys
    {
      && keys.Valid() && |leaf| == SLOT_COUNT
      && (forall i :: 0 <= i < |leaf| && leaf[i].Some? ==> Usable(keys.ctx, leaf[i].value))
      && (forall i, j :: 0 <= i < j < |leaf| ==> Held(leaf[i]) !! Held(leaf[j]))
      && (recorded ==> forall i :: 0 <= i < |leaf| ==> leaf[i].None?)
    }

    ghost predicate Usable(ctx: map<Handle, PublicKey>, h: Handle)
      reads this
    {
      h in ctx && ctx[h].kind == KindFor(algos, isRequester)
    }

    constructor (recorded: bool, isRequester: bool, keys: KeyProvider, algos: AsymAlgos)
      requires keys.Valid()
      ensures Valid() && this.keys == keys
    {
      this.recorded, this.isRequester, this.keys, this.algos := recorded, isRequester, keys, algos;
      leaf := seq(SLOT_COUNT, i => None);
    }

    /** Releases the cached leaf key of a slot under the algorithm it was parsed with. */
    method FreeLeaf(slot: nat)
      requires Valid() && slot < SLOT_COUNT
      modifies this`leaf, keys
      ensures Valid() && leaf == old(leaf)[slot := None]
      ensures keys.ctx == old(keys.ctx) - Held(old(leaf)[slot])
    {
      var h := leaf[slot];
      if h.None? {
        return;
      }
      if isRequester {
        if algos.pqc != 0 {
          keys.Free(Pqc(algos.pqc), h.value);
        } else {
          keys.Free(Classic(algos.base), h.value);
        }
      } else if algos.reqPqc != 0 {
        keys.Free(Pqc(algos.reqPqc), h.value);
      } else {
        keys.Free(Classic(algos.reqBase), h.value);
      }
      leaf := leaf[slot := None];
    }

    /** Replaces the cached leaf key after a new certificate chain was accepted. */
    method CacheLeaf(slot: nat, key: Bytes) returns (ok: bool)
      requires Valid() && slot < SLOT_COUNT && !recorded
      modifies this`leaf, keys
      ensures Valid()
      ensures forall i :: 0 <= i < SLOT_COUNT && i != slot ==> leaf[i] == old(leaf)[i]
      ensures (ok <==> leaf[slot].Some?) && (keys.reliable && KindFor(algos, isRequester).alg != 0 ==> ok)
      ensures ok ==> keys.ctx[leaf[slot].value].key == key
      ensures keys.ctx - Held(leaf[slot]) == old(keys.ctx) - Held(old(leaf)[slot])
    {
      FreeLeaf(slot);
      ghost var ctx := keys.ctx;
      var kind;
      if isRequester {
        kind := if algos.pqc != 0 then Pqc(algos.pqc) else Classic(algos.base);
      } else {
        kind := if algos.reqPqc != 0 then Pqc(algos.reqPqc) else Classic(algos.reqBase);
      }
      var r := keys.Create(kind, key);
      ok := r.Some?;
      leaf := leaf[slot := r];
      assert keys.ctx - Held(r) == ctx;
    }

    /**
     Verifies a CHALLENGE_AUTH signature.  Whatever happens, exactly the live keys of before are
     live after: a key parsed for the call is released under its own algorithm, and a cached leaf
     key is not released.  The verdict is that of the signature under the peer's key.
     */
    method VerifyChallenge(slot: nat, rawKey: Bytes, certKey: Bytes, accepts: Bytes -> bool)
      returns (verdict: Verdict)
      requires Valid() && (slot < SLOT_COUNT || slot == PUBLIC_KEY_SLOT)
      requires !recorded && slot != PUBLIC_KEY_SLOT ==> leaf[slot].Some?
      modifies keys
      ensures Valid() && keys.ctx == old(keys.ctx)
      ensures verdict == NoKey ==> && (!keys.reliable || KindFor(algos, isRequester).alg == 0)
                                   && (slot == PUBLIC_KEY_SLOT || recorded)
      ensures verdict != NoKey && slot == PUBLIC_KEY_SLOT ==> (verdict == Verified <==> accepts(rawKey))
      ensures verdict != NoKey && slot != PUBLIC_KEY_SLOT ==>
                (verdict == Verified
                 <==> accepts(if recorded then certKey else old(keys.ctx)[leaf[slot].value].key))
    {
      var key := if slot == PUBLIC_KEY_SLOT then rawKey else certKey;
      var r: Option<Handle>;
      if slot == PUBLIC_KEY_SLOT || recorded {
        if isRequester {
          if algos.pqc != 0 {
            r := keys.Create(Pqc(algos.pqc), key);
          } else {
            r := keys.Create(Classic(algos.base), key);
          }
        } else if algos.reqPqc != 0 {
          r := keys.Create(Pqc(algos.reqPqc), key);
        } else {
          r := keys.Create(Classic(algos.reqBase), key);
        }
        if r.None? {
          return NoKey;
        }
      } else {
        r := leaf[slot];
      }
      var ok := VerifyAndRelease(slot, r.value, accepts);
      assert slot == PUBLIC_KEY_SLOT || recorded ==> keys.ctx == old(keys.ctx);
      verdict := if ok then Verified else Refuted;
    }

    /** The four verification branches, each with its own conditional release. */
    method VerifyAndRelease(slot: nat, h: Handle, accepts: Bytes -> bool) returns (ok: bool)
      requires keys.Valid() && Usable(keys.ctx, h)
      modifies keys
      ensures keys.Valid() && ok == accepts(old(keys.ctx)[h].key)
      ensures keys.ctx == if slot == PUBLIC_KEY_SLOT || recorded then old(keys.ctx) - {h} else old(keys.ctx)
    {
      if isRequester {
        if algos.pqc != 0 {
          ok := keys.Verify(Pqc(algos.pqc), h, accepts);
          if recorded || slot == PUBLIC_KEY_SLOT {
            keys.Free(Pqc(algos.pqc), h);
          }
        } else {
          ok := keys.Verify(Classic(algos.base), h, accepts);
          if recorded || slot == PUBLIC_KEY_SLOT {
            keys.Free(Classic(algos.base), h);
          }
        }
      } else if algos.reqPqc != 0 {
        ok := keys.Verify(Pqc(algos.reqPqc), h, accepts);
        if recorded || slot == PUBLIC_KEY_SLOT {
          keys.Free(Pqc(algos.reqPqc), h);
        }
      } else {
        ok := keys.Verify(Classic(algos.reqBase), h, accepts);
        if recorded || slot == PUBLIC_KEY_SLOT {
          keys.Free(Classic(algos.reqBase), h);
        }
      }
    }

    /**
     Verifies an ENDPOINT_INFO signature.  As with CHALLENGE_AUTH, the live keys stay the same on every
     path; but a reliable provider finds no key exactly where `EndpointKindExact` says there is none.
     */
    method VerifyEndpointInfo(slot: nat, rawKey: Bytes, certKey: Bytes, accepts: Bytes -> bool)
      returns (verdict: Verdict)
      requires Valid() && (slot < SLOT_COUNT || slot == ENDPOINT_RAW_SLOT)
      requires OneNegotiated(algos, isRequester)
      requires !recorded && slot != ENDPOINT_RAW_SLOT ==> leaf[slot].Some?
      modifies keys
      ensures Valid() && keys.ctx == old(keys.ctx)
      ensures EndpointKind(algos, isRequester, recorded, slot).alg == 0 ==> verdict == NoKey
      ensures verdict == NoKey ==>
                !keys.reliable || EndpointKind(algos, isRequester, recorded, slot).alg == 0
      ensures verdict != NoKey && slot == ENDPOINT_RAW_SLOT ==> (verdict == Verified <==> accepts(rawKey))
      ensures verdict != NoKey && slot != ENDPOINT_RAW_SLOT ==>
                (verdict == Verified
                 <==> accepts(if recorded then certKey else old(keys.ctx)[leaf[slot].value].key))
    {
      EndpointKindExact(algos, isRequester, recorded, slot);
      var r: Option<Handle> := None;
      if slot == ENDPOINT_RAW_SLOT {
        r := ParseEndpointRaw(rawKey);
      } else if recorded {
        if isRequester {
          r := keys.Create(Classic(algos.base), certKey);
        } else {
          r := keys.Create(Classic(algos.reqBase), certKey);
        }
      } else {
        r := leaf[slot];
      }
      if r.None? {
        return NoKey;
      }
      var ok := VerifyEndpointKey(slot, r.value, accepts);
      assert slot == ENDPOINT_RAW_SLOT || recorded ==> keys.ctx == old(keys.ctx);
      verdict := if ok then Verified else Refuted;
    }

    method ParseEndpointRaw(rawKey: Bytes) returns (r: Option<Handle>)
      requires keys.Valid() && OneNegotiated(algos, isRequester)
      modifies keys
      ensures keys.Valid()
      ensures r.None? ==> !keys.reliable && keys.ctx == old(keys.ctx)
      ensures r.Some? ==> r.value !in old(keys.ctx)
                          && keys.ctx == old(keys.ctx)[r.value := PublicKey(KindFor(algos, isRequester), rawKey)]
    {
      r := None;
      if isRequester {
        if algos.base != 0 {
          r := keys.Create(Classic(algos.base), rawKey);
        }
        if algos.pqc != 0 {
          r := keys.Create(Pqc(algos.pqc), rawKey);
        }
      } else {
        if algos.reqBase != 0 {
          r := keys.Create(Classic(algos.reqBase), rawKey);
        }
        if algos.reqPqc != 0 {
          r := keys.Create(Pqc(algos.reqPqc), rawKey);
        }
      }
    }

    /** Verifies under the classic algorithm and then under the post-quantum one, whichever is set. */
    method VerifyEndpointKey(slot: nat, h: Handle, accepts: Bytes -> bool) returns (ok: bool)
      requires keys.Valid() && Usable(keys.ctx, h) && OneNegotiated(algos, isRequester)
      modifies keys
      ensures keys.Valid() && ok == accepts(old(keys.ctx)[h].key)
      ensures keys.ctx == if slot == ENDPOINT_RAW_SLOT || recorded then old(keys.ctx) - {h} else old(keys.ctx)
    {
      ok := true;
      if isRequester {
        if algos.base != 0 {
          ok := VerifyOnce(Classic(algos.base), slot, h, accepts);
        }
        if algos.pqc != 0 {
          ok := VerifyOnce(Pqc(algos.pqc), slot, h, accepts);
        }
      } else {
        if algos.reqBase != 0 {
          ok := VerifyOnce(Classic(algos.reqBase), slot, h, accepts);
        }
        if algos.reqPqc != 0 {
          ok := VerifyOnce(Pqc(algos.reqPqc), slot, h, accepts);
        }
      }
    }

    method VerifyOnce(kind: KeyKind, slot: nat, h: Handle, accepts: Bytes -> bool) returns (ok: bool)
      requires keys.Valid() && h in keys.ctx && keys.ctx[h].kind == kind
      modifies keys
      ensures keys.Valid() && ok == accepts(old(keys.ctx)[h].key)
      ensures keys.ctx == if slot == ENDPOINT_RAW_SLOT || recorded then old(keys.ctx) - {h} else old(keys.ctx)
    {
      ok := keys.Verify(kind, h, accepts);
      if recorded || slot == ENDPOINT_RAW_SLOT {
        keys.Free(kind, h);
      }
    }

    /**
     Starts a new connection.  Cached keys are released while the algorithms they were parsed
     under are still known, and only then are the algorithms replaced.
     */
    method ResetConnection(negotiated: AsymAlgos)
      requires Valid()
      modifies this`leaf, this`algos, keys
      ensures Valid() && algos == negotiated && forall i :: 0 <= i < SLOT_COUNT ==> leaf[i].None?
      ensures forall h :: h in keys.ctx <==> h in old(keys.ctx) && Some(h) !in old(leaf)
      ensures forall h :: h in keys.ctx ==> keys.ctx[h] == old(keys.ctx)[h]
    {
      var slot := 0;
      while slot < SLOT_COUNT
        invariant 0 <= slot <= SLOT_COUNT && Valid()
        invariant forall i :: 0 <= i < slot ==> leaf[i].None?
        invariant forall i :: slot <= i < SLOT_COUNT ==> leaf[i] == old(leaf)[i]
        invariant forall h :: h in keys.ctx <==> h in old(keys.ctx) && Some(h) !in old(leaf)[..slot]
        invariant forall h :: h in keys.ctx ==> keys.ctx[h] == old(keys.ctx)[h]
      {
        assert old(leaf)[..slot + 1] == old(leaf)[..slot] + [old(leaf)[slot]];
        FreeLeaf(slot);
        slot := slot + 1;
      }
      assert old(leaf)[..slot] == old(leaf);
      algos := negotiated;
    }
  }
}
