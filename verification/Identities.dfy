/**
 Which certificate chain or raw public key stands for the Responder, and which for the
 Requester, as each of the two roles finds it in its own context.
 */
module Identities {
  import opened Codec
  import opened Transcript

  /** NotUsed: the transcript has no such part.  Missing: a raw key was never provisioned. */
  datatype Lookup = NotUsed | Missing | Found(value: Bytes)

  datatype Slots = Slots(local: nat, peer: nat)
  {
    predicate Valid()
    {
      ValidSlot(local) && ValidSlot(peer)
    }
  }

  predicate ValidSlot(slot: nat)
  {
    slot < SLOT_COUNT || slot == PUBLIC_KEY_SLOT
  }

  /** What an endpoint is provisioned with; the recorded form keeps the peer's whole chains. */
  datatype Identity = Identity(localChain: seq<Bytes>, peerChain: seq<Bytes>,
                               localKey: Bytes, peerKey: Bytes)
  {
    predicate Valid()
    {
      |localChain| == SLOT_COUNT && |peerChain| == SLOT_COUNT
    }

    function Local(slots: Slots): (r: Lookup)
      requires Valid() && slots.Valid()
    {
      if slots.local == PUBLIC_KEY_SLOT then RawKey(localKey) else Found(localChain[slots.local])
    }

    function Peer(slots: Slots): (r: Lookup)
      requires Valid() && slots.Valid()
    {
      if slots.peer == PUBLIC_KEY_SLOT then RawKey(peerKey) else Found(peerChain[slots.peer])
    }
  }

  /** The running form keeps only the hash of each of the peer's chains. */
  datatype HashedIdentity = HashedIdentity(localChain: seq<Bytes>, peerChainHash: seq<Bytes>,
                                           localKey: Bytes, peerKey: Bytes)
  {
    predicate Valid()
    {
      |localChain| == SLOT_COUNT && |peerChainHash| == SLOT_COUNT
    }

    function Local(slots: Slots, h: Bytes -> Bytes): (r: Lookup)
      requires Valid() && slots.Valid()
    {
      HashOf(if slots.local == PUBLIC_KEY_SLOT then RawKey(localKey) else Found(localChain[slots.local]), h)
    }

    function Peer(slots: Slots, h: Bytes -> Bytes): (r: Lookup)
      requires Valid() && slots.Valid()
    {
      if slots.peer == PUBLIC_KEY_SLOT then HashOf(RawKey(peerKey), h)
      else Found(peerChainHash[slots.peer])
    }
  }

  function RawKey(key: Bytes): (r: Lookup)
  {
    if key == [] then Missing else Found(key)
  }

  function HashOf(x: Lookup, h: Bytes -> Bytes): (r: Lookup)
  {
    if x.Found? then Found(h(x.value)) else x
  }

  /** The Responder's chain: the peer's for a Requester, the local one for a Responder. */
  function ResponderChain(id: Identity, slots: Slots, usePsk: bool, isRequester: bool): (r: Lookup)
    requires id.Valid() && slots.Valid()
  {
    if usePsk then NotUsed else if isRequester then id.Peer(slots) else id.Local(slots)
  }

  /** The Requester's chain, part of the transcript only under mutual authentication. */
  function RequesterChain(id: Identity, slots: Slots, usePsk: bool, mutAuth: nat, isRequester: bool): (r: Lookup)
    requires id.Valid() && slots.Valid()
  {
    if usePsk || mutAuth == 0 then NotUsed
    else if isRequester then id.Local(slots) else id.Peer(slots)
  }

  function ResponderDigest(id: HashedIdentity, slots: Slots, usePsk: bool, isRequester: bool,
                           h: Bytes -> Bytes): (r: Lookup)
    requires id.Valid() && slots.Valid()
  {
    if usePsk then NotUsed else if isRequester then id.Peer(slots, h) else id.Local(slots, h)
  }

  function RequesterDigest(id: HashedIdentity, slots: Slots, usePsk: bool, mutAuth: nat,
                           isRequester: bool, h: Bytes -> Bytes): (r: Lookup)
    requires id.Valid() && slots.Valid()
  {
    if usePsk || mutAuth == 0 then NotUsed
    else if isRequester then id.Local(slots, h) else id.Peer(slots, h)
  }

  function AsMutual(x: Lookup): (r: Option<Bytes>)
  {
    if x.Found? then Some(x.value) else None
  }

  function AsDigest(x: Lookup): (r: Bytes)
  {
    if x.Found? then x.value else []
  }

  /** Each side's peer is the other side, in the slots the two sessions use. */
  predicate Mirrored(x: Identity, xs: Slots, y: Identity, ys: Slots)
    requires x.Valid() && xs.Valid() && y.Valid() && ys.Valid()
  {
    && xs.local == ys.peer && xs.peer == ys.local
    && x.localKey == y.peerKey && x.peerKey == y.localKey
    && (xs.local < SLOT_COUNT ==> x.localChain[xs.local] == y.peerChain[ys.peer])
    && (xs.peer < SLOT_COUNT ==> x.peerChain[xs.peer] == y.localChain[ys.local])
  }

  /** The hashed identity stores the hash of every chain of the identity. */
  predicate StoresHashes(x: HashedIdentity, y: Identity, h: Bytes -> Bytes)
    requires x.Valid() && y.Valid()
  {
    && x.localChain == y.localChain && x.localKey == y.localKey && x.peerKey == y.peerKey
    && forall i :: 0 <= i < SLOT_COUNT ==> x.peerChainHash[i] == h(y.peerChain[i])
  }

  /** The two roles take opposite branches and arrive at the same chains. */
  lemma RolesFindSameChains(x: Identity, xs: Slots, y: Identity, ys: Slots, usePsk: bool, mutAuth: nat)
    requires x.Valid() && xs.Valid() && y.Valid() && ys.Valid() && Mirrored(x, xs, y, ys)
    ensures ResponderChain(x, xs, usePsk, true) == ResponderChain(y, ys, usePsk, false)
    ensures RequesterChain(x, xs, usePsk, mutAuth, true) == RequesterChain(y, ys, usePsk, mutAuth, false)
  {
  }

  /** Stored hashes stand for the chains they were taken from. */
  lemma StoredHashesSuffice(x: HashedIdentity, y: Identity, slots: Slots, usePsk: bool, mutAuth: nat,
                            isRequester: bool, h: Bytes -> Bytes)
    requires x.Valid() && y.Valid() && slots.Valid() && StoresHashes(x, y, h)
    ensures ResponderDigest(x, slots, usePsk, isRequester, h)
         == HashOf(ResponderChain(y, slots, usePsk, isRequester), h)
    ensures RequesterDigest(x, slots, usePsk, mutAuth, isRequester, h)
         == HashOf(RequesterChain(y, slots, usePsk, mutAuth, isRequester), h)
  {
  }

  /** Replacing a chain on one side and its hash on the other keeps the two identities alike. */
  lemma StoredHashesStay(x: HashedIdentity, y: Identity, h: Bytes -> Bytes, slot: nat, chain: Bytes)
    requires x.Valid() && y.Valid() && StoresHashes(x, y, h) && slot < SLOT_COUNT
    ensures var x' := x.(peerChainHash := x.peerChainHash[slot := h(chain)]);
            var y' := y.(peerChain := y.peerChain[slot := chain]);
            x'.Valid() && y'.Valid() && StoresHashes(x', y', h)
  {
  }

  // Whose certificate it is.

  /** What an endpoint presents: the chain in a slot of its own, or its own raw key. */
  function OwnCertificate(id: Identity, slot: nat): (r: Lookup)
    requires id.Valid() && ValidSlot(slot)
  {
    if slot != 0xFF then Found(id.localChain[slot])
    else if id.localKey == [] then Missing else Found(id.localKey)
  }

  /** What an endpoint holds of its peer: the chain in the peer's slot, or the peer's raw key. */
  function PeerCertificate(id: Identity, slot: nat): (r: Lookup)
    requires id.Valid() && ValidSlot(slot)
  {
    if slot != 0xFF then Found(id.peerChain[slot])
    else if id.peerKey == [] then Missing else Found(id.peerKey)
  }

  /**
   The Responder's chain is the peer's for a Requester and its own for a Responder; the Requester's
   chain, under mutual authentication, is the other way round.
   */
  lemma WhoseChain(id: Identity, slots: Slots, usePsk: bool, mutAuth: nat, isRequester: bool)
    requires id.Valid() && slots.Valid()
    ensures usePsk ==> ResponderChain(id, slots, usePsk, isRequester) == NotUsed
    ensures !usePsk ==> ResponderChain(id, slots, usePsk, true) == PeerCertificate(id, slots.peer)
                        && ResponderChain(id, slots, usePsk, false) == OwnCertificate(id, slots.local)
    ensures usePsk || mutAuth == 0 ==> RequesterChain(id, slots, usePsk, mutAuth, isRequester) == NotUsed
    ensures !usePsk && mutAuth != 0 ==>
              && RequesterChain(id, slots, usePsk, mutAuth, true) == OwnCertificate(id, slots.local)
              && RequesterChain(id, slots, usePsk, mutAuth, false) == PeerCertificate(id, slots.peer)
  {
  }

  /** What each side holds of its peer is what the peer presents. */
  lemma MirroredCertificates(x: Identity, xs: Slots, y: Identity, ys: Slots)
    requires x.Valid() && xs.Valid() && y.Valid() && ys.Valid() && Mirrored(x, xs, y, ys)
    ensures PeerCertificate(x, xs.peer) == OwnCertificate(y, ys.local)
    ensures PeerCertificate(y, ys.peer) == OwnCertificate(x, xs.local)
  {
  }
}
