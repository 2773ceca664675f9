/**
 The cryptography provider's hash contexts.  A context is a handle: allocated, initialised,
 updated, duplicated, finalised and freed.  Every call that may fail in the provider fails
 here nondeterministically, unless the provider is reliable.  Freeing a handle that is not live is
 ruled out by precondition.
 */
module Digests {
  import opened Codec
  import opened Transcript

  type Handle = nat

  datatype State = Raw | Absorbing(data: Bytes) | Spent

  /** A hash function with a fixed output size. */
  datatype HashAlgo = HashAlgo(hash: Bytes -> Bytes, size: nat)
  {
    ghost predicate Valid()
    {
      forall b: Bytes :: |hash(b)| == size
    }
  }

  function Held(h: Option<Handle>): (r: set<Handle>)
  {
    if h.Some? then {h.value} else {}
  }

  class Provider {
    const algo: HashAlgo
    const reliable: bool
    var ctx: map<Handle, State>
    var next: Handle

    ghost predicate Valid()
      reads this
    {
      algo.Valid() && forall h :: h in ctx ==> h < next
    }

    constructor (algo: HashAlgo, reliable: bool)
      requires algo.Valid()
      ensures Valid() && this.algo == algo && this.reliable == reliable && ctx == map[]
    {
      this.algo, this.reliable := algo, reliable;
      ctx, next := map[], 0;
    }

    method New() returns (r: Option<Handle>)
      requires Valid()
      modifies this
      ensures Valid()
      ensures r.None? ==> !reliable && ctx == old(ctx)
      ensures r.Some? ==> r.value !in old(ctx) && ctx == old(ctx)[r.value := Raw]
    {
      var ok: bool := *;
      if !ok && !reliable {
        return None;
      }
      r := Some(next);
      ctx := ctx[next := Raw];
      next := next + 1;
    }

    method Init(h: Handle) returns (ok: bool)
      requires Valid() && h in ctx
      modifies this
      ensures Valid()
      ensures ctx == old(ctx)[h := if ok then Absorbing([]) else Spent]
      ensures reliable ==> ok
    {
      ok := *;
      ok := ok || reliable;
      ctx := ctx[h := if ok then Absorbing([]) else Spent];
    }

    /** A missing context is refused; a failed update leaves the context unusable. */
    method Update(h: Option<Handle>, m: Bytes) returns (ok: bool)
      requires Valid() && (h.Some? ==> h.value in ctx && ctx[h.value].Absorbing?)
      modifies this
      ensures Valid()
      ensures h.None? ==> !ok && ctx == old(ctx)
      ensures h.Some? ==>
                ctx == old(ctx)[h.value := if ok then Absorbing(old(ctx)[h.value].data + m) else Spent]
      ensures reliable && h.Some? ==> ok
    {
      if h.None? {
        return false;
      }
      ok := *;
      ok := ok || reliable;
      ctx := ctx[h.value := if ok then Absorbing(ctx[h.value].data + m) else Spent];
    }

    method Duplicate(source: Option<Handle>, target: Handle) returns (ok: bool)
      requires Valid() && target in ctx && source != Some(target)
      requires source.Some? ==> source.value in ctx && ctx[source.value].Absorbing?
      modifies this
      ensures Valid()
      ensures source.None? ==> !ok
      ensures ok ==> ctx == old(ctx)[target := old(ctx)[source.value]]
      ensures !ok ==> ctx == old(ctx)[target := Spent]
      ensures reliable && source.Some? ==> ok
    {
      ok := *;
      ok := (ok || reliable) && source.Some?;
      ctx := ctx[target := if ok then ctx[source.value] else Spent];
    }

    /** Finalising consumes the context; it can only be freed afterwards. */
    method Final(h: Option<Handle>) returns (ok: bool, digest: Bytes)
      requires Valid() && (h.Some? ==> h.value in ctx && ctx[h.value].Absorbing?)
      modifies this
      ensures Valid()
      ensures h.None? ==> !ok && ctx == old(ctx)
      ensures h.Some? ==> ctx == old(ctx)[h.value := Spent]
      ensures ok ==> h.Some? && digest == algo.hash(old(ctx)[h.value].data)
      ensures reliable && h.Some? ==> ok
    {
      digest := [];
      if h.None? {
        return false, digest;
      }
      ok := *;
      ok := ok || reliable;
      if ok {
        digest := algo.hash(ctx[h.value].data);
      }
      ctx := ctx[h.value := Spent];
    }

    method Free(h: Handle)
      requires Valid() && h in ctx
      modifies this
      ensures Valid() && ctx == old(ctx) - {h}
    {
      ctx := ctx - {h};
    }

    /** One-shot hashing. */
    method HashAll(m: Bytes) returns (ok: bool, digest: Bytes)
      ensures ok ==> digest == algo.hash(m)
      ensures reliable ==> ok
    {
      ok := *;
      ok := ok || reliable;
      digest := if ok then algo.hash(m) else [];
    }
  }
}
