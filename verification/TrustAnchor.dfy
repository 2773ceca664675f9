/**
 The search for the provisioned root certificate that a peer's certificate chain hangs from.
 A provisioned root is its bytes; a root of size zero is an empty sequence.
 */
module TrustAnchor {
  import opened Codec
  import opened Transcript
  import opened Digests

  /**
   What the certificate library says about the chain: its first certificate, the bytes that follow it
   in the chain, and two checks.
   */
  datatype Chain = Chain(rootHash: Bytes, first: Option<Bytes>, after: Bytes, isRoot: Bytes -> bool,
                         issuedBy: (Bytes, Bytes) -> bool)

  datatype Result = Refused | NoAnchorNeeded | Anchored(index: nat)

  /** Where the search stops: at a matching root, at a root of size zero, or nowhere. */
  datatype Stop = Match(index: nat) | EmptyRoot(index: nat) | Mismatch

  predicate Provisioned(roots: seq<Option<Bytes>>, i: nat)
  {
    i < |roots| && roots[i].Some?
  }

  function Search(roots: seq<Option<Bytes>>, h: Bytes -> Bytes, rootHash: Bytes, i: nat): (r: Stop)
    requires Provisioned(roots, i)
    decreases |roots| - i
  {
    if roots[i].value == [] then EmptyRoot(i)
    else if h(roots[i].value) == rootHash then Match(i)
    else if Provisioned(roots, i + 1) then Search(roots, h, rootHash, i + 1)
    else Mismatch
  }

  /**
   The chain starts with the anchor itself, or its first certificate is issued by the anchor.  As many
   bytes are compared as the anchor has, whatever the size of the first certificate.
   */
  predicate HangsFrom(chain: Chain, root: Bytes)
  {
    && chain.first.Some?
    && var first := chain.first.value;
       if chain.isRoot(first) then root <= first + chain.after else chain.issuedBy(first, root)
  }

  function Authority(roots: seq<Option<Bytes>>, h: Bytes -> Bytes, chain: Chain): (r: Result)
    requires |roots| > 0
  {
    if roots[0].None? || roots[0].value == [] then NoAnchorNeeded
    else
      var stop := Search(roots, h, chain.rootHash, 0);
      SearchStaysInside(roots, h, chain.rootHash, 0);
      if stop.Mismatch? || !HangsFrom(chain, roots[stop.index].value) then Refused
      else Anchored(stop.index)
  }

  lemma {:induction false} SearchStaysInside(roots: seq<Option<Bytes>>, h: Bytes -> Bytes, rootHash: Bytes, i: nat)
    requires Provisioned(roots, i)
    ensures var r := Search(roots, h, rootHash, i);
            !r.Mismatch? ==> i <= r.index && Provisioned(roots, r.index)
    decreases |roots| - i
  {
    if Provisioned(roots, i + 1) {
      SearchStaysInside(roots, h, rootHash, i + 1);
    }
  }

  /** The search in the context: one root after the other, hashing as it goes. */
  method VerifyAuthority(roots: seq<Option<Bytes>>, provider: Provider, chain: Chain)
    returns (hashed: bool, r: Result)
    requires |roots| > 0
    ensures !hashed ==> r == Refused && !provider.reliable
    ensures hashed ==> r == Authority(roots, provider.algo.hash, chain)
  {
    var index := 0;
    var root := roots[0];
    if root.None? || |root.value| == 0 {
      return true, NoAnchorNeeded;
    }
    ghost var h := provider.algo.hash;
    SearchStaysInside(roots, h, chain.rootHash, 0);
    while |root.value| != 0
      invariant Provisioned(roots, index) && root == roots[index]
      invariant Search(roots, h, chain.rootHash, index) == Search(roots, h, chain.rootHash, 0)
      decreases |roots| - index, |root.value|
    {
      var ok, digest := provider.HashAll(root.value);
      if !ok {
        return false, Refused;
      }
      if digest == chain.rootHash {
        break;
      }
      if index < |roots| - 1 && roots[index + 1].Some? {
        index := index + 1;
        root := roots[index];
      } else {
        return true, Refused;
      }
    }
    if chain.first.None? {
      return true, Refused;
    }
    var first := chain.first.value;
    if chain.isRoot(first) {
      if !(root.value <= first + chain.after) {
        return true, Refused;
      }
    } else if !chain.issuedBy(first, root.value) {
      return true, Refused;
    }
    return true, Anchored(index);
  }

  /** i is inside the contiguous run of provisioned roots that starts at slot 0. */
  ghost predicate InPrefix(roots: seq<Option<Bytes>>, i: nat)
  {
    i < |roots| && forall j :: 0 <= j <= i ==> roots[j].Some?
  }

  /** The root at i is the first in the prefix that matches, and none before it is empty. */
  ghost predicate FirstMatch(roots: seq<Option<Bytes>>, h: Bytes -> Bytes, rootHash: Bytes, i: nat)
  {
    && InPrefix(roots, i) && roots[i].value != [] && h(roots[i].value) == rootHash
    && Passed(roots, h, rootHash, 0, i)
  }

  /** Every root from i up to k has a nonzero size and the wrong hash. */
  ghost predicate Passed(roots: seq<Option<Bytes>>, h: Bytes -> Bytes, rootHash: Bytes, i: nat, k: nat)
  {
    forall j :: i <= j < k ==> Provisioned(roots, j) && roots[j].value != [] && h(roots[j].value) != rootHash
  }

  /** The search stops at k exactly when it has passed everything before and k matches or is empty. */
  lemma {:induction false} SearchStopsAt(roots: seq<Option<Bytes>>, h: Bytes -> Bytes, rootHash: Bytes, i: nat, k: nat)
    requires Provisioned(roots, i) && i <= k
    ensures Search(roots, h, rootHash, i) == Match(k)
            <==> (&& Provisioned(roots, k) && Passed(roots, h, rootHash, i, k)
                  && roots[k].value != [] && h(roots[k].value) == rootHash)
    ensures Search(roots, h, rootHash, i) == EmptyRoot(k)
            <==> Provisioned(roots, k) && Passed(roots, h, rootHash, i, k) && roots[k].value == []
    decreases |roots| - i
  {
    SearchStaysInside(roots, h, rootHash, i);
    var stops := roots[i].value == [] || h(roots[i].value) == rootHash;
    if i < k {
      if Passed(roots, h, rootHash, i, k) && Provisioned(roots, k) {
        assert Provisioned(roots, i) && !stops;
        assert Provisioned(roots, i + 1) by {
          if i + 1 < k { assert Provisioned(roots, i + 1); }
        }
      }
      if !stops && Provisioned(roots, i + 1) {
        SearchStopsAt(roots, h, rootHash, i + 1, k);
        assert Passed(roots, h, rootHash, i, k) <==> Passed(roots, h, rootHash, i + 1, k);
      }
    } else if !stops && Provisioned(roots, i + 1) {
      SearchStaysInside(roots, h, rootHash, i + 1);
    }
  }

  predicate NoEmptyRoot(roots: seq<Option<Bytes>>)
  {
    forall i :: 0 <= i < |roots| && roots[i].Some? ==> roots[i].value != []
  }

  /**
   With every provisioned root of nonzero size and slot 0 provisioned, a chain is anchored exactly
   at the first matching root of the contiguous prefix, and only if it starts with that root itself or
   its first certificate is no root and was issued by it.
   */
  lemma AnchorIsFirstMatch(roots: seq<Option<Bytes>>, h: Bytes -> Bytes, chain: Chain, k: nat)
    requires |roots| > 0 && roots[0].Some? && NoEmptyRoot(roots)
    ensures Authority(roots, h, chain) == Anchored(k)
            <==> (&& FirstMatch(roots, h, chain.rootHash, k) && chain.first.Some?
                  && var first := chain.first.value;
                     || (chain.isRoot(first) && roots[k].value <= first + chain.after)
                     || (!chain.isRoot(first) && chain.issuedBy(first, roots[k].value)))
    ensures Authority(roots, h, chain) != NoAnchorNeeded
  {
    SearchStaysInside(roots, h, chain.rootHash, 0);
    SearchStopsAt(roots, h, chain.rootHash, 0, k);
    var stop := Search(roots, h, chain.rootHash, 0);
    if !stop.Mismatch? && stop.index != k {
      SearchStopsAt(roots, h, chain.rootHash, 0, stop.index);
    }
    if Passed(roots, h, chain.rootHash, 0, k) && Provisioned(roots, k) {
      assert InPrefix(roots, k);
    }
  }

  /** No anchor is asked for exactly if slot 0 holds no root, or one of size zero. */
  lemma NoAnchorExactly(roots: seq<Option<Bytes>>, h: Bytes -> Bytes, chain: Chain)
    requires |roots| > 0
    ensures Authority(roots, h, chain) == NoAnchorNeeded <==> roots[0] == None || roots[0] == Some([])
  {
  }

  /** The first root of size zero within the contiguous prefix. */
  ghost predicate FirstEmpty(roots: seq<Option<Bytes>>, z: nat)
  {
    && InPrefix(roots, z) && roots[z].value == []
    && forall j :: 0 <= j < z ==> roots[j].value != []
  }

  /**
   A later root of size zero ends the search without a match: every chain whose root hash matches
   none of the roots before it, and that starts with a root certificate, is anchored there.
   */
  lemma EmptyRootAnchorsAnything(roots: seq<Option<Bytes>>, h: Bytes -> Bytes, chain: Chain, z: nat)
    requires FirstEmpty(roots, z) && z > 0
    requires forall j :: 0 <= j < z ==> h(roots[j].value) != chain.rootHash
    requires chain.first.Some? && chain.isRoot(chain.first.value)
    ensures Authority(roots, h, chain) == Anchored(z)
  {
    SearchStopsAt(roots, h, chain.rootHash, 0, z);
  }

  /** An anchored chain carries the hash of the root it is anchored at. */
  ghost predicate AnchorsMatch(roots: seq<Option<Bytes>>, h: Bytes -> Bytes)
    requires |roots| > 0
  {
    forall chain: Chain, k: nat ::
      Authority(roots, h, chain) == Anchored(k) && k < |roots| && roots[k].Some? ==>
        h(roots[k].value) == chain.rootHash
  }

  /**
   Anchors match for every chain if and only if no root of the contiguous prefix, other than
   slot 0 (which switches the search off), has size zero.  strange is a root hash that no
   provisioned root has.
   */
  lemma AnchorsMatchExactly(roots: seq<Option<Bytes>>, h: Bytes -> Bytes, strange: Bytes)
    requires |roots| > 0 && roots[0].Some? && roots[0].value != []
    requires forall i :: 0 <= i < |roots| && roots[i].Some? ==> h(roots[i].value) != strange
    ensures AnchorsMatch(roots, h) <==> !(exists z: nat :: FirstEmpty(roots, z))
  {
    if exists z: nat :: FirstEmpty(roots, z) {
      var z: nat :| FirstEmpty(roots, z);
      var chain := Chain(strange, Some([]), [], (b: Bytes) => true, (a: Bytes, b: Bytes) => true);
      EmptyRootAnchorsAnything(roots, h, chain, z);
    } else {
      forall chain: Chain, k: nat | Authority(roots, h, chain) == Anchored(k) && k < |roots| && roots[k].Some?
        ensures h(roots[k].value) == chain.rootHash
      {
        SearchStaysInside(roots, h, chain.rootHash, 0);
        SearchStopsAt(roots, h, chain.rootHash, 0, k);
        if roots[k].value == [] {
          assert FirstEmpty(roots, k);
        }
      }
    }
  }
}
