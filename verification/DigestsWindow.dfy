/**
 Which DIGESTS becomes part of the TH transcripts.  Connection and session (encapsulated)
 DIGESTS follow the same rule, so every definition takes a flag that says which is meant.
 */
module DigestsWindow {
  import opened Codec
  import opened Transcript
  import opened Steps
  import opened Refinement

  function RunCommon(lim: Limits, com: Common, ops: seq<Op>): (r: Common)
    decreases |ops|
  {
    if ops == [] then com else RunCommon(lim, StepCommon(lim, com, ops[0]), ops[1..])
  }

  function Stored(encap: bool, com: Common): (r: Bytes)
  {
    if encap then com.encapD else com.d
  }

  predicate Closed(encap: bool, com: Common)
  {
    if encap then com.encapDClosed else com.dClosed
  }

  /** A DIGESTS with contents that fit. */
  predicate Arrives(lim: Limits, encap: bool, op: Op)
  {
    (if encap then op.AppendEncapD? else op.AppendD?) && 0 < |op.m| <= DigestsSize(lim)
  }

  /** A request that comes where only GET_DIGESTS may. */
  predicate Closes(encap: bool, op: Op)
  {
    if encap then op.EncapRequestCode? && !op.request.GetDigests?
    else op.RequestCode? && !op.request.GetDigests? && op.negotiated
  }

  predicate Restarts(encap: bool, op: Op)
  {
    if encap then op.ResetEncapD? else op.ResetD?
  }

  /** The i-th operation brings a DIGESTS, and nothing before it brings one or closes the window. */
  predicate Counts(lim: Limits, encap: bool, ops: seq<Op>, i: nat)
  {
    && i < |ops| && Arrives(lim, encap, ops[i])
    && forall j :: 0 <= j < i ==> !Arrives(lim, encap, ops[j]) && !Closes(encap, ops[j])
  }

  /** What is stored, or the fact that nothing may be, stays until the transcript restarts. */
  lemma {:induction false} SettledStays(lim: Limits, encap: bool, com: Common, ops: seq<Op>)
    requires Closed(encap, com) || Stored(encap, com) != []
    requires forall i :: 0 <= i < |ops| ==> !Restarts(encap, ops[i])
    ensures Stored(encap, RunCommon(lim, com, ops)) == Stored(encap, com)
    ensures Closed(encap, com) ==> Closed(encap, RunCommon(lim, com, ops))
    decreases |ops|
  {
    if ops != [] {
      assert !Restarts(encap, ops[0]);
      SettledStays(lim, encap, StepCommon(lim, com, ops[0]), ops[1..]);
    }
  }

  lemma CountsLater(lim: Limits, encap: bool, ops: seq<Op>, i: nat)
    requires ops != [] && !Arrives(lim, encap, ops[0]) && !Closes(encap, ops[0])
    ensures i > 0 ==> (Counts(lim, encap, ops, i) <==> Counts(lim, encap, ops[1..], i - 1))
    ensures !Counts(lim, encap, ops, 0)
  {
    if i > 0 && Counts(lim, encap, ops[1..], i - 1) {
      forall j | 0 <= j < i
        ensures !Arrives(lim, encap, ops[j]) && !Closes(encap, ops[j])
      {
        if j > 0 { assert ops[j] == ops[1..][j - 1]; }
      }
    }
  }

  /**
   From a restart on, whatever happens in whatever order, the stored DIGESTS is the first one
   that arrives, provided no other request came before it; otherwise none is stored.
   */
  lemma {:induction false} OnlyFirstDigestsCounts(lim: Limits, encap: bool, com: Common, ops: seq<Op>)
    requires !Closed(encap, com) && Stored(encap, com) == []
    requires forall i :: 0 <= i < |ops| ==> !Restarts(encap, ops[i])
    ensures var d := Stored(encap, RunCommon(lim, com, ops));
            && (forall i: nat :: Counts(lim, encap, ops, i) ==> d == ops[i].m)
            && ((forall i: nat :: !Counts(lim, encap, ops, i)) ==> d == [])
    decreases |ops|
  {
    if ops == [] {
    } else if Arrives(lim, encap, ops[0]) || Closes(encap, ops[0]) {
      var com' := StepCommon(lim, com, ops[0]);
      assert !Restarts(encap, ops[0]);
      SettledStays(lim, encap, com', ops[1..]);
      assert Arrives(lim, encap, ops[0]) ==> Counts(lim, encap, ops, 0) && Stored(encap, com') == ops[0].m;
      forall i: nat
        ensures i > 0 ==> !Counts(lim, encap, ops, i)
      {
      }
    } else {
      assert !Restarts(encap, ops[0]);
      OnlyFirstDigestsCounts(lim, encap, StepCommon(lim, com, ops[0]), ops[1..]);
      forall i: nat
        ensures i > 0 ==> (Counts(lim, encap, ops, i) <==> Counts(lim, encap, ops[1..], i - 1))
        ensures !Counts(lim, encap, ops, 0)
      {
        CountsLater(lim, encap, ops, i);
      }
      if forall i: nat :: !Counts(lim, encap, ops, i) {
        forall i: nat
          ensures !Counts(lim, encap, ops[1..], i)
        {
          assert !Counts(lim, encap, ops, i + 1);
        }
      }
    }
  }

  lemma {:induction false} RunSplits(lim: Limits, com: Common, ops: seq<Op>, n: nat)
    requires n <= |ops|
    ensures RunCommon(lim, com, ops) == RunCommon(lim, RunCommon(lim, com, ops[..n]), ops[n..])
    decreases n
  {
    if n == 0 {
      assert ops[0..] == ops;
    } else {
      RunSplits(lim, StepCommon(lim, com, ops[0]), ops[1..], n - 1);
      assert ops[..n][1..] == ops[1..][..n - 1] && ops[1..][n - 1..] == ops[n..];
    }
  }

  lemma RestartOpens(lim: Limits, encap: bool, com: Common, ops: seq<Op>, i: nat)
    requires i < |ops| && Restarts(encap, ops[i])
    ensures var com' := RunCommon(lim, com, ops[..i + 1]); !Closed(encap, com') && Stored(encap, com') == []
  {
    var before := RunCommon(lim, com, ops[..i]);
    RunSplits(lim, com, ops[..i + 1], i);
    assert ops[..i + 1][..i] == ops[..i] && ops[..i + 1][i..] == [ops[i]] && [ops[i]][1..] == [];
    assert RunCommon(lim, before, [ops[i]]) == RunCommon(lim, StepCommon(lim, before, ops[i]), []);
  }

  /** Over every run, from any state, what is stored is decided by what came since the last restart. */
  lemma LastRestartDecides(lim: Limits, encap: bool, com: Common, ops: seq<Op>, i: nat)
    requires i < |ops| && Restarts(encap, ops[i])
    requires forall j :: i < j < |ops| ==> !Restarts(encap, ops[j])
    ensures var since, d := ops[i + 1..], Stored(encap, RunCommon(lim, com, ops));
            && (forall k: nat :: Counts(lim, encap, since, k) ==> d == since[k].m)
            && ((forall k: nat :: !Counts(lim, encap, since, k)) ==> d == [])
  {
    RestartOpens(lim, encap, com, ops, i);
    RunSplits(lim, com, ops, i + 1);
    OnlyFirstDigestsCounts(lim, encap, RunCommon(lim, com, ops[..i + 1]), ops[i + 1..]);
  }

  /** After any run, whatever failed in it, both builds hold the same A, D and EncapD. */
  lemma {:induction false} BuildsShareCommon(lim: Limits, setup: Setup, r: Recorded, s: Running,
                                             calls: seq<Call>)
    requires r.com == s.com
    ensures RunRecorded(lim, r, calls).com == RunRunning(lim, setup, s, calls).com
         == RunCommon(lim, r.com, OpsOf(calls))
    decreases |calls|
  {
    if calls != [] {
      var op, outcome := calls[0].op, calls[0].outcome;
      assert OpsOf(calls)[0] == op && OpsOf(calls)[1..] == OpsOf(calls[1..]);
      BuildsShareCommon(lim, setup, StepRecorded(lim, r, op),
                        StepRunning(lim, setup, s, op, outcome), calls[1..]);
    }
  }
}
