/**
 Where the two builds part: for each way in which a step can fail to be kept, a run from transcripts
 that have not started, and what each build holds after it.
 */
module Divergences {
  import opened Codec
  import opened ManagedBuffers
  import opened Transcript
  import opened Steps
  import opened Refinement

  lemma RunTwo(lim: Limits, setup: Setup, r: Recorded, s: Running, a: Call, b: Call)
    ensures RunRecorded(lim, r, [a, b]) == StepRecorded(lim, StepRecorded(lim, r, a.op), b.op)
    ensures RunRunning(lim, setup, s, [a, b])
         == StepRunning(lim, setup, StepRunning(lim, setup, s, a.op, a.outcome), b.op, b.outcome)
  {
    assert [a, b][1..] == [b] && [b][1..] == [];
    var r1, s1 := StepRecorded(lim, r, a.op), StepRunning(lim, setup, s, a.op, a.outcome);
    var r2, s2 := StepRecorded(lim, r1, b.op), StepRunning(lim, setup, s1, b.op, b.outcome);
    assert RunRecorded(lim, r1, [b]) == RunRecorded(lim, r2, []);
    assert RunRunning(lim, setup, s1, [b]) == RunRunning(lim, setup, s2, []);
  }

  lemma RunThree(lim: Limits, setup: Setup, r: Recorded, s: Running, a: Call, b: Call, c: Call)
    ensures RunRecorded(lim, r, [a, b, c])
         == StepRecorded(lim, StepRecorded(lim, StepRecorded(lim, r, a.op), b.op), c.op)
    ensures RunRunning(lim, setup, s, [a, b, c])
         == StepRunning(lim, setup,
                        StepRunning(lim, setup, StepRunning(lim, setup, s, a.op, a.outcome), b.op, b.outcome),
                        c.op, c.outcome)
  {
    assert [a, b, c][1..] == [b, c];
    RunTwo(lim, setup, StepRecorded(lim, r, a.op), StepRunning(lim, setup, s, a.op, a.outcome), b, c);
  }

  function Ok(op: Op): (c: Call)
  {
    Call(op, Done)
  }

  /** B after C: the running form keeps the order of arrival. */
  lemma BAfterC(lim: Limits, setup: Setup, r: Recorded, s: Running)
    requires Unstarted(r, s)
    ensures var calls := [Ok(Append(C, [1])), Ok(Append(B, [2]))];
            var r', s' := RunRecorded(lim, r, calls), RunRunning(lim, setup, s, calls);
            && Digest(M1M2) in s'.dig && s'.dig[Digest(M1M2)] == r.com.a + [1, 2]
            && Assembled(setup, r'.com, r'.buf, M1M2) == r.com.a + [2, 1]
  {
    RunTwo(lim, setup, r, s, Ok(Append(C, [1])), Ok(Append(B, [2])));
    assert r.com.a + [1] + [2] == r.com.a + [1, 2];
  }

  /** A reset of C alone, as a failed CHALLENGE does, discards B in the running form only. */
  lemma ResetCDiscardsB(lim: Limits, setup: Setup, r: Recorded, s: Running)
    requires Unstarted(r, s)
    ensures var calls := [Ok(Append(B, [1])), Ok(Append(C, [2])), Ok(Reset(C))];
            && Digest(M1M2) !in RunRunning(lim, setup, s, calls).dig
            && RunRecorded(lim, r, calls).buf[B] == [1]
  {
    RunThree(lim, setup, r, s, Ok(Append(B, [1])), Ok(Append(C, [2])), Ok(Reset(C)));
  }

  /** A reset of B alone discards C. */
  lemma ResetBDiscardsC(lim: Limits, setup: Setup, r: Recorded, s: Running)
    requires Unstarted(r, s)
    ensures var calls := [Ok(Append(B, [1])), Ok(Append(C, [2])), Ok(Reset(B))];
            && Digest(M1M2) !in RunRunning(lim, setup, s, calls).dig
            && RunRecorded(lim, r, calls).buf[C] == [2]
  {
    RunThree(lim, setup, r, s, Ok(Append(B, [1])), Ok(Append(C, [2])), Ok(Reset(B)));
  }

  /** So does GET_DIGESTS, which resets B. */
  lemma GetDigestsDiscardsC(lim: Limits, setup: Setup, r: Recorded, s: Running, negotiated: bool,
                            authenticated: bool, inSession: bool)
    requires Unstarted(r, s)
    ensures var calls := [Ok(Append(C, [1])), Ok(RequestCode(GetDigests, negotiated, authenticated, inSession))];
            && Digest(M1M2) !in RunRunning(lim, setup, s, calls).dig
            && RunRecorded(lim, r, calls).buf[C] == [1]
  {
    var b := Ok(RequestCode(GetDigests, negotiated, authenticated, inSession));
    RunTwo(lim, setup, r, s, Ok(Append(C, [1])), b);
    DroppedAt(ResetBy(GetDigests, authenticated, inSession), M1M2);
  }

  /** A message that does not fit is absorbed by the running form and refused by the recorded form. */
  lemma TooLong(lim: Limits, setup: Setup, r: Recorded, s: Running, kind: Message, m: Bytes)
    requires Unstarted(r, s) && Signed(kind) && |m| > Capacity(lim, kind)
    ensures var ch := ChannelOf(kind);
            var r', s' := StepRecorded(lim, r, Append(kind, m)),
                          StepRunning(lim, setup, s, Append(kind, m), Done);
            && Digest(ch) in s'.dig && s'.dig[Digest(ch)] == Prefix(setup, r.com, ch) + m
            && Assembled(setup, r'.com, r'.buf, ch) == Prefix(setup, r.com, ch)
  {
  }

  lemma KThenF(lim: Limits, setup: Setup, r: Recorded, s: Running, r2: Recorded, s2: Running)
    requires Unstarted(r, s)
    requires r2 == StepRecorded(lim, StepRecorded(lim, r, Append(K, [1])), Append(F, [2]))
    requires s2 == StepRunning(lim, setup, StepRunning(lim, setup, s, Append(K, [1]), Done),
                               Append(F, [2]), Done)
    ensures r2.com == r.com && s2.com == s.com && r2.buf[K] == [1] && r2.buf[F] == [2] && s2.fInit
    ensures Th in s2.dig && s2.dig[Th] == Prelude(setup, r.com) + [1] + MutualPart(setup, r.com) + [2]
  {
  }

  lemma MoreK(lim: Limits, setup: Setup, r: Recorded, s: Running)
    requires r.buf[K] == [1] && r.buf[F] == [2] && Th in s.dig
    ensures var r', s' := StepRecorded(lim, r, Append(K, [3])), StepRunning(lim, setup, s, Append(K, [3]), Done);
            && Th in s'.dig && s'.dig[Th] == s.dig[Th] + [3]
            && FinishTh(setup, r'.com, r'.buf)
               == Prelude(setup, r.com) + [1, 3] + MutualPart(setup, r.com) + [2]
  {
    var r' := StepRecorded(lim, r, Append(K, [3]));
    FinishExtendsExchange(setup, r'.com, r'.buf);
    assert r'.buf[K] == [1] + [3];
  }

  /** K after F has started lands behind F. */
  lemma KAfterF(lim: Limits, setup: Setup, r: Recorded, s: Running)
    requires Unstarted(r, s)
    ensures var calls := [Ok(Append(K, [1])), Ok(Append(F, [2])), Ok(Append(K, [3]))];
            var r', s' := RunRecorded(lim, r, calls), RunRunning(lim, setup, s, calls);
            var p, m := Prelude(setup, r.com), MutualPart(setup, r.com);
            && Th in s'.dig && s'.dig[Th] == p + [1] + m + [2] + [3]
            && FinishTh(setup, r'.com, r'.buf) == p + [1, 3] + m + [2]
  {
    var a, b, c := Ok(Append(K, [1])), Ok(Append(F, [2])), Ok(Append(K, [3]));
    RunThree(lim, setup, r, s, a, b, c);
    var r2 := StepRecorded(lim, StepRecorded(lim, r, a.op), b.op);
    var s2 := StepRunning(lim, setup, StepRunning(lim, setup, s, a.op, Done), b.op, Done);
    KThenF(lim, setup, r, s, r2, s2);
    MoreK(lim, setup, r2, s2);
  }

  /** A reset of F before F has started discards K. */
  lemma ResetFDiscardsK(lim: Limits, setup: Setup, r: Recorded, s: Running)
    requires Unstarted(r, s)
    ensures var calls := [Ok(Append(K, [7])), Ok(Reset(F))];
            && Th !in RunRunning(lim, setup, s, calls).dig
            && RunRecorded(lim, r, calls).buf[K] == [7]
  {
    RunTwo(lim, setup, r, s, Ok(Append(K, [7])), Ok(Reset(F)));
  }

  /** A reset of K after F has started leaves F marked as started with no context to continue from. */
  lemma ResetKStrandsF(lim: Limits, setup: Setup, r: Recorded, s: Running, m: Bytes)
    requires Unstarted(r, s)
    ensures var calls := [Ok(Append(K, [1])), Ok(Append(F, [2])), Ok(Reset(K))];
            var r', s' := RunRecorded(lim, r, calls), RunRunning(lim, setup, s, calls);
            && s'.fInit && Th !in s'.dig && r'.buf[F] == [2]
            && StepRunning(lim, setup, s', Append(F, m), Done) == s'
  {
    var a, b, c := Ok(Append(K, [1])), Ok(Append(F, [2])), Ok(Reset(K));
    RunThree(lim, setup, r, s, a, b, c);
    var s2 := StepRunning(lim, setup, StepRunning(lim, setup, s, a.op, Done), b.op, Done);
    KThenF(lim, setup, r, s, StepRecorded(lim, StepRecorded(lim, r, a.op), b.op), s2);
    NothingToAppendTo(lim, setup, s2, m);
  }

  lemma NothingToAppendTo(lim: Limits, setup: Setup, s: Running, m: Bytes)
    requires s.fInit
    ensures var s' := StepRunning(lim, setup, s, Reset(K), Done);
            s'.fInit && Th !in s'.dig && StepRunning(lim, setup, s', Append(F, m), Done) == s'
  {
    var s' := StepRunning(lim, setup, s, Reset(K), Done);
    assert s'.dig - {Th} == s'.dig;
  }

  /** A change to A after a digest has absorbed it. */
  lemma ChangedA(lim: Limits, setup: Setup, r: Recorded, s: Running)
    requires Unstarted(r, s) && |r.com.a| < VCA_SIZE
    ensures var calls := [Ok(Append(B, [1])), Ok(AppendA([2]))];
            var r', s' := RunRecorded(lim, r, calls), RunRunning(lim, setup, s, calls);
            && Digest(M1M2) in s'.dig && s'.dig[Digest(M1M2)] == r.com.a + [1]
            && Assembled(setup, r'.com, r'.buf, M1M2) == r.com.a + [2] + [1]
  {
    RunTwo(lim, setup, r, s, Ok(Append(B, [1])), Ok(AppendA([2])));
  }

  lemma StartK(lim: Limits, setup: Setup, r: Recorded, s: Running)
    requires Unstarted(r, s)
    ensures var r', s' := StepRecorded(lim, r, Append(K, [1])), StepRunning(lim, setup, s, Append(K, [1]), Done);
            && r'.com == r.com && s'.com == r.com && r'.buf[K] == [1]
            && Th in s'.dig && s'.dig[Th] == Prelude(setup, r.com) + [1]
  {
  }

  lemma DTaken(lim: Limits, setup: Setup, com: Common)
    requires !setup.usePsk && setup.multiKeyRsp && TakesD(com)
    ensures Prelude(setup, com) == com.a + ([] + com.ct)
    ensures Prelude(setup, StepCommon(lim, com, AppendD([2]))) == com.a + ([2] + com.ct)
  {
    assert StepCommon(lim, com, AppendD([2])).d == [2];
  }

  /** A change to D after the TH context has absorbed it. */
  lemma ChangedD(lim: Limits, setup: Setup, r: Recorded, s: Running)
    requires Unstarted(r, s) && !setup.usePsk && setup.multiKeyRsp && TakesD(r.com)
    ensures var calls := [Ok(Append(K, [1])), Ok(AppendD([2]))];
            var r', s' := RunRecorded(lim, r, calls), RunRunning(lim, setup, s, calls);
            && Th in s'.dig && s'.dig[Th] == r.com.a + ([] + r.com.ct) + [1]
            && ExchangeTh(setup, r'.com, r'.buf) == r.com.a + ([2] + r.com.ct) + [1]
  {
    RunTwo(lim, setup, r, s, Ok(Append(K, [1])), Ok(AppendD([2])));
    StartK(lim, setup, r, s);
    DTaken(lim, setup, r.com);
  }

  /** The Responder's chain replaced after the TH context has absorbed its hash. */
  lemma ChangedResponder(lim: Limits, setup: Setup, r: Recorded, s: Running, ct: Bytes)
    requires Unstarted(r, s) && !setup.usePsk && !setup.multiKeyRsp
    ensures var calls := [Ok(Append(K, [1])), Ok(SetResponder(ct))];
            var r', s' := RunRecorded(lim, r, calls), RunRunning(lim, setup, s, calls);
            && Th in s'.dig && s'.dig[Th] == r.com.a + ([] + r.com.ct) + [1]
            && ExchangeTh(setup, r'.com, r'.buf) == r.com.a + ([] + ct) + [1]
  {
    RunTwo(lim, setup, r, s, Ok(Append(K, [1])), Ok(SetResponder(ct)));
    StartK(lim, setup, r, s);
  }

  lemma StartF(lim: Limits, setup: Setup, r: Recorded, s: Running)
    requires Unstarted(r, s)
    ensures var r', s' := StepRecorded(lim, r, Append(F, [1])), StepRunning(lim, setup, s, Append(F, [1]), Done);
            && r'.com == r.com && s'.com == r.com && r'.buf[K] == [] && r'.buf[F] == [1]
            && Th in s'.dig && s'.dig[Th] == Prelude(setup, r.com) + MutualPart(setup, r.com) + [1]
  {
  }

  lemma FinishWithoutK(setup: Setup, com: Common, buf: Buffers)
    requires buf[K] == [] && buf[F] == [1]
    ensures FinishTh(setup, com, buf) == Prelude(setup, com) + MutualPart(setup, com) + [1]
  {
    FinishExtendsExchange(setup, com, buf);
    assert Prelude(setup, com) + [] == Prelude(setup, com);
  }

  lemma EncapDTaken(lim: Limits, setup: Setup, com: Common)
    requires !setup.usePsk && setup.multiKeyReq && com.cm.Some? && TakesEncapD(com)
    ensures var com' := StepCommon(lim, com, AppendEncapD([2]));
            && Prelude(setup, com') == Prelude(setup, com)
            && MutualPart(setup, com) == [] + com.cm.value && MutualPart(setup, com') == [2] + com.cm.value
  {
    assert StepCommon(lim, com, AppendEncapD([2])).encapD == [2];
  }

  /** A change to EncapD after F has started. */
  lemma ChangedEncapD(lim: Limits, setup: Setup, r: Recorded, s: Running)
    requires Unstarted(r, s) && !setup.usePsk && setup.multiKeyReq && r.com.cm.Some? && TakesEncapD(r.com)
    ensures var calls := [Ok(Append(F, [1])), Ok(AppendEncapD([2]))];
            var r', s' := RunRecorded(lim, r, calls), RunRunning(lim, setup, s, calls);
            var p, cm := Prelude(setup, r.com), r.com.cm.value;
            && Th in s'.dig && s'.dig[Th] == p + ([] + cm) + [1]
            && FinishTh(setup, r'.com, r'.buf) == p + ([2] + cm) + [1]
  {
    var a, b := Ok(Append(F, [1])), Ok(AppendEncapD([2]));
    RunTwo(lim, setup, r, s, a, b);
    StartF(lim, setup, r, s);
    EncapDTaken(lim, setup, r.com);
    var r' := RunRecorded(lim, r, [a, b]);
    assert r'.com == StepCommon(lim, r.com, b.op) && r'.buf[K] == [] && r'.buf[F] == [1];
    FinishWithoutK(setup, r'.com, r'.buf);
  }

  /** Mutual authentication settled only after F has started. */
  lemma ChangedMutual(lim: Limits, setup: Setup, r: Recorded, s: Running, cm: Bytes)
    requires Unstarted(r, s) && !setup.usePsk && !setup.multiKeyReq && r.com.cm.None?
    ensures var calls := [Ok(Append(F, [1])), Ok(SetMutual(Some(cm)))];
            var r', s' := RunRecorded(lim, r, calls), RunRunning(lim, setup, s, calls);
            var p := Prelude(setup, r.com);
            && Th in s'.dig && s'.dig[Th] == p + [] + [1]
            && FinishTh(setup, r'.com, r'.buf) == p + ([] + cm) + [1]
  {
    var a, b := Ok(Append(F, [1])), Ok(SetMutual(Some(cm)));
    RunTwo(lim, setup, r, s, a, b);
    StartF(lim, setup, r, s);
    var r' := RunRecorded(lim, r, [a, b]);
    FinishWithoutK(setup, r'.com, r'.buf);
  }

  /**
   An append to F that fails in the update and is then retried rebuilds the TH context without K:
   what it covers afterwards is the same for every K, and nothing reports it.
   */
  lemma RetryDropsK(lim: Limits, setup: Setup, r: Recorded, s: Running, k: Bytes, m: Bytes)
    requires Unstarted(r, s)
    ensures var calls := [Ok(Append(K, k)), Call(Append(F, m), UpdateFailed), Ok(Append(F, m))];
            var s' := RunRunning(lim, setup, s, calls);
            && s'.fInit && Th in s'.dig
            && s'.dig[Th] == Prelude(setup, r.com) + MutualPart(setup, r.com) + m
  {
    RunThree(lim, setup, r, s, Ok(Append(K, k)), Call(Append(F, m), UpdateFailed), Ok(Append(F, m)));
  }
}
