/**
 The handshake: K in pieces while mutual authentication is settled, then F in pieces.  Anything that
 does not concern the TH transcript may happen in between, and every call may fail in the running form.
 */
module Handshakes {
  import opened Codec
  import opened Transcript
  import opened Steps
  import opened Refinement
  import DigestsWindow

  /** A non-empty piece of K or F. */
  predicate Speaks(kind: Message, op: Op)
  {
    op.Append? && op.kind == kind && op.m != []
  }

  /** Other transcripts, processed requests, and a DIGESTS that comes too late to count. */
  predicate Quiet(op: Op)
  {
    op.RequestCode? || op.EncapRequestCode? || op.AppendD? || ((op.Append? || op.Reset?) && Signed(op.kind))
  }

  predicate Settles(op: Op)
  {
    op.SetMutual? || op.AppendEncapD? || op.ResetEncapD?
  }

  /** What may happen until F starts. */
  predicate Opening(op: Op)
  {
    Speaks(K, op) || Settles(op) || Quiet(op)
  }

  /** What may happen from then on. */
  predicate Closing(op: Op)
  {
    Speaks(F, op) || Quiet(op)
  }

  predicate AllOpening(calls: seq<Call>)
  {
    forall c :: c in calls ==> Opening(c.op)
  }

  predicate AllClosing(calls: seq<Call>)
  {
    forall c :: c in calls ==> Closing(c.op)
  }

  /** A DIGESTS that arrives now no longer counts, or none arrives. */
  predicate LateDigests(com: Common, calls: seq<Call>)
  {
    !TakesD(com) || forall c :: c in calls ==> !c.op.AppendD?
  }

  function PieceOf(kind: Message, op: Op): (m: Bytes)
  {
    if op.Append? && op.kind == kind then op.m else []
  }

  function Heard(kind: Message, calls: seq<Call>): (m: Bytes)
  {
    if calls == [] then [] else PieceOf(kind, calls[0].op) + Heard(kind, calls[1..])
  }

  /** Every piece of the message was absorbed. */
  predicate AllDone(kind: Message, calls: seq<Call>)
  {
    forall c :: c in calls && Speaks(kind, c.op) ==> c.outcome.Done?
  }

  lemma DoneSplits(kind: Message, calls: seq<Call>)
    requires calls != []
    ensures AllDone(kind, calls)
            <==> (Speaks(kind, calls[0].op) ==> calls[0].outcome.Done?) && AllDone(kind, calls[1..])
  {
    assert calls == [calls[0]] + calls[1..];
  }

  // What both builds share.

  predicate SamePrelude(x: Common, y: Common)
  {
    x.a == y.a && x.d == y.d && x.ct == y.ct
  }

  lemma OpeningCommon(lim: Limits, com: Common, op: Op)
    requires Opening(op) && (op.AppendD? ==> !TakesD(com))
    ensures var com' := StepCommon(lim, com, op); SamePrelude(com, com') && (!TakesD(com) ==> !TakesD(com'))
  {
  }

  lemma ClosingCommon(lim: Limits, setup: Setup, com: Common, op: Op)
    requires Closing(op) && (op.AppendD? ==> !TakesD(com))
    ensures var com' := StepCommon(lim, com, op);
            && SamePrelude(com, com') && (!TakesD(com) ==> !TakesD(com'))
            && MutualPart(setup, com') == MutualPart(setup, com)
  {
  }

  // The recorded form: failures do not concern it.

  lemma RecordedStep(lim: Limits, r: Recorded, kind: Message, op: Op)
    requires !Signed(kind) && (Opening(op) || Closing(op))
    requires |r.buf[kind]| + |PieceOf(kind, op)| <= Capacity(lim, kind)
    ensures StepRecorded(lim, r, op).buf[kind] == r.buf[kind] + PieceOf(kind, op)
  {
    assert r.buf[kind] + [] == r.buf[kind];
  }

  lemma {:induction false} RecordedHears(lim: Limits, r: Recorded, kind: Message, calls: seq<Call>)
    requires !Signed(kind) && forall c :: c in calls ==> Opening(c.op) || Closing(c.op)
    requires |r.buf[kind]| + |Heard(kind, calls)| <= Capacity(lim, kind)
    ensures RunRecorded(lim, r, calls).buf[kind] == r.buf[kind] + Heard(kind, calls)
    decreases |calls|
  {
    if calls == [] {
      assert r.buf[kind] + [] == r.buf[kind];
    } else {
      var op := calls[0].op;
      RecordedStep(lim, r, kind, op);
      RecordedHears(lim, StepRecorded(lim, r, op), kind, calls[1..]);
      JoinThree(r.buf[kind], PieceOf(kind, op), Heard(kind, calls[1..]));
    }
  }

  // The running form.

  /** What an append to K extends: the TH context, or the prelude of a new one. */
  function Base(setup: Setup, s: Running): (b: Bytes)
  {
    if Th in s.dig then s.dig[Th] else Prelude(setup, s.com)
  }

  /** No TH context is shorter than the prelude it started from. */
  predicate Grounded(setup: Setup, s: Running)
  {
    |Prelude(setup, s.com)| <= |Base(setup, s)|
  }

  /** The TH contexts are as they were. */
  predicate ThUntouched(s: Running, s': Running)
  {
    s'.fInit == s.fInit && (Th in s'.dig <==> Th in s.dig) && (Th in s.dig ==> s'.dig[Th] == s.dig[Th])
  }

  lemma QuietStep(lim: Limits, setup: Setup, s: Running, c: Call)
    requires Quiet(c.op) || Settles(c.op)
    ensures var s' := StepRunning(lim, setup, s, c.op, c.outcome);
            s'.com == StepCommon(lim, s.com, c.op) && ThUntouched(s, s')
  {
    if c.op.RequestCode? {
      assert Th !in Dropped(ResetBy(c.op.request, c.op.authenticated, c.op.inSession));
    }
  }

  lemma KPiece(lim: Limits, setup: Setup, s: Running, c: Call)
    requires Grounded(setup, s) && Speaks(K, c.op)
    ensures var s' := StepRunning(lim, setup, s, c.op, c.outcome);
            && s'.com == s.com && s'.fInit == s.fInit && Grounded(setup, s')
            && (Th in s'.dig <==> c.outcome.Done?)
            && (c.outcome.Done? ==> Base(setup, s') == Base(setup, s) + c.op.m)
            && (!c.outcome.Done? ==> |Base(setup, s')| <= |Base(setup, s)|)
  {
  }

  lemma OpeningStep(lim: Limits, setup: Setup, s: Running, c: Call)
    requires Grounded(setup, s) && Opening(c.op) && (c.op.AppendD? ==> !TakesD(s.com))
    ensures var s' := StepRunning(lim, setup, s, c.op, c.outcome);
            && SamePrelude(s.com, s'.com) && (!TakesD(s.com) ==> !TakesD(s'.com))
            && s'.fInit == s.fInit && Grounded(setup, s')
            && (if Speaks(K, c.op) && !c.outcome.Done? then |Base(setup, s')| <= |Base(setup, s)|
                else Base(setup, s') == Base(setup, s) + PieceOf(K, c.op))
            && (Th in s'.dig <==> if Speaks(K, c.op) then c.outcome.Done? else Th in s.dig)
  {
    OpeningCommon(lim, s.com, c.op);
    if Speaks(K, c.op) {
      KPiece(lim, setup, s, c);
    } else {
      QuietStep(lim, setup, s, c);
      assert Base(setup, s) + [] == Base(setup, s);
    }
  }

  /**
   Up to the start of F.  If all pieces of K succeed the context covers them all; after a failure it
   is too short for that, for good.
   */
  lemma {:induction false} KPieces(lim: Limits, setup: Setup, s: Running, calls: seq<Call>)
    requires Grounded(setup, s) && AllOpening(calls) && LateDigests(s.com, calls)
    ensures var s' := RunRunning(lim, setup, s, calls);
            && SamePrelude(s.com, s'.com) && s'.fInit == s.fInit && Grounded(setup, s')
            && (AllDone(K, calls) ==> Base(setup, s') == Base(setup, s) + Heard(K, calls))
            && (AllDone(K, calls) && (Heard(K, calls) != [] || Th in s.dig) ==> Th in s'.dig)
            && (!AllDone(K, calls) ==> |Base(setup, s')| < |Base(setup, s)| + |Heard(K, calls)|)
    decreases |calls|
  {
    if calls == [] {
      assert Base(setup, s) + [] == Base(setup, s);
    } else {
      var c, rest := calls[0], calls[1..];
      OpeningStep(lim, setup, s, c);
      DoneSplits(K, calls);
      KPieces(lim, setup, StepRunning(lim, setup, s, c.op, c.outcome), rest);
      JoinThree(Base(setup, s), PieceOf(K, c.op), Heard(K, rest));
    }
  }

  /** What the context will cover before the next piece of F. */
  function Reach(setup: Setup, s: Running): (b: Bytes)
  {
    if s.fInit then Base(setup, s) else Base(setup, s) + MutualPart(setup, s.com)
  }

  predicate Covers(s: Running)
  {
    s.fInit && Th in s.dig
  }

  predicate Gone(s: Running)
  {
    s.fInit && Th !in s.dig
  }

  /** One piece of F: it succeeds and is covered, or the context stays behind, or is gone for good. */
  lemma FPiece(lim: Limits, setup: Setup, s: Running, c: Call)
    requires Grounded(setup, s) && !Gone(s) && Speaks(F, c.op)
    ensures var s' := StepRunning(lim, setup, s, c.op, c.outcome);
            && s'.com == s.com && (Gone(s') || Grounded(setup, s'))
            && (c.outcome.Done? ==> Covers(s') && Reach(setup, s') == Reach(setup, s) + c.op.m)
            && (!c.outcome.Done? ==> Gone(s') || (!s'.fInit && |Reach(setup, s')| <= |Reach(setup, s)|))
  {
  }

  lemma ClosingStep(lim: Limits, setup: Setup, s: Running, c: Call)
    requires Grounded(setup, s) && !Gone(s) && Closing(c.op) && (c.op.AppendD? ==> !TakesD(s.com))
    ensures var s' := StepRunning(lim, setup, s, c.op, c.outcome);
            && (!TakesD(s.com) ==> !TakesD(s'.com)) && (Gone(s') || Grounded(setup, s'))
            && (if Speaks(F, c.op) && !c.outcome.Done? then Gone(s') || |Reach(setup, s')| <= |Reach(setup, s)|
                else !Gone(s') && Reach(setup, s') == Reach(setup, s) + PieceOf(F, c.op))
            && (Speaks(F, c.op) && c.outcome.Done? ==> Covers(s')) && (Quiet(c.op) && Covers(s) ==> Covers(s'))
  {
    ClosingCommon(lim, setup, s.com, c.op);
    if Speaks(F, c.op) {
      FPiece(lim, setup, s, c);
    } else {
      QuietStep(lim, setup, s, c);
      assert Reach(setup, s) + [] == Reach(setup, s);
    }
  }

  /** Without its context, F never gets one again. */
  lemma {:induction false} GoneForGood(lim: Limits, setup: Setup, s: Running, calls: seq<Call>)
    requires Gone(s) && AllClosing(calls)
    ensures Gone(RunRunning(lim, setup, s, calls))
    decreases |calls|
  {
    if calls != [] {
      var c := calls[0];
      if Quiet(c.op) {
        QuietStep(lim, setup, s, c);
      }
      GoneForGood(lim, setup, StepRunning(lim, setup, s, c.op, c.outcome), calls[1..]);
    }
  }

  /** The same from the start of F on. */
  lemma {:induction false} FPieces(lim: Limits, setup: Setup, s: Running, calls: seq<Call>)
    requires Grounded(setup, s) && !Gone(s) && AllClosing(calls) && LateDigests(s.com, calls)
    ensures var s' := RunRunning(lim, setup, s, calls);
            && (AllDone(F, calls) ==> Reach(setup, s') == Reach(setup, s) + Heard(F, calls))
            && (AllDone(F, calls) && (Heard(F, calls) != [] || Covers(s)) ==> Covers(s'))
            && (!AllDone(F, calls) && Covers(s') ==> |s'.dig[Th]| < |Reach(setup, s)| + |Heard(F, calls)|)
    decreases |calls|
  {
    if calls == [] {
      assert Reach(setup, s) + [] == Reach(setup, s);
    } else {
      var c, rest := calls[0], calls[1..];
      var s1 := StepRunning(lim, setup, s, c.op, c.outcome);
      ClosingStep(lim, setup, s, c);
      DoneSplits(F, calls);
      if Gone(s1) {
        GoneForGood(lim, setup, s1, rest);
      } else {
        FPieces(lim, setup, s1, rest);
      }
      JoinThree(Reach(setup, s), PieceOf(F, c.op), Heard(F, rest));
    }
  }

  /** No context is left over from an earlier attempt. */
  predicate Idle(s: Running)
  {
    Th !in s.dig && !s.fInit
  }

  predicate Silent(r: Recorded)
  {
    r.buf[K] == [] && r.buf[F] == []
  }

  /** The TH context has absorbed what the recorded form assembles for TH1. */
  predicate HoldsTh1(setup: Setup, r: Recorded, s: Running)
  {
    Th in s.dig && s.dig[Th] == ExchangeTh(setup, r.com, r.buf)
  }

  predicate HoldsTh2(setup: Setup, r: Recorded, s: Running)
  {
    Covers(s) && s.dig[Th] == FinishTh(setup, r.com, r.buf)
  }

  /** The context holds what the recorded form has so far, or is too short to ever hold it. */
  predicate HoldsOrShort(setup: Setup, r: Recorded, s: Running, holds: bool)
  {
    var whole := ExchangeTh(setup, r.com, r.buf);
    && r.com == s.com && !s.fInit && Grounded(setup, s)
    && if holds then Base(setup, s) == whole else |Base(setup, s)| < |whole|
  }

  lemma ExchangePhase(lim: Limits, setup: Setup, r: Recorded, s: Running, xs: seq<Call>, r1: Recorded, s1: Running)
    requires r.com == s.com && Silent(r) && Idle(s)
    requires AllOpening(xs) && LateDigests(r.com, xs) && 0 < |Heard(K, xs)| <= Capacity(lim, K)
    requires r1 == RunRecorded(lim, r, xs) && s1 == RunRunning(lim, setup, s, xs)
    ensures AllDone(K, xs) <==> HoldsTh1(setup, r1, s1)
    ensures HoldsOrShort(setup, r1, s1, AllDone(K, xs)) && r1.buf[K] == Heard(K, xs) && r1.buf[F] == []
    ensures SamePrelude(r.com, r1.com)
  {
    RecordedHears(lim, r, K, xs);
    NoF(xs);
    RecordedHears(lim, r, F, xs);
    DigestsWindow.BuildsShareCommon(lim, setup, r, s, xs);
    KPieces(lim, setup, s, xs);
    assert r1.buf[K] == Heard(K, xs);
  }

  lemma {:induction false} NoF(calls: seq<Call>)
    requires AllOpening(calls)
    ensures Heard(F, calls) == []
  {
    if calls != [] {
      NoF(calls[1..]);
    }
  }

  lemma {:induction false} NoK(calls: seq<Call>)
    requires AllClosing(calls)
    ensures Heard(K, calls) == []
  {
    if calls != [] {
      NoK(calls[1..]);
    }
  }

  lemma {:induction false} ClosingKeepsInputs(lim: Limits, setup: Setup, r: Recorded, calls: seq<Call>)
    requires AllClosing(calls) && LateDigests(r.com, calls)
    ensures var com := RunRecorded(lim, r, calls).com;
            SamePrelude(r.com, com) && MutualPart(setup, com) == MutualPart(setup, r.com)
    decreases |calls|
  {
    if calls != [] {
      ClosingCommon(lim, setup, r.com, calls[0].op);
      ClosingKeepsInputs(lim, setup, StepRecorded(lim, r, calls[0].op), calls[1..]);
    }
  }

  lemma FinishPhase(lim: Limits, setup: Setup, r1: Recorded, s1: Running, holds: bool, fs: seq<Call>,
                    r2: Recorded, s2: Running)
    requires HoldsOrShort(setup, r1, s1, holds) && r1.buf[F] == [] && |r1.buf[K]| <= Capacity(lim, K)
    requires AllClosing(fs) && LateDigests(r1.com, fs) && 0 < |Heard(F, fs)| <= Capacity(lim, F)
    requires r2 == RunRecorded(lim, r1, fs) && s2 == RunRunning(lim, setup, s1, fs)
    ensures holds && AllDone(F, fs) <==> HoldsTh2(setup, r2, s2)
    ensures r2.buf[K] == r1.buf[K] && r2.buf[F] == Heard(F, fs)
    ensures SamePrelude(r1.com, r2.com) && MutualPart(setup, r2.com) == MutualPart(setup, r1.com)
  {
    RecordedHears(lim, r1, F, fs);
    NoK(fs);
    RecordedHears(lim, r1, K, fs);
    ClosingKeepsInputs(lim, setup, r1, fs);
    FPieces(lim, setup, s1, fs);
    assert r2.buf[F] == Heard(F, fs) && r2.buf[K] == r1.buf[K];
    FinishExtendsExchange(setup, r2.com, r2.buf);
    assert ExchangeTh(setup, r2.com, r2.buf) == ExchangeTh(setup, r1.com, r1.buf);
  }

  /**
   From any state without a TH context, for PSK, certificate, raw-key, multi-key and mutually
   authenticated sessions, with anything that does not concern TH in between: the running form holds
   TH1 exactly if every piece of K succeeded, and TH2 exactly if every piece of K and of F did.
   */
  lemma HandshakeExact(lim: Limits, setup: Setup, r: Recorded, s: Running, xs: seq<Call>, r1: Recorded, s1: Running,
                       fs: seq<Call>, r2: Recorded, s2: Running)
    requires r.com == s.com && Silent(r) && Idle(s)
    requires AllOpening(xs) && LateDigests(r.com, xs) && 0 < |Heard(K, xs)| <= Capacity(lim, K)
    requires r1 == RunRecorded(lim, r, xs) && s1 == RunRunning(lim, setup, s, xs)
    requires AllClosing(fs) && LateDigests(r1.com, fs) && 0 < |Heard(F, fs)| <= Capacity(lim, F)
    requires r2 == RunRecorded(lim, r1, fs) && s2 == RunRunning(lim, setup, s1, fs)
    ensures AllDone(K, xs) <==> HoldsTh1(setup, r1, s1)
    ensures AllDone(K, xs) && AllDone(F, fs) <==> HoldsTh2(setup, r2, s2)
  {
    ExchangePhase(lim, setup, r, s, xs, r1, s1);
    FinishPhase(lim, setup, r1, s1, AllDone(K, xs), fs, r2, s2);
  }
}
