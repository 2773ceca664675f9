/** When the running form loses a hash context, over whole runs with provider failures. */
module HandleLoss {
  import opened Codec
  import opened Transcript
  import opened Steps

  /** A backup exists only while F is under way on a live TH context. */
  predicate BackupInUse(s: Running)
  {
    ThBackup in s.dig ==> s.fInit && Th in s.dig
  }

  function Next(lim: Limits, setup: Setup, s: Running, e: Call): (s': Running)
  {
    StepRunning(lim, setup, s, e.op, e.outcome)
  }

  /** How many contexts a run leaves live with nothing referring to them. */
  function LostCount(lim: Limits, setup: Setup, s: Running, run: seq<Call>): (n: nat)
    decreases |run|
  {
    if run == [] then 0
    else (if LosesHandle(s, run[0].op, run[0].outcome) then 1 else 0)
         + LostCount(lim, setup, Next(lim, setup, s, run[0]), run[1..])
  }

  predicate FailedTh(e: Call)
  {
    e.op.Append? && !Signed(e.op.kind) && !e.outcome.Done?
  }

  /** Whenever an append to K or F fails, the next thing that happens, if any, is a reset of K. */
  predicate TearsDown(run: seq<Call>)
  {
    forall i :: 0 <= i < |run| - 1 && FailedTh(run[i]) ==> run[i + 1].op == Reset(K)
  }

  /** With the backup in use no step loses a handle, and every step but a failed one keeps it so. */
  lemma StepKeepsBackup(lim: Limits, setup: Setup, s: Running, e: Call)
    requires BackupInUse(s)
    ensures !LosesHandle(s, e.op, e.outcome)
    ensures !FailedTh(e) ==> BackupInUse(Next(lim, setup, s, e))
  {
  }

  lemma ResetKClearsBackup(lim: Limits, setup: Setup, s: Running, outcome: Outcome)
    ensures BackupInUse(Next(lim, setup, s, Call(Reset(K), outcome)))
  {
  }

  /** A run that tears the TH transcript down after each failure loses no context. */
  lemma {:induction false} CarefulRunLosesNothing(lim: Limits, setup: Setup, s: Running,
                                                  run: seq<Call>)
    requires TearsDown(run)
    requires BackupInUse(s) || run == [] || run[0].op == Reset(K)
    ensures LostCount(lim, setup, s, run) == 0
    decreases |run|
  {
    if run != [] {
      var e, rest := run[0], run[1..];
      var s' := Next(lim, setup, s, e);
      assert TearsDown(rest) by {
        forall i | 0 <= i < |rest| - 1 && FailedTh(rest[i])
          ensures rest[i + 1].op == Reset(K)
        {
          assert rest[i] == run[i + 1] && rest[i + 1] == run[i + 2];
        }
      }
      if e.op == Reset(K) {
        ResetKClearsBackup(lim, setup, s, e.outcome);
      } else {
        StepKeepsBackup(lim, setup, s, e);
        if FailedTh(e) && rest != [] {
          assert run[0 + 1] == rest[0];
        }
      }
      CarefulRunLosesNothing(lim, setup, s', rest);
    }
  }

  /** Retrying F after a failed update loses the first backup. */
  lemma RetryLosesBackup(lim: Limits, setup: Setup, s: Running, m: Bytes)
    requires s.dig == map[] && !s.fInit
    ensures LostCount(lim, setup, s,
                      [Call(Append(F, m), UpdateFailed), Call(Append(F, m), Done)]) == 1
  {
    var e, e' := Call(Append(F, m), UpdateFailed), Call(Append(F, m), Done);
    var s1 := Next(lim, setup, s, e);
    var s2 := Next(lim, setup, s1, e');
    assert ThBackup in s1.dig && !s1.fInit;
    assert [e, e'][1..] == [e'] && [e'][1..] == [];
    assert LostCount(lim, setup, s1, [e']) == 1 + LostCount(lim, setup, s2, []);
  }

  /** So does a later failure: F is reset, which finds no context to replace, and appended again. */
  lemma LaterFailureLosesBackup(lim: Limits, setup: Setup, s: Running, m: Bytes)
    requires s.dig == map[] && !s.fInit
    ensures LostCount(lim, setup, s, [Call(Append(F, m), Done), Call(Append(F, m), UpdateFailed),
                                          Call(Reset(F), Done), Call(Append(F, m), Done)]) == 1
  {
    var a, b, c := Call(Append(F, m), Done), Call(Append(F, m), UpdateFailed), Call(Reset(F), Done);
    var s1 := Next(lim, setup, s, a);
    var s2 := Next(lim, setup, s1, b);
    var s3 := Next(lim, setup, s2, c);
    var s4 := Next(lim, setup, s3, a);
    assert ThBackup in s3.dig && !s3.fInit && Th !in s3.dig;
    assert [a, b, c, a][1..] == [b, c, a] && [b, c, a][1..] == [c, a] && [c, a][1..] == [a] && [a][1..] == [];
    assert LostCount(lim, setup, s3, [a]) == 1 + LostCount(lim, setup, s4, []);
    assert LostCount(lim, setup, s2, [c, a]) == 1;
    assert LostCount(lim, setup, s1, [b, c, a]) == 1;
  }

  /** And so does an append to K that fails once F has started. */
  lemma LateKLosesBackup(lim: Limits, setup: Setup, s: Running, k: Bytes, m: Bytes)
    requires s.dig == map[] && !s.fInit
    ensures LostCount(lim, setup, s, [Call(Append(F, m), Done), Call(Append(K, k), UpdateFailed),
                                      Call(Reset(F), Done), Call(Append(F, m), Done)]) == 1
  {
    var a, b, c := Call(Append(F, m), Done), Call(Append(K, k), UpdateFailed), Call(Reset(F), Done);
    var s1 := Next(lim, setup, s, a);
    var s2 := Next(lim, setup, s1, b);
    var s3 := Next(lim, setup, s2, c);
    var s4 := Next(lim, setup, s3, a);
    assert ThBackup in s3.dig && !s3.fInit && Th !in s3.dig;
    assert [a, b, c, a][1..] == [b, c, a] && [b, c, a][1..] == [c, a] && [c, a][1..] == [a] && [a][1..] == [];
    assert LostCount(lim, setup, s3, [a]) == 1 + LostCount(lim, setup, s4, []);
    assert LostCount(lim, setup, s2, [c, a]) == 1;
    assert LostCount(lim, setup, s1, [b, c, a]) == 1;
  }

  // Which callers are safe.

  /** Which TH contexts are live and whether F is marked as started. */
  datatype Phase = Phase(th: bool, backup: bool, started: bool)

  function PhaseOf(s: Running): (p: Phase)
  {
    Phase(Th in s.dig, ThBackup in s.dig, s.fInit)
  }

  function NextPhase(p: Phase, e: Call): (p': Phase)
  {
    match e.op
    case Append(K, _) => p.(th := e.outcome.Done?)
    case Append(F, _) =>
      if p.started then p.(th := p.th && e.outcome.Done?)
      else (match e.outcome
            case KFailed => p
            case CertFailed => p.(th := true)
            case BackupFailed => Phase(true, false, false)
            case UpdateFailed => Phase(false, true, false)
            case Done => Phase(true, true, true))
    case Reset(K) => Phase(false, false, p.started)
    case Reset(F) => if p.th then Phase(p.backup, false, false) else p.(started := false)
    case _ => p
  }

  lemma PhaseFollows(lim: Limits, setup: Setup, s: Running, e: Call)
    ensures PhaseOf(Next(lim, setup, s, e)) == NextPhase(PhaseOf(s), e)
  {
  }

  /** A backup is live although F has not started: what an append to F would overwrite. */
  predicate AtRisk(p: Phase)
  {
    p.backup && !p.started
  }

  predicate AppendsF(op: Op)
  {
    op.Append? && op.kind.F?
  }

  /** A call loses nothing, however it ends, exactly if it is no append to F at risk. */
  lemma SafeCallExactly(s: Running, op: Op)
    ensures (forall outcome :: !LosesHandle(s, op, outcome)) <==> !(AppendsF(op) && AtRisk(PhaseOf(s)))
  {
    if AppendsF(op) && AtRisk(PhaseOf(s)) {
      assert LosesHandle(s, op, Done);
    }
  }

  /** Before every append to F the caller finds nothing at risk. */
  predicate NeverAtRisk(p: Phase, run: seq<Call>)
    decreases |run|
  {
    run == [] || (!(AppendsF(run[0].op) && AtRisk(p)) && NeverAtRisk(NextPhase(p, run[0]), run[1..]))
  }

  /** The run up to its i-th call, had that one ended differently. */
  function Turn(run: seq<Call>, i: nat, outcome: Outcome): (r: seq<Call>)
    requires i < |run|
  {
    run[..i] + [Call(run[i].op, outcome)]
  }

  lemma TurnSplits(run: seq<Call>, i: nat, outcome: Outcome)
    requires i < |run|
    ensures i == 0 ==> Turn(run, i, outcome) == [Call(run[0].op, outcome)]
    ensures i > 0 ==> Turn(run, i, outcome)[0] == run[0]
                      && Turn(run, i, outcome)[1..] == Turn(run[1..], i - 1, outcome)
  {
    if i > 0 {
      assert run[1..][..i - 1] == run[..i][1..];
    }
  }

  lemma LostAtTurn(lim: Limits, setup: Setup, s: Running, run: seq<Call>, i: nat, outcome: Outcome)
    requires i < |run|
    ensures i == 0 ==> (LostCount(lim, setup, s, Turn(run, i, outcome)) == 0
                        <==> !LosesHandle(s, run[0].op, outcome))
    ensures i > 0 ==> (LostCount(lim, setup, s, Turn(run, i, outcome)) == 0
                       <==> && !LosesHandle(s, run[0].op, run[0].outcome)
                            && LostCount(lim, setup, Next(lim, setup, s, run[0]),
                                         Turn(run[1..], i - 1, outcome)) == 0)
  {
    TurnSplits(run, i, outcome);
    if i == 0 {
      var e := Call(run[0].op, outcome);
      assert [e][1..] == [];
      assert LostCount(lim, setup, Next(lim, setup, s, e), []) == 0;
    }
  }

  /**
   A caller that looks before every append to F is safe whatever the provider does next, and only
   such a caller is: a run is never at risk if and only if no turn that any of its calls could take
   loses a context.
   */
  lemma {:induction false} NeverAtRiskExactly(lim: Limits, setup: Setup, s: Running, run: seq<Call>)
    ensures NeverAtRisk(PhaseOf(s), run)
            <==> forall i: nat, outcome :: i < |run| ==> LostCount(lim, setup, s, Turn(run, i, outcome)) == 0
    decreases |run|
  {
    if run != [] {
      var s1, rest := Next(lim, setup, s, run[0]), run[1..];
      PhaseFollows(lim, setup, s, run[0]);
      SafeCallExactly(s, run[0].op);
      NeverAtRiskExactly(lim, setup, s1, rest);
      forall i: nat, outcome | i < |run|
        ensures i == 0 ==> (LostCount(lim, setup, s, Turn(run, i, outcome)) == 0
                            <==> !LosesHandle(s, run[0].op, outcome))
        ensures i > 0 ==> (LostCount(lim, setup, s, Turn(run, i, outcome)) == 0
                           <==> && !LosesHandle(s, run[0].op, run[0].outcome)
                                && LostCount(lim, setup, s1, Turn(rest, i - 1, outcome)) == 0)
      {
        LostAtTurn(lim, setup, s, run, i, outcome);
      }
      if forall i: nat, outcome :: i < |run| ==> LostCount(lim, setup, s, Turn(run, i, outcome)) == 0 {
        forall outcome
          ensures !LosesHandle(s, run[0].op, outcome)
        {
          assert LostCount(lim, setup, s, Turn(run, 0, outcome)) == 0;
        }
        forall i: nat, outcome | i < |rest|
          ensures LostCount(lim, setup, s1, Turn(rest, i, outcome)) == 0
        {
          assert LostCount(lim, setup, s, Turn(run, i + 1, outcome)) == 0;
        }
      }
    }
  }

  // A caller that does not look.

  /** Between any two appends to F there is a reset of K; pending: one has been seen. */
  predicate ResetsBetween(pending: bool, ops: seq<Op>)
    decreases |ops|
  {
    ops == [] ||
    if AppendsF(ops[0]) then !pending && ResetsBetween(true, ops[1..])
    else ResetsBetween(pending && ops[0] != Reset(K), ops[1..])
  }

  lemma {:induction false} ResetsBetweenSuffice(lim: Limits, setup: Setup, s: Running, pending: bool,
                                                run: seq<Call>)
    requires ResetsBetween(pending, OpsOf(run)) && (!pending ==> ThBackup !in s.dig)
    ensures LostCount(lim, setup, s, run) == 0
    decreases |run|
  {
    if run != [] {
      var ops := OpsOf(run);
      assert ops[0] == run[0].op && ops[1..] == OpsOf(run[1..]);
      PhaseFollows(lim, setup, s, run[0]);
      ResetsBetweenSuffice(lim, setup, Next(lim, setup, s, run[0]),
                           if AppendsF(ops[0]) then true else pending && ops[0] != Reset(K), run[1..]);
    }
  }

  function AllWell(ops: seq<Op>): (run: seq<Call>)
    ensures OpsOf(run) == ops
  {
    if ops == [] then [] else
    var rest := AllWell(ops[1..]);
    assert ([Call(ops[0], Done)] + rest)[1..] == rest;
    [Call(ops[0], Done)] + rest
  }

  /** How a provider can make an unguarded caller lose a context. */
  lemma {:induction false} UnguardedLoses(lim: Limits, setup: Setup, s: Running, pending: bool,
                                          ops: seq<Op>) returns (run: seq<Call>)
    requires !ResetsBetween(pending, ops) && !s.fInit && (pending ==> ThBackup in s.dig && Th !in s.dig)
    ensures OpsOf(run) == ops && LostCount(lim, setup, s, run) > 0
    decreases |ops|
  {
    var op, rest := ops[0], ops[1..];
    if AppendsF(op) && pending {
      var e := Call(op, Done);
      run := [e] + AllWell(rest);
      assert run[1..] == AllWell(rest) && LosesHandle(s, e.op, e.outcome);
    } else {
      var e := Call(op, UpdateFailed);
      PhaseFollows(lim, setup, s, e);
      var tail := UnguardedLoses(lim, setup, Next(lim, setup, s, e),
                                 if AppendsF(op) then true else pending && op != Reset(K), rest);
      run := [e] + tail;
      assert run[1..] == tail;
    }
  }

  /**
   From a state without a backup and with F not started, a sequence of operations loses no context
   whatever the provider does if and only if it resets K between any two appends to F.
   */
  lemma SafeOpsExactly(lim: Limits, setup: Setup, s: Running, ops: seq<Op>)
    requires ThBackup !in s.dig && !s.fInit
    ensures ResetsBetween(false, ops)
            <==> forall run: seq<Call> :: OpsOf(run) == ops ==> LostCount(lim, setup, s, run) == 0
  {
    if ResetsBetween(false, ops) {
      forall run: seq<Call> | OpsOf(run) == ops
        ensures LostCount(lim, setup, s, run) == 0
      {
        ResetsBetweenSuffice(lim, setup, s, false, run);
      }
    } else {
      var run := UnguardedLoses(lim, setup, s, false, ops);
    }
  }
}
