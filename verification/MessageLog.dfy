/** The message log: a caller's buffer that records messages until it is full. */
module MessageLog {
  import opened Codec

  const MODE_ENABLE: bv32 := 1
  const STATUS_FULL: bv32 := 1

  /** size_t is 64 bits wide. */
  const SIZE_LIMIT := 0x1_0000_0000_0000_0000

  datatype Log = Log(capacity: nat, bytes: Bytes, mode: bv32, status: bv32)

  datatype Op = Init(capacity: nat) | SetMode(mode: bv32) | Reset | Append(m: Bytes)

  predicate Enabled(log: Log)
  {
    log.mode & MODE_ENABLE != 0
  }

  predicate Full(log: Log)
  {
    log.status & STATUS_FULL != 0
  }

  function Step(log: Log, op: Op): (r: Log)
  {
    match op
    case Init(capacity) => Log(capacity, [], 0, 0)
    case SetMode(mode) => log.(mode := mode)
    case Reset => log.(bytes := [], mode := 0, status := 0)
    case Append(m) =>
      if !Enabled(log) || Full(log) then log
      else if |log.bytes| + |m| > log.capacity then
        log.(bytes := log.bytes + m[..if log.capacity < |log.bytes| then 0 else log.capacity - |log.bytes|],
             status := log.status | STATUS_FULL)
      else log.(bytes := log.bytes + m)
  }

  class MessageLogger {
    var buffer: array<Byte>
    var size: nat
    var mode: bv32
    var status: bv32

    ghost predicate Valid()
      reads this
    {
      size <= buffer.Length < SIZE_LIMIT
    }

    ghost function View(): (log: Log)
      requires Valid()
      reads this, buffer
    {
      Log(buffer.Length, buffer[..size], mode, status)
    }

    constructor (buffer: array<Byte>)
      requires buffer.Length < SIZE_LIMIT
      ensures Valid() && this.buffer == buffer && View() == Log(buffer.Length, [], 0, 0)
    {
      this.buffer, size, mode, status := buffer, 0, 0, 0;
    }

    method InitLog(buffer: array<Byte>)
      requires Valid() && buffer.Length < SIZE_LIMIT
      modifies this
      ensures Valid() && this.buffer == buffer && View() == Step(old(View()), Init(buffer.Length))
    {
      this.buffer := buffer;
      size, mode, status := 0, 0, 0;
    }

    method SetLogMode(mode: bv32)
      requires Valid()
      modifies this`mode
      ensures Valid() && View() == Step(old(View()), SetMode(mode))
    {
      this.mode := mode;
    }

    method ResetLog()
      requires Valid()
      modifies this`size, this`mode, this`status
      ensures Valid() && View() == Step(old(View()), Reset)
    {
      size, mode, status := 0, 0, 0;
    }

    /** Message sizes are such that the sum of sizes does not wrap around. */
    method AppendLog(m: Bytes)
      requires Valid() && size + |m| < SIZE_LIMIT
      modifies this`size, this`status, buffer
      ensures Valid() && buffer == old(buffer) && View() == Step(old(View()), Append(m))
    {
      if mode & MODE_ENABLE != 0 && status & STATUS_FULL == 0 {
        if size + |m| > buffer.Length {
          var room := buffer.Length - size;
          Copy(m[..room]);
          status := status | STATUS_FULL;
          size := buffer.Length;
          assert buffer[..size] == old(buffer[..size]) + m[..room];
        } else {
          Copy(m);
          size := size + |m|;
        }
      }
    }

    method Copy(m: Bytes)
      requires Valid() && size + |m| <= buffer.Length
      modifies buffer
      ensures buffer[..size + |m|] == old(buffer[..size]) + m
    {
      ghost var before := buffer[..size];
      for i := 0 to |m|
        invariant buffer[..size + i] == before + m[..i]
      {
        buffer[size + i] := m[i];
        assert buffer[..size + i + 1] == buffer[..size + i] + [m[i]];
        assert m[..i + 1] == m[..i] + [m[i]];
      }
      assert m[..|m|] == m;
    }
  }

  // Whole runs.

  /** Everything appended while enabled since the last initialisation or reset. */
  function Recorded(log: Log, total: Bytes, op: Op): (r: Bytes)
  {
    match op
    case Init(_) => []
    case Reset => []
    case SetMode(_) => total
    case Append(m) => if Enabled(log) then total + m else total
  }

  /** The log holds the first bytes of the total, and is marked full exactly when some are missing. */
  ghost predicate Holds(log: Log, total: Bytes)
  {
    && log.bytes == total[..if |total| < log.capacity then |total| else log.capacity]
    && (Full(log) <==> |total| > log.capacity)
    && (log.status == 0 || log.status == STATUS_FULL)
  }

  lemma StepHolds(log: Log, total: Bytes, op: Op)
    requires Holds(log, total)
    ensures Holds(Step(log, op), Recorded(log, total, op))
  {
    if op.Append? && Enabled(log) {
      var m := op.m;
      var all := total + m;
      if Full(log) {
        assert all[..log.capacity] == total[..log.capacity];
      } else {
        assert log.bytes == total;
        if |total| + |m| > log.capacity {
          assert all[..log.capacity] == total + m[..log.capacity - |total|];
        } else {
          assert all[..|all|] == all;
        }
      }
    }
  }

  function Run(log: Log, ops: seq<Op>): (r: Log)
    decreases |ops|
  {
    if ops == [] then log else Run(Step(log, ops[0]), ops[1..])
  }

  function TotalOf(log: Log, total: Bytes, ops: seq<Op>): (r: Bytes)
    decreases |ops|
  {
    if ops == [] then total else TotalOf(Step(log, ops[0]), Recorded(log, total, ops[0]), ops[1..])
  }

  /** Over every run, the log is the truncation of what was recorded, and says so. */
  lemma {:induction false} RunHolds(log: Log, total: Bytes, ops: seq<Op>)
    requires Holds(log, total)
    ensures Holds(Run(log, ops), TotalOf(log, total, ops))
    decreases |ops|
  {
    if ops != [] {
      StepHolds(log, total, ops[0]);
      RunHolds(Step(log, ops[0]), Recorded(log, total, ops[0]), ops[1..]);
    }
  }

  predicate Restarts(op: Op)
  {
    op.Init? || op.Reset?
  }

  /** Once full, the contents and the mark stay as they are until initialisation or reset. */
  lemma {:induction false} FullIsSticky(log: Log, ops: seq<Op>)
    requires Full(log) && forall i :: 0 <= i < |ops| ==> !Restarts(ops[i])
    ensures var r := Run(log, ops);
            r.bytes == log.bytes && r.status == log.status && r.capacity == log.capacity
    decreases |ops|
  {
    if ops != [] {
      assert !Restarts(ops[0]);
      FullIsSticky(Step(log, ops[0]), ops[1..]);
    }
  }

  /** A log records only once it is enabled, and then what fits, byte for byte. */
  lemma EnabledLogRecords(log: Log, capacity: nat, m: Bytes)
    ensures Run(log, [Init(capacity), Append(m)]) == Log(capacity, [], 0, 0)
    ensures var r := Run(log, [Init(capacity), SetMode(1), Append(m)]);
            && r.bytes == (if |m| <= capacity then m else m[..capacity])
            && (r.status == if |m| <= capacity then 0 else 1) && r.mode == 1
  {
    var a, b, c := Init(capacity), SetMode(1), Append(m);
    assert [a, c][1..] == [c] && [c][1..] == [] && [a, b, c][1..] == [b, c] && [b, c][1..] == [c];
    var l := Log(capacity, [], 0, 0);
    assert Run(l, [c]) == Run(Step(l, c), []);
    assert Run(l.(mode := 1), [c]) == Run(Step(l.(mode := 1), c), []);
    assert [] + m == m;
    if |m| > capacity {
      assert [] + m[..capacity] == m[..capacity];
    }
  }
}
