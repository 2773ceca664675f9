/**
 Variable-length event records.  One function searches a list of them by walking, another
 parses a single record and reports where the next one starts; the two walks must agree.
 */
module Events {
  import opened Codec
  import opened Transcript

  datatype Event = Event(instanceId: nat, reserved: nat, svhId: Byte, vendorId: Bytes,
                         typeId: nat, detail: Bytes)
  {
    predicate Valid()
    {
      && instanceId < 0x1_0000_0000 && reserved < 0x1_0000_0000 && |vendorId| < 256
      && typeId < 0x1_0000 && |detail| < 0x1_0000
    }
  }

  /** The layout of one record. */
  function Serialize(e: Event): (b: Bytes)
    requires e.Valid()
    ensures |b| == 14 + |e.vendorId| + |e.detail|
  {
    WriteLE(e.instanceId, 4) + WriteLE(e.reserved, 4) + [e.svhId, |e.vendorId|] + e.vendorId
    + WriteLE(e.typeId, 2) + WriteLE(|e.detail|, 2) + e.detail
  }

  predicate AllValid(es: seq<Event>)
  {
    forall i :: 0 <= i < |es| ==> es[i].Valid()
  }

  function SerializeAll(es: seq<Event>): (b: Bytes)
    requires AllValid(es)
  {
    if es == [] then [] else Serialize(es[0]) + SerializeAll(es[1..])
  }

  /** Where the k-th record starts. */
  function Offset(es: seq<Event>, k: nat): (r: nat)
    requires AllValid(es) && k <= |es|
  {
    |SerializeAll(es[..k])|
  }

  // What the record at the start of a byte string says, read as the walkers read it.

  predicate HasHeader(b: Bytes)
  {
    |b| >= 10 && |b| >= 14 + b[9] as int
  }

  function DetailLen(b: Bytes): (n: nat)
    requires HasHeader(b)
  {
    ReadUint16(b[12 + b[9]..])
  }

  /** What the Integrator is told about a record. */
  datatype Report = Report(instanceId: nat, svhId: Byte, vendorId: Bytes, typeId: nat, detail: Bytes)

  function ReportOf(e: Event): (r: Report)
  {
    Report(e.instanceId, e.svhId, e.vendorId, e.typeId, e.detail)
  }

  /** The report read from the bytes of a record. */
  function Parsed(b: Bytes): (r: Report)
    requires HasHeader(b) && NextStart(b) <= |b|
  {
    var n := b[9];
    Report(ReadUint32(b), b[8], b[10..10 + n], ReadUint16(b[10 + n..]), b[14 + n..NextStart(b)])
  }

  function NextStart(b: Bytes): (n: nat)
    requires HasHeader(b)
  {
    14 + b[9] as int + DetailLen(b)
  }

  lemma SliceOf(a: Bytes, x: Bytes, c: Bytes)
    ensures (a + x + c)[|a|..|a| + |x|] == x
  {
  }

  lemma FixedFields(e: Event, rest: Bytes)
    requires e.Valid()
    ensures var b := Serialize(e) + rest;
            && b[..4] == WriteLE(e.instanceId, 4)
            && b[8] == e.svhId && b[9] == |e.vendorId|
            && b[10..10 + |e.vendorId|] == e.vendorId
            && b[10 + |e.vendorId|..12 + |e.vendorId|] == WriteLE(e.typeId, 2)
            && b[12 + |e.vendorId|..14 + |e.vendorId|] == WriteLE(|e.detail|, 2)
            && b[14 + |e.vendorId|..14 + |e.vendorId| + |e.detail|] == e.detail
  {
    Slices(WriteLE(e.instanceId, 4), WriteLE(e.reserved, 4), [e.svhId, |e.vendorId|], e.vendorId,
           WriteLE(e.typeId, 2), WriteLE(|e.detail|, 2), e.detail, rest);
  }

  /** Each part of a concatenation is found at the sum of the lengths before it. */
  lemma Slices(a: Bytes, r: Bytes, h: Bytes, v: Bytes, t: Bytes, l: Bytes, d: Bytes, rest: Bytes)
    requires |a| == |r| == 4 && |h| == |t| == |l| == 2
    ensures var b := a + r + h + v + t + l + d + rest;
            && b[..4] == a && b[8] == h[0] && b[9] == h[1]
            && b[10..10 + |v|] == v && b[10 + |v|..12 + |v|] == t
            && b[12 + |v|..14 + |v|] == l && b[14 + |v|..14 + |v| + |d|] == d
  {
    var b := a + r + h + v + t + l + d + rest;
    assert b == [] + a + (r + h + v + t + l + d + rest);
    assert b == (a + r) + h + (v + t + l + d + rest);
    assert b == (a + r + h) + v + (t + l + d + rest);
    assert b == (a + r + h + v) + t + (l + d + rest);
    assert b == (a + r + h + v + t) + l + (d + rest);
    SliceOf([], a, r + h + v + t + l + d + rest);
    SliceOf(a + r + h, v, t + l + d + rest);
    SliceOf(a + r + h + v, t, l + d + rest);
    SliceOf(a + r + h + v + t, l, d + rest);
    SliceOf(a + r + h + v + t + l, d, rest);
  }

  /** Reading a number stored at the front of a longer byte string. */
  lemma ReadStored16(b: Bytes, v: nat)
    requires |b| >= 2 && v < 0x1_0000 && b[..2] == WriteLE(v, 2)
    ensures ReadUint16(b) == v
  {
    ReadBack16(v);
    assert WriteLE(v, 2)[..2] == WriteLE(v, 2);
  }

  lemma ReadStored32(b: Bytes, v: nat)
    requires |b| >= 4 && v < 0x1_0000_0000 && b[..4] == WriteLE(v, 4)
    ensures ReadUint32(b) == v
  {
    ReadBack32(v);
    assert WriteLE(v, 4)[..4] == WriteLE(v, 4);
  }

  /** Parsing undoes serialising, whatever follows the record. */
  lemma ParseSerialized(e: Event, rest: Bytes)
    requires e.Valid()
    ensures var b := Serialize(e) + rest;
            && HasHeader(b) && NextStart(b) == |Serialize(e)| && Parsed(b) == ReportOf(e)
            && ReadUint32(b) == e.instanceId
  {
    var b, n := Serialize(e) + rest, |e.vendorId|;
    FixedFields(e, rest);
    ReadStored32(b, e.instanceId);
    assert b[10 + n..][..2] == b[10 + n..12 + n] && b[12 + n..][..2] == b[12 + n..14 + n];
    ReadStored16(b[10 + n..], e.typeId);
    ReadStored16(b[12 + n..], |e.detail|);
  }

  lemma Associative(x: Bytes, y: Bytes, z: Bytes)
    ensures x + (y + z) == (x + y) + z
  {
  }

  lemma {:induction false} SplitList(es: seq<Event>, k: nat)
    requires AllValid(es) && k <= |es|
    ensures SerializeAll(es) == SerializeAll(es[..k]) + SerializeAll(es[k..])
  {
    if k == 0 {
      assert es[k..] == es;
    } else {
      SplitList(es[1..], k - 1);
      assert es[..k][1..] == es[1..][..k - 1] && es[1..][k - 1..] == es[k..];
      Associative(Serialize(es[0]), SerializeAll(es[..k][1..]), SerializeAll(es[k..]));
    }
  }

  lemma SplitHead(es: seq<Event>, k: nat)
    requires AllValid(es) && k < |es|
    ensures SerializeAll(es[k..]) == Serialize(es[k]) + SerializeAll(es[k + 1..])
  {
    assert es[k..][1..] == es[k + 1..];
  }

  lemma NextOffset(es: seq<Event>, k: nat)
    requires AllValid(es) && k < |es|
    ensures Offset(es, k + 1) == Offset(es, k) + |Serialize(es[k])|
  {
    var upTo := es[..k + 1];
    SplitList(upTo, k);
    assert upTo[..k] == es[..k];
    SplitHead(upTo, k);
    assert upTo[k + 1..] == [];
  }

  lemma Regrouped(front: Bytes, record: Bytes, others: Bytes, tail: Bytes)
    ensures (front + (record + others) + tail)[|front|..] == record + (others + tail)
  {
  }

  /** From the k-th start on, the list reads as the k-th record followed by the others. */
  lemma AtOffset(es: seq<Event>, k: nat, tail: Bytes)
    requires AllValid(es) && k < |es|
    ensures var data := SerializeAll(es) + tail;
            && Offset(es, k) <= |data|
            && data[Offset(es, k)..] == Serialize(es[k]) + (SerializeAll(es[k + 1..]) + tail)
            && Offset(es, k + 1) == Offset(es, k) + |Serialize(es[k])|
  {
    SplitList(es, k);
    SplitHead(es, k);
    NextOffset(es, k);
    Regrouped(SerializeAll(es[..k]), Serialize(es[k]), SerializeAll(es[k + 1..]), tail);
  }

  /** What the walkers see at the start of the k-th record. */
  lemma RecordAt(es: seq<Event>, k: nat, tail: Bytes)
    requires AllValid(es) && k < |es|
    ensures var data, at := SerializeAll(es) + tail, Offset(es, k);
            && at <= |data| && HasHeader(data[at..])
            && at + NextStart(data[at..]) == Offset(es, k + 1) <= |data|
            && ReadUint32(data[at..]) == es[k].instanceId && Parsed(data[at..]) == ReportOf(es[k])
  {
    AtOffset(es, k, tail);
    ParseSerialized(es[k], SerializeAll(es[k + 1..]) + tail);
  }

  /** k steps of the parser from the start of the list. */
  function Walk(data: Bytes, k: nat): (r: Option<nat>)
  {
    if k == 0 then Some(0)
    else
      var at := Walk(data, k - 1);
      if at.None? then None else StepFrom(data, at.value)
  }

  function StepFrom(data: Bytes, at: nat): (r: Option<nat>)
  {
    if at > |data| || !HasHeader(data[at..]) then None else Some(at + NextStart(data[at..]))
  }

  lemma StepReachesNext(es: seq<Event>, k: nat, tail: Bytes)
    requires AllValid(es) && k < |es|
    ensures StepFrom(SerializeAll(es) + tail, Offset(es, k)) == Some(Offset(es, k + 1))
  {
    RecordAt(es, k, tail);
    StepIs(SerializeAll(es) + tail, Offset(es, k), Offset(es, k + 1));
  }

  lemma StepIs(data: Bytes, at: nat, next: nat)
    requires at <= |data| && HasHeader(data[at..]) && at + NextStart(data[at..]) == next
    ensures StepFrom(data, at) == Some(next)
  {
  }

  lemma {:induction false} WalkFollows(data: Bytes, starts: seq<nat>, k: nat)
    requires k < |starts| && starts[0] == 0
    requires forall i :: 0 <= i < k ==> StepFrom(data, starts[i]) == Some(starts[i + 1])
    ensures Walk(data, k) == Some(starts[k])
  {
    if k > 0 {
      WalkFollows(data, starts, k - 1);
    }
  }

  /** The parser's walk and the list agree at every step. */
  lemma WalkReachesOffsets(es: seq<Event>, k: nat, tail: Bytes)
    requires AllValid(es) && k <= |es|
    ensures Walk(SerializeAll(es) + tail, k) == Some(Offset(es, k))
  {
    var data := SerializeAll(es) + tail;
    var starts := seq(k + 1, i requires 0 <= i <= k => Offset(es, i));
    assert starts[0] == 0 by { assert es[..0] == []; }
    forall i | 0 <= i < k
      ensures StepFrom(data, starts[i]) == Some(starts[i + 1])
    {
      StepReachesNext(es, i, tail);
    }
    WalkFollows(data, starts, k);
  }

  /** i is the first position with the target ID. */
  predicate FoundAt(es: seq<Event>, i: nat, target: nat)
  {
    i < |es| && es[i].instanceId == target && forall j :: 0 <= j < i ==> es[j].instanceId != target
  }

  /** Steps over the record at ptr, reading only its two length fields. */
  method Skip(data: Bytes, ptr: nat) returns (next: nat)
    requires ptr <= |data| && HasHeader(data[ptr..])
    ensures next == ptr + NextStart(data[ptr..])
  {
    ghost var b := data[ptr..];
    next := ptr + 4 + 4 + 1;
    var vendorIdLen: nat := data[next];
    next := next + 1;
    next := next + vendorIdLen;
    next := next + 2;
    assert data[next..] == b[12 + b[9]..];
    var detailLen := ReadUint16(data[next..]);
    next := next + 2;
    next := next + detailLen;
  }

  /**
   The search.  For a well-formed list it finds the first record with the target ID, or nothing
   exactly when there is none, reads nothing outside the list, and its cursor after k records is
   where k steps of the parser lead.
   */
  method FindInstance(data: Bytes, count: nat, target: nat, ghost es: seq<Event>, ghost tail: Bytes)
    returns (r: Option<nat>)
    requires AllValid(es) && |es| == count && data == SerializeAll(es) + tail
    ensures r.None? <==> forall i :: 0 <= i < count ==> es[i].instanceId != target
    ensures r.Some? ==> exists i :: FoundAt(es, i, target) && r.value == Offset(es, i) && Walk(data, i) == r
  {
    var ptr := 0;
    var index := 0;
    while index < count
      invariant 0 <= index <= count && ptr == Offset(es, index)
      invariant forall i :: 0 <= i < index ==> es[i].instanceId != target
    {
      RecordAt(es, index, tail);
      var instanceId := ReadUint32(data[ptr..]);
      if instanceId == target {
        WalkReachesOffsets(es, index, tail);
        assert FoundAt(es, index, target);
        return Some(ptr);
      }
      ptr := Skip(data, ptr);
      index := index + 1;
    }
    return None;
  }

  /** Parses the record at ptr, hands it to the Integrator, and reports where the next one starts. */
  method ParseAndSend(data: Bytes, ptr: nat, process: Report -> bool) returns (ok: bool, next: nat)
    requires ptr <= |data| && HasHeader(data[ptr..]) && NextStart(data[ptr..]) <= |data| - ptr
    ensures ok == process(Parsed(data[ptr..])) && next == ptr + NextStart(data[ptr..])
  {
    ghost var b := data[ptr..];
    var instanceId := ReadUint32(data[ptr..]);
    next := ptr + 8;
    var svhId := data[next];
    next := next + 1;
    var vendorIdLen: nat := data[next];
    next := next + 1;
    var vendorId := data[next..next + vendorIdLen];
    next := next + vendorIdLen;
    assert data[next..] == b[10 + vendorIdLen..] && vendorId == b[10..10 + vendorIdLen];
    var typeId := ReadUint16(data[next..]);
    next := next + 2;
    assert data[next..] == b[12 + vendorIdLen..];
    var detailLen := ReadUint16(data[next..]);
    next := next + 2;
    var detail := data[next..next + detailLen];
    assert detail == b[14 + vendorIdLen..14 + vendorIdLen + detailLen];
    next := next + detailLen;
    ok := process(Report(instanceId, svhId, vendorId, typeId, detail));
  }
}
