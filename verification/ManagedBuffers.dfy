/** The managed buffer: a fixed-size byte array with a fill level that refuses to overflow. */
module ManagedBuffers {
  import opened Codec

  datatype Status = Success | BufferFull | CryptoError | MissingKey

  predicate Fits(contents: Bytes, capacity: nat, m: Bytes)
  {
    |contents| + |m| <= capacity
  }

  /** The contents after an append, whether or not it was accepted. */
  function Appended(contents: Bytes, capacity: nat, m: Bytes): (r: Bytes)
    ensures |contents| <= capacity ==> |r| <= capacity
  {
    if Fits(contents, capacity, m) then contents + m else contents
  }

  class ManagedBuffer {
    const data: array<Byte>
    var maxSize: nat
    var size: nat

    ghost predicate Valid()
      reads this
    {
      size <= maxSize <= data.Length
    }

    ghost function Contents(): (s: Bytes)
      requires Valid()
      reads this, data
      ensures |s| <= maxSize
    {
      data[..size]
    }

    constructor (storage: nat)
      ensures Valid() && Contents() == [] && fresh(data) && data.Length == storage
    {
      data := new Byte[storage];
      maxSize, size := storage, 0;
    }

    method Init(maxSize: nat)
      requires maxSize <= data.Length
      modifies this, data
      ensures Valid() && this.maxSize == maxSize && Contents() == []
      ensures forall i :: 0 <= i < maxSize ==> data[i] == 0
    {
      this.maxSize := maxSize;
      this.size := 0;
      Reset();
    }

    /** Empties the buffer and leaves no byte of the old contents behind. */
    method Reset()
      requires Valid()
      modifies this`size, data
      ensures Valid() && Contents() == []
      ensures forall i :: 0 <= i < maxSize ==> data[i] == 0
    {
      size := 0;
      for i := 0 to maxSize
        invariant size == 0
        invariant forall j :: 0 <= j < i ==> data[j] == 0
      {
        data[i] := 0;
      }
    }

    method Append(m: Bytes) returns (status: Status)
      requires Valid()
      modifies this`size, data
      ensures Valid()
      ensures Contents() == Appended(old(Contents()), maxSize, m)
      ensures status == if Fits(old(Contents()), maxSize, m) then Success else BufferFull
    {
      if |m| == 0 {
        return Success;
      }
      if |m| > maxSize - size {
        return BufferFull;
      }
      ghost var before := Contents();
      for i := 0 to |m|
        invariant size == old(size)
        invariant data[..size + i] == before + m[..i]
      {
        data[size + i] := m[i];
        assert data[..size + i + 1] == data[..size + i] + [m[i]];
        assert m[..i + 1] == m[..i] + [m[i]];
      }
      assert m[..|m|] == m;
      size := size + |m|;
      return Success;
    }
  }
}
