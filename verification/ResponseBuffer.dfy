/** Bounded output buffers, possibly seen through a fixed offset. */
module ResponseBuffers {
  import opened Contexts

  datatype ResponseBufError = Overflow

  /** `t` with `b` laid over it from `o` on, and longer where `b` reaches past its end. */
  function Overlay(t: seq<u8>, o: nat, b: seq<u8>): (r: seq<u8>)
    requires o <= |t|
    ensures |r| == if o + |b| <= |t| then |t| else o + |b|
  {
    t[..o] + b + if o + |b| <= |t| then t[o + |b|..] else []
  }

  /** A byte slice of which everything before `base` is out of reach; `base` is zero for the slice itself. */
  class ResponseBuffer {
    const data: array<u8>
    const base: nat

    constructor (data: array<u8>, base: nat)
      ensures this.data == data && this.base == base
    {
      this.data := data;
      this.base := base;
    }

    function Capacity(): nat {
      if base <= data.Length then data.Length - base else 0
    }

    /** The bytes the view covers. */
    ghost function View(): (v: seq<u8>)
      reads data
      ensures |v| == Capacity()
    {
      data[data.Length - Capacity()..]
    }

    /** The bytes before the view. */
    ghost function Outside(): seq<u8>
      reads data
    {
      data[..data.Length - Capacity()]
    }

    /** All of the bytes are written or none, and nothing before the view changes. */
    method WriteAt(offset: nat, bytes: seq<u8>) returns (r: Result<(), ResponseBufError>)
      modifies data
      ensures r.Ok? <==> base + offset + |bytes| <= data.Length
      ensures r.Ok? ==> View() == Overlay(old(View()), offset, bytes)
      ensures r.Err? ==> View() == old(View())
      ensures Outside() == old(Outside())
    {
      var start := base + offset;
      if start + |bytes| > data.Length {
        return Err(Overflow);
      }
      forall k | 0 <= k < |bytes| {
        data[start + k] := bytes[k];
      }
      assert View() == Overlay(old(View()), offset, bytes);
      return Ok(());
    }

    method Clear() returns (r: Result<(), ResponseBufError>)
      modifies data
      ensures r.Ok? && View() == seq(Capacity(), _ => 0) && Outside() == old(Outside())
    {
      for i := 0 to Capacity()
        invariant View()[..i] == seq(i, _ => 0)
        invariant Outside() == old(Outside())
      {
        var w := WriteAt(i, [0]);
        assert View()[..i + 1] == seq(i + 1, _ => 0);
      }
      assert View() == View()[..Capacity()];
      return Ok(());
    }

    method ReadRange(start: nat, end: nat) returns (r: Result<seq<u8>, ResponseBufError>)
      ensures r.Ok? <==> start <= end && base + end <= data.Length
      ensures r.Ok? ==> r.value == View()[start..end]
    {
      if start > end || base + end > data.Length {
        return Err(Overflow);
      }
      assert View() == data[base..];
      assert data[base..][start..end] == data[base + start..base + end];
      return Ok(data[base + start..base + end]);
    }
  }
}
