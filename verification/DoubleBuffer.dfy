/** The stream of bytes a connection writes: a buffer being sent, a buffer being
    filled and messages that fit neither (fuzzy_log_packets/src/double_buffer.rs),
    and the socket writer that drains them (TcpIo in reactor/src/lib.rs). A buffer's
    capacity is explicit; growing one picks any capacity that is large enough. */
module WriteStreams {

  type Byte = x: int | 0 <= x < 256

  const MAX_WRITE_BUFFER_SIZE: nat := 10240

  function Concat(pieces: seq<seq<Byte>>): seq<Byte> {
    if pieces == [] then [] else pieces[0] + Concat(pieces[1..])
  }

  lemma {:induction false} ConcatAppend(pieces: seq<seq<Byte>>, last: seq<Byte>)
    ensures Concat(pieces + [last]) == Concat(pieces) + last
  {
    if pieces == [] {
      assert pieces + [last] == [last];
      assert Concat([last]) == last + Concat([]);
    } else {
      assert (pieces + [last])[1..] == pieces[1..] + [last];
      ConcatAppend(pieces[1..], last);
    }
  }

  lemma ConcatFrom(pieces: seq<seq<Byte>>, i: nat)
    requires i < |pieces|
    ensures Concat(pieces[i..]) == pieces[i] + Concat(pieces[i + 1..])
  {
    assert pieces[i..][0] == pieces[i] && pieces[i..][1..] == pieces[i + 1..];
  }

  lemma SuffixOf(a: seq<Byte>, b: seq<Byte>, k: nat)
    requires k <= |a|
    ensures (a + b)[k..] == a[k..] + b
  {
  }

  /** Sending size bytes of first from position k moves them to the wire. */
  lemma SentOff(wire: seq<Byte>, first: seq<Byte>, second: seq<Byte>, tail: seq<Byte>, k: nat, size: nat,
                all: seq<Byte>)
    requires k + size <= |first| && wire + (first + second + tail)[k..] == all
    ensures var sent := first[k..][..size];
      && wire + sent + (first + second + tail)[k + size..] == all
      && (k + size == |first| ==> wire + sent + (second + tail) == all)
  {
    var held, sent := first + second + tail, first[k..][..size];
    assert held[k..] == sent + held[k + size..];
    assert held[|first|..] == second + tail;
  }

  predicate CanHold(buffer: seq<Byte>, capacity: nat, bytes: nat) {
    capacity - |buffer| >= bytes
  }

  class DoubleBuffer {
    var first: seq<Byte>
    var firstCap: nat
    var second: seq<Byte>
    var secondCap: nat
    var pending: seq<seq<Byte>>

    /** The second buffer is used only behind the first. */
    ghost predicate Valid()
      reads this
    {
      |first| <= firstCap && |second| <= secondCap && (|second| > 0 ==> |first| > 0)
    }

    /** Everything held, in the order it was filled in. */
    ghost function Contents(): seq<Byte>
      reads this
    {
      first + second + Concat(pending)
    }

    predicate IsEmpty()
      reads this
    {
      first == [] && second == [] && pending == []
    }

    /** What the writer relies on: nothing to send, or something in first. */
    predicate Ready()
      reads this
    {
      IsEmpty() || first != []
    }

    constructor (capacity: nat)
      ensures Valid() && IsEmpty() && firstCap == secondCap == capacity
    {
      first, second, pending := [], [], [];
      firstCap, secondCap := capacity, capacity;
    }

    predicate CanHoldBytes(bytes: nat)
      reads this
    {
      pending == [] && ((second == [] && CanHold(first, firstCap, bytes)) || CanHold(second, secondCap, bytes))
    }

    method Grow(capacity: nat, need: nat) returns (grown: nat)
      ensures grown >= need && (need <= capacity ==> grown == capacity)
    {
      grown := capacity;
      if need > capacity {
        grown :| grown >= need;
      }
    }

    method TryFillBuffer(bytes: seq<Byte>) returns (added: bool)
      requires Valid()
      modifies this`first, this`firstCap, this`second, this`secondCap
      ensures Valid()
      ensures added <==> old((second == [] && (CanHold(first, firstCap, |bytes|) || first == []))
                             || CanHold(second, secondCap, |bytes|) || secondCap < MAX_WRITE_BUFFER_SIZE)
      ensures first + second == old(first + second) + if added then bytes else []
      ensures old(second == [] && CanHold(first, firstCap, |bytes|)) ==> second == [] && firstCap == old(firstCap)
      ensures old(CanHold(second, secondCap, |bytes|)) ==>
        secondCap == old(secondCap) && |second| <= old(|second|) + |bytes|
      ensures old(first) <= first && (old(first == [] && second == []) && bytes != [] ==> first != [])
    {
      if second == [] {
        if CanHold(first, firstCap, |bytes|) || first == [] {
          firstCap := Grow(firstCap, |first| + |bytes|);
          first := first + bytes;
          assert first + second == first;
          assert old(first + second) == old(first);
          return true;
        }
      }
      if CanHold(second, secondCap, |bytes|) || secondCap < MAX_WRITE_BUFFER_SIZE {
        secondCap := Grow(secondCap, |second| + |bytes|);
        second := second + bytes;
        assert first + second == old(first + second) + bytes;
        return true;
      }
      return false;
    }

    /** The loop of fill. The code's check that every piece was added holds when the
        whole message fits. */
    method FillPieces(pieces: seq<seq<Byte>>) returns (added: bool)
      requires Valid() && CanHoldBytes(|Concat(pieces)|)
      modifies this`first, this`firstCap, this`second, this`secondCap
      ensures Valid() && added && first + second == old(first + second) + Concat(pieces) && old(first) <= first
    {
      ghost var inFirst := second == [] && CanHold(first, firstCap, |Concat(pieces)|);
      added := true;
      for i := 0 to |pieces|
        invariant Valid() && added && old(first) <= first
        invariant first + second + Concat(pieces[i..]) == old(first + second) + Concat(pieces)
        invariant inFirst ==> second == [] && CanHold(first, firstCap, |Concat(pieces[i..])|)
        invariant !inFirst ==> CanHold(second, secondCap, |Concat(pieces[i..])|)
      {
        ConcatFrom(pieces, i);
        var now := TryFillBuffer(pieces[i]);
        added := added && now;
      }
      assert pieces[|pieces|..] == [];
    }

    /** fill: a message in pieces goes into the buffers if it fits, and otherwise
        waits. */
    method Fill(pieces: seq<seq<Byte>>) returns (added: bool)
      requires Valid()
      modifies this
      ensures Valid() && Contents() == old(Contents()) + Concat(pieces)
      ensures added == old(CanHoldBytes(|Concat(pieces)|))
      ensures old(first) <= first
      ensures pending == old(pending) || pending == old(pending) + [Concat(pieces)]
      ensures old(Ready()) && Concat(pieces) != [] ==>
        (Ready() <==> !old(IsEmpty() && |Concat(pieces)| > firstCap && |Concat(pieces)| > secondCap))
    {
      var total := Concat(pieces);
      if pending != [] || !CanHoldBytes(|total|) {
        ConcatAppend(pending, total);
        pending := pending + [total];
        return false;
      }
      added := FillPieces(pieces);
      assert added;
    }

    method FlushPending()
      requires Valid()
      modifies this
      ensures Valid() && Contents() == old(Contents()) && old(first) <= first
      ensures |pending| <= |old(pending)| && pending == old(pending)[|old(pending)| - |pending|..]
      ensures old(first == [] && second == [] && pending != [] && pending[0] != []) ==> first != []
    {
      hide Concat;
      var waiting := pending;
      assert waiting[0..] == waiting;
      pending := [];
      var i := 0;
      while i < |waiting|
        invariant 0 <= i <= |waiting| && Valid() && pending == [] && old(first) <= first
        invariant first + second + Concat(waiting[i..]) == old(Contents())
        invariant i == 0 ==> first == old(first) && second == old(second)
        invariant i > 0 && old(first == [] && second == []) && waiting[0] != [] ==> first != []
      {
        ConcatFrom(waiting, i);
        var added := TryFillBuffer(waiting[i]);
        if !added {
          break;
        }
        i := i + 1;
      }
      pending := waiting[i..];
    }

    /** swap_if_needed: first has been sent; go on with what is behind it. */
    method SwapIfNeeded()
      requires Valid()
      modifies this
      ensures Valid() && Contents() == old(second + Concat(pending))
      ensures old(forall i :: 0 <= i < |pending| ==> pending[i] != []) ==> Ready()
    {
      first := [];
      if |second| > 0 {
        first, second := second, first;
        firstCap, secondCap := secondCap, firstCap;
      }
      assert first + second == old(second);
      FlushPending();
    }
  }

  // ---------------------------------------------------------------------------
  // The socket writer

  /** What the socket did with the bytes offered to it. */
  datatype WriteResult = Wrote(size: nat) | WouldBlock | Interrupted | Failed

  class TcpIo {
    const buffer: DoubleBuffer
    var bytesWritten: nat
    var pollingWrite: bool
    ghost var wire: seq<Byte>
    ghost var filled: seq<Byte>

    ghost predicate Valid()
      reads this, buffer
    {
      && buffer.Valid()
      && (bytesWritten < |buffer.first| || bytesWritten == 0)
      && wire + buffer.Contents()[bytesWritten..] == filled
    }

    /** Bytes on the wire, then the unwritten part of first, then second, then
        pending, are all bytes ever filled, in order. */
    lemma InOrder()
      requires Valid()
      ensures filled == wire + buffer.first[bytesWritten..] + buffer.second + Concat(buffer.pending)
    {
    }

    constructor (capacity: nat)
      ensures Valid() && fresh(buffer) && filled == [] && buffer.IsEmpty()
      ensures buffer.firstCap == buffer.secondCap == capacity
    {
      buffer := new DoubleBuffer(capacity);
      bytesWritten, pollingWrite, wire, filled := 0, false, [], [];
    }

    /** add_bytes_to_write. */
    method AddBytesToWrite(pieces: seq<seq<Byte>>)
      requires Valid()
      modifies this, buffer
      ensures Valid() && filled == old(filled) + Concat(pieces) && wire == old(wire) && pollingWrite
      ensures buffer.pending == old(buffer.pending) || buffer.pending == old(buffer.pending) + [Concat(pieces)]
      ensures old(buffer.Ready()) && Concat(pieces) != [] ==>
        (buffer.Ready() <==>
         !old(buffer.IsEmpty() && |Concat(pieces)| > buffer.firstCap && |Concat(pieces)| > buffer.secondCap))
    {
      pollingWrite := true;
      ghost var before := buffer.Contents();
      var added := buffer.Fill(pieces);
      SuffixOf(before, Concat(pieces), bytesWritten);
      filled := filled + Concat(pieces);
    }

    /** write: offer the socket what is left of first. */
    method Write(res: WriteResult) returns (ok: bool, wrote: nat)
      requires Valid() && (res.Wrote? ==> res.size <= |buffer.first| - bytesWritten)
      modifies this, buffer
      ensures Valid() && filled == old(filled)
      ensures ok <==> old(buffer.IsEmpty()) || !res.Failed?
      ensures wrote == if old(buffer.IsEmpty()) || !res.Wrote? then 0 else res.size
      ensures wire == old(wire + buffer.first[bytesWritten..][..wrote])
      ensures pollingWrite ==
        if old(buffer.IsEmpty()) || res.WouldBlock? then false else res.Wrote? || old(pollingWrite)
      ensures old(bytesWritten + wrote < |buffer.first|) ==> unchanged(buffer)
      ensures old(forall i :: 0 <= i < |buffer.pending| ==> buffer.pending[i] != []) && old(buffer.Ready()) ==>
        buffer.Ready()
    {
      hide Concat;
      if buffer.IsEmpty() {
        pollingWrite := false;
        return true, 0;
      }
      match res
      case WouldBlock =>
        pollingWrite := false;
        return true, 0;
      case Interrupted =>
        return true, 0;
      case Failed =>
        return false, 0;
      case Wrote(size) =>
        Sent(size);
        return true, size;
    }

    /** The socket took size bytes of what is left of first. */
    method Sent(size: nat)
      requires Valid() && size <= |buffer.first| - bytesWritten
      modifies this, buffer
      ensures Valid() && filled == old(filled) && wire == old(wire + buffer.first[bytesWritten..][..size])
      ensures pollingWrite
      ensures old(bytesWritten + size < |buffer.first|) ==> unchanged(buffer)
      ensures old(forall i :: 0 <= i < |buffer.pending| ==> buffer.pending[i] != []) && old(buffer.Ready()) ==>
        buffer.Ready()
    {
      hide Concat;
      ghost var sent := buffer.first[bytesWritten..][..size];
      SentOff(wire, buffer.first, buffer.second, Concat(buffer.pending), bytesWritten, size, filled);
      wire := wire + sent;
      bytesWritten := bytesWritten + size;
      pollingWrite := true;
      if bytesWritten == |buffer.first| {
        bytesWritten := 0;
        buffer.SwapIfNeeded();
      }
    }
  }

  /** The writer's debug check, that a buffer with something to send has it in
      first, fails after a message larger than the capacity on an idle connection. */
  method OversizedOnIdle(capacity: nat) returns (io: TcpIo)
    ensures io.Valid() && !io.buffer.IsEmpty() && io.buffer.first == []
  {
    io := new TcpIo(capacity);
    var message: seq<Byte> := seq(capacity + 1, _ => 0);
    assert Concat([message]) == message + Concat([]);
    io.AddBytesToWrite([message]);
  }
}
