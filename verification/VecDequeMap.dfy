/** A queue addressed by ever-growing keys, possibly with holes
    (fuzzy_log_util/src/hash_deque_map.rs). */
module VecDequeMaps {
  import opened Options

  class VecDequeMap<V(==)> {
    var data: map<nat, V>
    var start: nat
    var next: nat
    var min: nat

    ghost predicate Valid()
      reads this
    {
      && min <= start <= next
      && (forall k :: k in data ==> start <= k < next)
    }

    /** No holes: every key from start up to next is present. */
    ghost predicate Contiguous()
      reads this
    {
      forall k :: start <= k < next ==> k in data
    }

    /** The values in key order. */
    ghost function Items(): (s: seq<V>)
      requires Valid() && Contiguous()
      reads this
      ensures |s| == next - start
      ensures forall i :: 0 <= i < |s| ==> s[i] == data[start + i]
    {
      seq(next - start, i requires 0 <= i < next - start reads this requires Contiguous() => data[start + i])
    }

    constructor ()
      ensures Valid() && Contiguous() && Items() == [] && start == 0 && min == 0
      ensures data == map[]
    {
      data, start, next, min := map[], 0, 0, 0;
    }

    method PushBack(val: V) returns (key: nat)
      requires Valid()
      modifies this
      ensures Valid()
      ensures key == old(next) && next == old(next) + 1 && start == old(start) && min == old(min)
      ensures data == old(data)[key := val]
      ensures old(Contiguous()) ==> Contiguous() && Items() == old(Items()) + [val]
    {
      key := next;
      data := data[key := val];
      next := next + 1;
    }

    method PopFront() returns (val: Option<V>)
      requires Valid()
      modifies this
      ensures Valid()
      ensures next == old(next)
      ensures old(data) == map[] ==> val == None && start == old(start) && data == old(data) && min == old(min)
      ensures old(data) != map[] ==>
        && start == old(start) + 1 && min == start && data == old(data) - {old(start)}
        && val == if old(start) in old(data) then Some(old(data)[old(start)]) else None
      ensures old(Contiguous()) && old(data) != map[] ==>
        Contiguous() && old(Items()) == [val.value] + Items()
    {
      if data == map[] {
        return None;
      }
      ghost var k :| k in data;
      val := if start in data then Some(data[start]) else None;
      data := data - {start};
      start := start + 1;
      min := start;
    }

    /** The code aborts on a key below min. */
    method Insert(key: nat, val: V) returns (was: Option<V>)
      requires Valid() && key >= min
      modifies this
      ensures Valid()
      ensures data == old(data)[key := val] && min == old(min)
      ensures was == if key in old(data) then Some(old(data)[key]) else None
      ensures start == if key < old(start) then key else old(start)
      ensures next == if key >= old(next) then key + 1 else old(next)
    {
      if key < start {
        start := key;
      }
      if key >= next {
        next := key + 1;
      }
      was := if key in data then Some(data[key]) else None;
      data := data[key := val];
    }

    function Get(key: nat): (val: Option<V>)
      reads this
      ensures Valid() && (key < start || key >= next) ==> val == None
    {
      if key in data then Some(data[key]) else None
    }

    function Front(): Option<V>
      reads this
    {
      if start in data then Some(data[start]) else None
    }

    /** In-place update through get_mut. */
    method Update(key: nat, val: V)
      requires Valid() && key in data
      modifies this
      ensures Valid() && start == old(start) && next == old(next) && min == old(min)
      ensures data == old(data)[key := val]
      ensures old(Contiguous()) ==> Contiguous() && Items() == old(Items())[key - start := val]
    {
      data := data[key := val];
    }
  }
}
