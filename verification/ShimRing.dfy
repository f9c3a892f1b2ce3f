/** The ring buffer of the FreeRTOS-style queue (shim_queue.c): queue_push, queue_pop
    and the counts, as they run with interrupts disabled. */
module ShimRing {

  /** `cap` slots hold at most `cap - 1` items. */
  datatype Ring<T> = Ring(data: seq<T>, head: nat, tail: nat)

  predicate RingOk<T>(r: Ring<T>) {
    r.head < |r.data| && r.tail < |r.data|
  }

  /** The queued items, oldest first. */
  function Contents<T>(r: Ring<T>): (c: seq<T>)
    requires RingOk(r)
    ensures |c| < |r.data|
  {
    if r.tail >= r.head then r.data[r.head..r.tail] else r.data[r.head..] + r.data[..r.tail]
  }

  /** queue_push: whether it accepted the item, and the new ring. */
  function Push<T>(r: Ring<T>, x: T, overwrite: bool): (p: (bool, Ring<T>))
    requires RingOk(r)
    ensures RingOk(p.1) && |p.1.data| == |r.data|
  {
    var cap := |r.data|;
    var full := (r.tail + 1) % cap == r.head;
    if full && !overwrite then (false, r)
    else
      (true, Ring(r.data[r.tail := x], if full then (r.head + 1) % cap else r.head, (r.tail + 1) % cap))
  }

  /** queue_pop of a ring that is not empty. */
  function Pop<T>(r: Ring<T>): (p: Ring<T>)
    requires RingOk(r)
    ensures RingOk(p) && |p.data| == |r.data|
  {
    r.(head := (r.head + 1) % |r.data|)
  }

  lemma Wrap(k: nat, cap: nat)
    requires k < cap
    ensures (k + 1) % cap == if k + 1 == cap then 0 else k + 1
  {
  }

  /** What a push means: refused exactly when `cap - 1` items are queued; an accepted
      item goes last, and overwriting drops the oldest to make room. */
  lemma PushContents<T>(r: Ring<T>, x: T, overwrite: bool)
    requires RingOk(r)
    ensures var full := |Contents(r)| == |r.data| - 1;
            && Push(r, x, overwrite).0 == (!full || overwrite)
            && Contents(Push(r, x, overwrite).1) ==
                 if !full then Contents(r) + [x] else if overwrite then (Contents(r) + [x])[1..] else Contents(r)
  {
    FullWhen(r);
    if |Contents(r)| < |r.data| - 1 {
      PushRoom(r, x, overwrite);
    } else {
      PushFull(r, x, overwrite);
    }
  }

  lemma FullWhen<T>(r: Ring<T>)
    requires RingOk(r)
    ensures (r.tail + 1) % |r.data| == r.head <==> |Contents(r)| == |r.data| - 1
  {
    Wrap(r.tail, |r.data|);
  }

  lemma PushRoom<T>(r: Ring<T>, x: T, overwrite: bool)
    requires RingOk(r) && |Contents(r)| < |r.data| - 1
    ensures Push(r, x, overwrite).0 && Contents(Push(r, x, overwrite).1) == Contents(r) + [x]
  {
    FullWhen(r);
    Wrap(r.tail, |r.data|);
    var d := r.data[r.tail := x];
    if r.tail >= r.head {
      if r.tail + 1 == |r.data| {
        assert d[r.head..] + d[..0] == r.data[r.head..r.tail] + [x];
      } else {
        assert d[r.head..r.tail + 1] == r.data[r.head..r.tail] + [x];
      }
    } else {
      assert d[r.head..] + d[..r.tail + 1] == r.data[r.head..] + r.data[..r.tail] + [x];
    }
  }

  lemma PushFull<T>(r: Ring<T>, x: T, overwrite: bool)
    requires RingOk(r) && |Contents(r)| == |r.data| - 1
    ensures Push(r, x, overwrite).0 == overwrite
    ensures Contents(Push(r, x, overwrite).1) == if overwrite then (Contents(r) + [x])[1..] else Contents(r)
  {
    FullWhen(r);
    Wrap(r.tail, |r.data|);
    if overwrite {
      if r.tail + 1 == |r.data| { OverwriteEnd(r, x); } else { OverwriteInside(r, x); }
    }
  }

  /** Overwriting in a full ring that starts at 0. */
  lemma OverwriteEnd<T>(r: Ring<T>, x: T)
    requires RingOk(r) && r.head == 0 && r.tail + 1 == |r.data|
    ensures Contents(Push(r, x, true).1) == (Contents(r) + [x])[1..]
  {
    var d := r.data[r.tail := x];
    Wrap(r.tail, |r.data|);
    Wrap(0, |r.data|);
    assert d == r.data[..r.tail] + [x];
    assert d[1..] + d[..0] == d[1..];
  }

  /** Overwriting in a full ring that starts behind its tail. */
  lemma OverwriteInside<T>(r: Ring<T>, x: T)
    requires RingOk(r) && r.head == r.tail + 1
    ensures Contents(Push(r, x, true).1) == (Contents(r) + [x])[1..]
  {
    var d, h, t := r.data[r.tail := x], r.head, r.tail;
    Wrap(t, |d|);
    Wrap(h, |d|);
    assert d[..t + 1] == r.data[..t] + [x];
    assert (r.data[h..] + r.data[..t] + [x])[1..] == r.data[h + 1..] + d[..t + 1];
    if h + 1 == |d| {
      assert r.data[h + 1..] + d[..t + 1] == d[..t + 1];
    } else {
      assert d[h + 1..] == r.data[h + 1..];
    }
  }

  /** What a pop means: the oldest item goes. */
  lemma PopContents<T>(r: Ring<T>)
    requires RingOk(r) && r.head != r.tail
    ensures Contents(r) == [r.data[r.head]] + Contents(Pop(r))
  {
    Wrap(r.head, |r.data|);
  }

  lemma EmptyContents<T>(r: Ring<T>)
    requires RingOk(r)
    ensures Contents(r) == [] <==> r.head == r.tail
  {
  }

  class Buffer<T> {
    const data: array<T>
    var head: nat
    var tail: nat

    ghost predicate Valid()
      reads this, data
    {
      RingOk(View())
    }

    ghost function View(): Ring<T>
      reads this, data
    {
      Ring(data[..], head, tail)
    }

    /** queue_init; `fill` stands for what the fresh memory holds. */
    constructor (len: nat, fill: T)
      requires 0 < len
      ensures Valid() && fresh(data) && data.Length == len && Contents(View()) == []
    {
      data := new T[len](_ => fill);
      head, tail := 0, 0;
    }

    /** queue_push between DI and EI. */
    method QueuePush(x: T, overwrite: bool) returns (ok: bool)
      requires Valid()
      modifies this, data
      ensures Valid() && (ok, View()) == Push(old(View()), x, overwrite)
      ensures var was := old(Contents(View()));
              Contents(View()) == if |was| < data.Length - 1 then was + [x] else if overwrite then (was + [x])[1..]
                else was
      ensures ok <==> |old(Contents(View()))| < data.Length - 1 || overwrite
    {
      PushContents(View(), x, overwrite);
      var next := (tail + 1) % data.Length;
      if next == head {
        if !overwrite { return false; }
        head := (head + 1) % data.Length;
      }
      data[tail] := x;
      tail := (tail + 1) % data.Length;
      assert data[..] == old(data[..])[old(tail) := x];
      return true;
    }

    /** queue_pop between DI and EI. */
    method QueuePop(fill: T) returns (ok: bool, x: T)
      requires Valid()
      modifies this`head
      ensures Valid() && ok == (old(Contents(View())) != [])
      ensures if ok then old(Contents(View())) == [x] + Contents(View()) && View() == Pop(old(View()))
              else x == fill && View() == old(View())
    {
      ghost var r := View();
      EmptyContents(r);
      if head == tail { return false, fill; }
      PopContents(r);
      x := data[head];
      head := (head + 1) % data.Length;
      assert View() == Pop(r);
      return true, x;
    }

    /** The copying part of xQueuePeek. */
    method QueuePeek(fill: T) returns (ok: bool, x: T)
      requires Valid()
      ensures ok == (Contents(View()) != []) && x == if ok then Contents(View())[0] else fill
    {
      EmptyContents(View());
      if head == tail { return false, fill; }
      PopContents(View());
      return true, data[head];
    }

    /** uxQueueMessagesWaiting and uxQueueSpacesAvailable. */
    method Counts() returns (used: int, spaces: int)
      requires Valid()
      ensures used == |Contents(View())| && used + spaces == data.Length - 1
    {
      used := if tail >= head then tail - head else data.Length - head + tail;
      spaces := if data.Length > used then data.Length - used - 1 else 0;
    }
  }
}
