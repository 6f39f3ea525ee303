/** The bounded queue between the interrupt handler and the main loop. */
module Queues {
  datatype Error = Success | Full | Empty

  /** The queue as a value: what `Push` does, a full queue dropping the new element. */
  function Pushed<T>(q: seq<T>, capacity: nat, x: T): seq<T> {
    if |q| == capacity then q else q + [x]
  }

  function Popped<T>(q: seq<T>): seq<T> {
    if |q| == 0 then q else q[1..]
  }

  /** What a user of the queue does: puts something in, or takes out what is at the front. */
  datatype Op<T> = Put(x: T) | Take

  /** Along a sequence of operations: the queue, what it has accepted and what has been taken out. */
  datatype History<T> = History(queue: seq<T>, accepted: seq<T>, taken: seq<T>)

  function Do<T>(h: History<T>, capacity: nat, op: Op<T>): History<T> {
    match op
    case Put(x) =>
      History(Pushed(h.queue, capacity, x), if |h.queue| == capacity then h.accepted else h.accepted + [x], h.taken)
    case Take =>
      History(Popped(h.queue), h.accepted, if h.queue == [] then h.taken else h.taken + [h.queue[0]])
  }

  function DoAll<T>(h: History<T>, capacity: nat, ops: seq<Op<T>>): History<T>
    decreases |ops|
  {
    if ops == [] then h else DoAll(Do(h, capacity, ops[0]), capacity, ops[1..])
  }

  /** First in, first out: what was accepted is what was taken out followed by what is still there. */
  lemma {:induction false} Fifo<T>(h: History<T>, capacity: nat, ops: seq<Op<T>>)
    requires h.taken + h.queue == h.accepted && |h.queue| <= capacity
    ensures var r := DoAll(h, capacity, ops); r.taken + r.queue == r.accepted && |r.queue| <= capacity
    ensures h.accepted <= DoAll(h, capacity, ops).accepted
    decreases |ops|
  {
    if ops != [] {
      var next := Do(h, capacity, ops[0]);
      match ops[0] {
        case Put(x) =>
          if |h.queue| < capacity { assert h.taken + (h.queue + [x]) == (h.taken + h.queue) + [x]; }
        case Take =>
          if h.queue != [] { assert (h.taken + [h.queue[0]]) + h.queue[1..] == h.taken + h.queue; }
      }
      Fifo(next, capacity, ops[1..]);
    }
  }

  /** `(pos + 1) % n` wraps at the end of the buffer. */
  lemma NextPos(pos: nat, n: nat)
    requires pos < n
    ensures (pos + 1) % n == if pos + 1 == n then 0 else pos + 1
  {
    if pos + 1 < n {
      SmallMod(pos + 1, n);
    }
  }

  lemma SmallMod(x: nat, n: nat)
    requires x < n
    ensures x % n == x
  {
  }

  /** `count` cells from `read` on, wrapping at the end of `data`. */
  function Ring<T>(data: seq<T>, read: nat, count: nat): (q: seq<T>)
    requires count <= |data| && (read < |data| || read == 0)
    ensures |q| == count
  {
    if read + count <= |data| then data[read..read + count]
    else data[read..] + data[..read + count - |data|]
  }

  lemma RingGrows<T>(data: seq<T>, read: nat, count: nat, x: T)
    requires count < |data| && read < |data|
    ensures var w := if read + count < |data| then read + count else read + count - |data|;
            Ring(data[w := x], read, count + 1) == Ring(data, read, count) + [x]
  {
  }

  lemma RingShrinks<T>(data: seq<T>, read: nat, count: nat)
    requires 0 < count <= |data| && read < |data|
    ensures Ring(data, if read + 1 == |data| then 0 else read + 1, count - 1) == Ring(data, read, count)[1..]
  {
  }

  class ArrayQueue<T(0)> {
    var data: array<T>
    var readPos: nat
    var writePos: nat
    var count: nat

    ghost predicate Valid()
      reads this, data
    {
      && count <= data.Length
      && (if data.Length == 0 then readPos == writePos == 0 else readPos < data.Length && writePos < data.Length)
      && writePos == (if readPos + count < data.Length || data.Length == 0 then readPos + count else readPos + count - data.Length)
    }

    ghost function Contents(): (q: seq<T>)
      reads this, data
      requires Valid()
      ensures |q| == count
    {
      Ring(data[..], readPos, count)
    }

    constructor (buf: array<T>)
      ensures Valid() && Contents() == [] && data == buf
    {
      data := buf;
      readPos, writePos, count := 0, 0, 0;
    }

    method Push(value: T) returns (err: Error)
      requires Valid()
      modifies this`writePos, this`count, data
      ensures Valid() && data == old(data)
      ensures Contents() == Pushed(old(Contents()), data.Length, value)
      ensures err == if |old(Contents())| == data.Length then Full else Success
    {
      if count == data.Length {
        return Full;
      }
      RingGrows(data[..], readPos, count, value);
      NextPos(writePos, data.Length);
      data[writePos] := value;
      writePos := (writePos + 1) % data.Length;
      count := count + 1;
      return Success;
    }

    method Pop() returns (err: Error)
      requires Valid()
      modifies this`readPos, this`count
      ensures Valid() && Contents() == Popped(old(Contents()))
      ensures err == if |old(Contents())| == 0 then Empty else Success
    {
      if count == 0 {
        return Empty;
      }
      RingShrinks(data[..], readPos, count);
      NextPos(readPos, data.Length);
      readPos := (readPos + 1) % data.Length;
      count := count - 1;
      return Success;
    }

    method Count() returns (n: nat)
      requires Valid()
      ensures n == |Contents()|
    {
      n := count;
    }

    method Capacity() returns (n: nat)
      ensures n == data.Length
    {
      n := data.Length;
    }

    /** Meaningful only on a non-empty queue; the code reads the cell in any case. */
    method Front() returns (x: T)
      requires Valid() && data.Length > 0
      ensures |Contents()| > 0 ==> x == Contents()[0]
    {
      x := data[readPos];
    }
  }
}
