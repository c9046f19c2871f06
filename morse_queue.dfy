/**
 * The Winkeyer SPSC queue of Morse elements: a 64-slot array with a write
 * and a read index kept in 0..63. One slot always stays free, so the queue
 * holds at most 63 elements; `contents` is the queue as the consumer will
 * see it, oldest first.
 */
module MorseQueue {

  const Size: nat := 64

  /** morse_element_type_t, in declaration order (DIT is 0). */
  datatype Element = Dit | Dah | CharSpace | WordSpace | KeyDown | KeyUp

  /**
   * The ring as the consumer reads it: `c` is what lies in `buf` from the
   * read index `r` up to (not including) the write index `w`.
   */
  ghost predicate Mirrors(buf: seq<Element>, r: nat, w: nat, c: seq<Element>)
  {
    |buf| == Size && r < Size && w < Size && |c| == (w - r) % Size &&
    forall i | 0 <= i < |c| :: c[i] == buf[(r + i) % Size]
  }

  /** A push stores into the write slot, which lies outside the queued part, and appends. */
  lemma PushMirrors(buf: seq<Element>, r: nat, w: nat, c: seq<Element>, e: Element)
    requires Mirrors(buf, r, w, c) && (w + 1) % Size != r
    ensures Mirrors(buf[w := e], r, (w + 1) % Size, c + [e])
  {
    var c' := c + [e];
    assert ((w + 1) % Size - r) % Size == (w - r) % Size + 1;
    forall i | 0 <= i < |c'|
      ensures c'[i] == buf[w := e][(r + i) % Size]
    {
      assert (r + i) % Size == w <==> i == |c|;
    }
  }

  /** A pop takes the element at the read index, the oldest one, and drops it from the front. */
  lemma PopMirrors(buf: seq<Element>, r: nat, w: nat, c: seq<Element>)
    requires Mirrors(buf, r, w, c) && r != w
    ensures c != [] && c[0] == buf[r]
    ensures Mirrors(buf, (r + 1) % Size, w, c[1..])
  {
    assert (w - (r + 1) % Size) % Size == (w - r) % Size - 1;
    forall i | 0 <= i < |c| - 1
      ensures c[1..][i] == buf[((r + 1) % Size + i) % Size]
    {
      assert ((r + 1) % Size + i) % Size == (r + (i + 1)) % Size;
    }
  }

  class Queue {
    const buffer: array<Element>
    var writeIdx: nat
    var readIdx: nat
    ghost var contents: seq<Element>

    ghost predicate Valid()
      reads this, buffer
    {
      Mirrors(buffer[..], readIdx, writeIdx, contents)
    }

    /** morse_queue_init: a zeroed buffer and both indices 0. */
    constructor Init()
      ensures Valid() && contents == [] && fresh(buffer)
    {
      buffer := new Element[Size](_ => Dit);
      writeIdx, readIdx := 0, 0;
      contents := [];
    }

    /** morse_queue_push: refused exactly when the slot after the write index is the read index. */
    method Push(e: Element) returns (ok: bool)
      requires Valid()
      modifies this, buffer
      ensures Valid()
      ensures ok <==> (old(writeIdx) + 1) % Size != old(readIdx)
      ensures ok <==> |old(contents)| < Size - 1
      ensures contents == if ok then old(contents) + [e] else old(contents)
    {
      var next := (writeIdx + 1) % Size;
      if next == readIdx {
        return false;
      }
      PushMirrors(buffer[..], readIdx, writeIdx, contents, e);
      buffer[writeIdx] := e;
      writeIdx := next;
      contents := contents + [e];
      return true;
    }

    /** morse_queue_pop: refused on an empty queue; otherwise the oldest element comes out. */
    method Pop() returns (ok: bool, e: Element)
      requires Valid()
      modifies this
      ensures Valid()
      ensures ok <==> old(contents) != []
      ensures ok ==> e == old(contents)[0] && contents == old(contents)[1..]
      ensures !ok ==> contents == old(contents)
    {
      if readIdx == writeIdx {
        return false, Dit;
      }
      PopMirrors(buffer[..], readIdx, writeIdx, contents);
      e := buffer[readIdx];
      readIdx := (readIdx + 1) % Size;
      contents := contents[1..];
      return true, e;
    }

    /** morse_queue_is_empty */
    predicate IsEmpty()
      reads this, buffer
      requires Valid()
      ensures IsEmpty() <==> contents == []
    {
      readIdx == writeIdx
    }

    /** morse_queue_count: the wrapped distance from the read index to the write index. */
    function Count(): (n: nat)
      reads this, buffer
      requires Valid()
      ensures n == |contents| && n < Size
    {
      (writeIdx - readIdx + Size) % Size
    }

    /** morse_queue_clear: the read index catches up with the write index. */
    method Clear()
      requires Valid()
      modifies this
      ensures Valid() && contents == [] && writeIdx == old(writeIdx)
    {
      readIdx := writeIdx;
      contents := [];
    }
  }

  /** Filling an empty queue: 63 pushes succeed, the 64th is refused, and the count stays 63. */
  method FillToCapacity() returns (lastOk: bool, extraOk: bool, count: nat)
    ensures lastOk && !extraOk && count == Size - 1
  {
    var q := new Queue.Init();
    var i := 0;
    lastOk := false;
    while i < Size - 1
      invariant 0 <= i <= Size - 1 && q.Valid() && |q.contents| == i
      invariant i > 0 ==> lastOk
      modifies q, q.buffer
    {
      lastOk := q.Push(Dah);
      i := i + 1;
    }
    extraOk := q.Push(Dit);
    count := q.Count();
  }

  /** Wrap-around: after 62 elements pass through, three elements pushed across the end of the array come out in order. */
  method WrapAroundFifo() returns (a: Element, b: Element, c: Element)
    ensures a == Dit && b == Dah && c == WordSpace
  {
    var q := new Queue.Init();
    var i := 0;
    while i < 62
      invariant 0 <= i <= 62 && q.Valid() && q.contents == []
      modifies q, q.buffer
    {
      var _ := q.Push(CharSpace);
      var _, _ := q.Pop();
      i := i + 1;
    }
    var _ := q.Push(Dit);
    var _ := q.Push(Dah);
    var _ := q.Push(WordSpace);
    var _, x := q.Pop();
    var _, y := q.Pop();
    var _, z := q.Pop();
    a, b, c := x, y, z;
  }
}
