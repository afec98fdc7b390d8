/** src/text.c: a linked queue of text blocks whose tail pointer addresses the last link. */
module TextQueues {
  import opened Streams

  class TextBlock {
    const buf: string
    var start: nat
    var nchars: nat
    var next: TextBlock?
    ghost const marker: bool

    constructor (s: string, ghost marker: bool)
      ensures buf == s && start == 0 && nchars == |s| && next == null && this.marker == marker
    {
      buf := s;
      start, nchars, next := 0, |s|, null;
      this.marker := marker;
    }

    ghost function Block(): Block
      requires start + nchars <= |buf|
      reads this
    {
      Streams.Block(buf[start..start + nchars], marker)
    }
  }

  class TextQueue {
    var head: TextBlock?
    /** The block whose next field is the last link; null when that link is head. */
    var tail: TextBlock?
    ghost var blocks: seq<TextBlock>

    constructor ()
      ensures Valid() && blocks == []
    {
      head, tail, blocks := null, null, [];
    }

    /** The list from head on; says nothing about tail. */
    ghost predicate Chained()
      reads this, blocks
    {
      && (forall i, j :: 0 <= i < j < |blocks| ==> blocks[i] != blocks[j])
      && (forall i {:trigger blocks[i].next} :: 0 <= i < |blocks| ==>
            blocks[i].next == (if i + 1 < |blocks| then blocks[i + 1] else null))
      && (forall i {:trigger blocks[i]} :: 0 <= i < |blocks| ==>
            blocks[i].start + blocks[i].nchars <= |blocks[i].buf|)
      && head == (if blocks == [] then null else blocks[0])
    }

    ghost predicate Valid()
      reads this, blocks
    {
      Chained() && tail == (if blocks == [] then null else blocks[|blocks| - 1])
    }

    ghost function Contents(): (s: seq<Block>)
      requires Chained()
      reads this, blocks
      ensures |s| == |blocks|
    {
      seq(|blocks|, i requires 0 <= i < |blocks| reads this, blocks
        requires blocks[i].start + blocks[i].nchars <= |blocks[i].buf| => blocks[i].Block())
    }

    /** *q->tail = p; q->tail = &p->next. */
    method Link(p: TextBlock)
      requires Valid() && p !in blocks && p.next == null && p.start + p.nchars <= |p.buf|
      modifies this, blocks
      ensures Valid() && blocks == old(blocks) + [p]
      ensures Contents() == old(Contents()) + [old(p.Block())]
    {
      if tail == null {
        head := p;
      } else {
        tail.next := p;
      }
      tail := p;
      ghost var before := blocks;
      blocks := blocks + [p];
      assert forall i :: 0 <= i < |before| ==> blocks[i] == before[i];
      assert Chained();
      assert Contents() == old(Contents()) + [p.Block()];
    }

    method AddToQueue(b: string, ghost marker: bool)
      requires Valid()
      modifies this, blocks
      ensures Valid() && fresh(set x | x in blocks && x !in old(blocks))
      ensures Contents() == old(Contents()) + if b == "" then [] else [Streams.Block(b, marker)]
    {
      if |b| == 0 {
        return;
      }
      var p := new TextBlock(b, marker);
      assert p.Block() == Streams.Block(b, marker);
      Link(p);
    }

    /** q->head = p->next, with no regard for the tail. */
    method DropHead()
      requires Chained() && blocks != []
      modifies this`head, this`blocks
      ensures Chained() && blocks == old(blocks)[1..] && tail == old(tail)
      ensures Contents() == old(Contents())[1..]
    {
      head := head.next;
      blocks := blocks[1..];
      assert Contents() == old(Contents())[1..];
    }

    /** Removing the front block after moving the tail back to head if it was the last. */
    method Pop()
      requires Valid() && blocks != []
      modifies this
      ensures Valid() && blocks == old(blocks)[1..]
      ensures Contents() == old(Contents())[1..]
    {
      if head.next == null {
        tail := null;
      }
      DropHead();
    }

    method PushFront(s: string, ghost marker: bool)
      requires Chained() && (blocks != [] ==> tail == blocks[|blocks| - 1])
      modifies this
      ensures Valid() && |blocks| == |old(blocks)| + 1 && fresh(blocks[0]) && blocks[1..] == old(blocks)
      ensures Contents() == [Streams.Block(s, marker)] + old(Contents()) && head == blocks[0] && head.nchars == |s|
    {
      var p := new TextBlock(s, marker);
      p.next := head;
      head := p;
      if p.next == null {
        tail := p;
      }
      ghost var before := blocks;
      blocks := [p] + before;
      assert forall i :: 0 < i < |blocks| ==> blocks[i] == before[i - 1];
      assert Chained();
      assert p.Block() == Streams.Block(s, marker);
      assert Contents() == [Streams.Block(s, marker)] + old(Contents());
    }

    /** The result is how many bytes fewer are queued afterwards. */
    method FlushQueue(need: int) returns (reallyFlushed: int)
      requires Valid()
      modifies this
      ensures Valid() && fresh(set x | x in blocks && x !in old(blocks))
      ensures Contents() == Flushed(old(Contents()), need)
      ensures reallyFlushed == Total(old(Contents())) - Total(Contents())
    {
      var n := need + |FLUSHED_MESSAGE|;
      reallyFlushed := 0;
      while n > 0 && head != null
        invariant Chained() && (blocks != [] ==> tail == blocks[|blocks| - 1])
        invariant DropFor(Contents(), n) == DropFor(old(Contents()), need + |FLUSHED_MESSAGE|)
        invariant reallyFlushed == Total(old(Contents())) - Total(Contents())
        invariant forall x :: x in blocks ==> x in old(blocks)
        decreases |blocks|
      {
        assert Contents()[0] == head.Block();
        n := n - head.nchars;
        reallyFlushed := reallyFlushed + head.nchars;
        DropHead();
      }
      ghost var kept := Contents();
      PushFront(FLUSHED_MESSAGE, true);
      assert Contents()[1..] == kept;
      reallyFlushed := reallyFlushed - head.nchars;
    }
  
    /** Part of the front block has been sent. */
    method Advance(n: nat)
      requires Valid() && blocks != [] && n < |Contents()[0].text|
      modifies blocks
      ensures Valid() && unchanged(this)
      ensures var b := old(Contents())[0];
        Contents() == [b.(text := b.text[n..])] + old(Contents())[1..]
    {
      assert Contents()[0] == head.Block();
      head.nchars := head.nchars - n;
      head.start := head.start + n;
      ghost var c := old(Contents());
      assert Contents() == [c[0].(text := c[0].text[n..])] + c[1..];
    }
  
    /** What process_output does with the front block when n of its bytes have been sent. */
    method Take(n: nat)
      requires Valid() && blocks != [] && n <= |Contents()[0].text|
      modifies this, blocks
      ensures Valid()
      ensures forall k :: 0 <= k < |blocks| ==> blocks[k] in old(blocks)
      ensures Contents() == TakeFront(old(Contents()), n)
    {
      assert Contents()[0] == head.Block();
      if n == head.nchars {
        Pop();
      } else {
        Advance(n);
      }
    }
  }
}
