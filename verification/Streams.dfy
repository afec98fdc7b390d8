/**
 The output stream of a connection: blocks written, the oldest dropped behind a marker when there
 is too much, and partial writes to the client.
 */
module Streams {

  const MAX_OUTPUT := 16384

  const FLUSHED_MESSAGE := "<Output Flushed>\n"

  /** Text still to be sent; a marker is not part of what was written. */
  datatype Block = Block(text: string, marker: bool)

  const MARKER := Block(FLUSHED_MESSAGE, true)

  function Total(s: seq<Block>): nat {
    if s == [] then 0 else |s[0].text| + Total(s[1..])
  }

  /** The written text in s. */
  function Payload(s: seq<Block>): string {
    if s == [] then "" else (if s[0].marker then "" else s[0].text) + Payload(s[1..])
  }

  // ---- flush_queue ----

  function DropFor(s: seq<Block>, n: int): seq<Block> {
    if n > 0 && s != [] then DropFor(s[1..], n - |s[0].text|) else s
  }

  function Flushed(s: seq<Block>, n: int): seq<Block> {
    [MARKER] + DropFor(s, n + |FLUSHED_MESSAGE|)
  }

  /** The shortest run of oldest blocks that makes room goes, or everything. */
  lemma {:induction false} DropShortest(s: seq<Block>, n: int) returns (k: nat)
    ensures k <= |s| && DropFor(s, n) == s[k..]
    ensures k == |s| || Total(s[..k]) >= n
    ensures forall j :: 0 <= j < k ==> Total(s[..j]) < n
    ensures Total(s) == Total(s[..k]) + Total(s[k..])
  {
    k := 0;
    if n > 0 && s != [] {
      k := DropShortest(s[1..], n - |s[0].text|);
      k := k + 1;
      forall j | 0 < j <= k ensures Total(s[..j]) == |s[0].text| + Total(s[1..][..j - 1]) {
        assert s[..j][1..] == s[1..][..j - 1];
      }
      assert s[1..][k - 1..] == s[k..];
    }
  }

  /** What is written, as long as it fits, else a marker for the shortest run of oldest blocks that makes room. */
  lemma WriteDrops(s: Stream, b: string) returns (k: nat)
    ensures var now, text := s.Wrote(b).blocks, if b == "" then [] else [Block(b, false)];
      if Total(s.blocks) + |b| <= 16384 then now == s.blocks + text
      else
        && k <= |s.blocks| && now == [Block("<Output Flushed>\n", true)] + s.blocks[k..] + text
        && (k < |s.blocks| ==> Total(s.blocks[k..]) + 17 + |b| <= 16384)
        && (forall j :: 0 <= j < k ==> Total(s.blocks[j..]) + 17 + |b| > 16384)
  {
    k := 0;
    if Total(s.blocks) + |b| > 16384 {
      k := FlushDrops(s.blocks, Total(s.blocks) + |b| - 16384);
    }
    if b == "" {
      assert forall t: seq<Block> :: t + [] == t;
    }
  }

  /** What flush_queue leaves of a queue that is to lose n bytes, and 17 more for the marker. */
  lemma FlushDrops(s: seq<Block>, n: int) returns (k: nat)
    ensures k <= |s| && Flushed(s, n) == [Block("<Output Flushed>\n", true)] + s[k..]
    ensures k < |s| ==> Total(s) - Total(s[k..]) >= n + 17
    ensures forall j :: 0 <= j < k ==> Total(s) - Total(s[j..]) < n + 17
  {
    k := DropShortest(s, n + 17);
    forall j | 0 <= j < k ensures Total(s) - Total(s[j..]) < n + 17 {
      PayloadConcat(s[..j], s[j..]);
      assert s[..j] + s[j..] == s;
    }
  }

  /** n bytes of the front block have gone; a block all gone leaves the queue. */
  function TakeFront(s: seq<Block>, n: nat): seq<Block>
    requires s != [] && n <= |s[0].text|
  {
    if n == |s[0].text| then s[1..] else [s[0].(text := s[0].text[n..])] + s[1..]
  }

  // ---- The stream ----

  /** The bytes on the wire after n bytes of b: a marker begun earlier goes on, everything else starts a new piece. */
  function Delivered(wire: seq<Block>, b: Block, n: nat): seq<Block>
    requires n <= |b.text|
  {
    var last := |wire| - 1;
    if b.marker && |b.text| < |FLUSHED_MESSAGE| && wire != [] && wire[last].marker
    then wire[..last] + [Block(wire[last].text + b.text[..n], true)]
    else wire + [Block(b.text[..n], b.marker)]
  }

  /**
   blocks are queued, the rest is history: all text written, the part of it sent, whether anything was ever
   flushed, and what has gone over the wire, markers included.
   */
  datatype Stream = Stream(blocks: seq<Block>, written: string, sent: string, lost: bool, wire: seq<Block>) {

    /** Room for n more bytes, made by flushing if need be. */
    function Roomed(n: nat): Stream {
      var over := Total(blocks) + n - MAX_OUTPUT;
      if over > 0 then this.(blocks := Flushed(blocks, over), lost := true) else this
    }

    function Added(b: string): Stream {
      this.(blocks := if b == "" then blocks else blocks + [Block(b, false)], written := written + b)
    }

    /** queue_write. */
    function Wrote(b: string): Stream {
      Roomed(|b|).Added(b)
    }

    /** The client takes n bytes of the front block. */
    function Took(n: nat): Stream
      requires blocks != [] && n <= |blocks[0].text|
    {
      var b := blocks[0];
      this.(blocks := TakeFront(blocks, n),
            sent := if b.marker then sent else sent + b.text[..n],
            wire := Delivered(wire, b, n))
    }

    /** process_output; counts from i on are the results of the write calls, as many as are made. */
    function Drained(counts: seq<int>, i: nat): Stream
      requires i <= |counts|
      decreases |counts| - i
    {
      if blocks == [] || i == |counts| || counts[i] < 0 then this
      else
        var all := |blocks[0].text|;
        if counts[i] >= all then Took(all).Drained(counts, i + 1) else Took(counts[i])
    }

    /** Whether one of the write calls that process_output makes fails. */
    predicate Fails(counts: seq<int>, i: nat)
      requires i <= |counts|
      decreases |counts| - i
    {
      blocks != [] && i < |counts| &&
      (counts[i] < 0 || (counts[i] >= |blocks[0].text| && Took(|blocks[0].text|).Fails(counts, i + 1)))
    }

    /** Only the front block can be a marker; sent and pending text account for what was written. */
    ghost predicate Faithful() {
      && (forall i :: 0 < i < |blocks| ==> !blocks[i].marker)
      && exists gone :: Accounts(gone)
    }

    /** gone is the written text that is no longer queued. */
    predicate Accounts(gone: string) {
      written == gone + Payload(blocks) && Subsequence(sent, gone) && (!lost ==> sent == gone)
    }

    /** Every marker on the wire is a beginning of the message, and the queue holds the rest of the last one. */
    ghost predicate Framed() {
      && Payload(wire) == sent
      && (forall i :: 0 <= i < |wire| && wire[i].marker ==> wire[i].text <= FLUSHED_MESSAGE)
      && (blocks != [] && blocks[0].marker ==> Resumes())
    }

    predicate Resumes()
      requires blocks != []
    {
      var rest := blocks[0].text;
      && |rest| <= |FLUSHED_MESSAGE|
      && var begun := |FLUSHED_MESSAGE| - |rest|;
         && rest == FLUSHED_MESSAGE[begun..]
         && (begun > 0 ==> wire != [] && wire[|wire| - 1] == Block(FLUSHED_MESSAGE[..begun], true))
    }
  }

  /** One write call of process_output. */
  lemma DrainStep(s: Stream, counts: seq<int>, i: nat)
    requires s.blocks != [] && i < |counts|
    ensures var n, all := counts[i], |s.blocks[0].text|;
      if n < 0 then s.Drained(counts, i) == s && s.Fails(counts, i)
      else if n < all then s.Drained(counts, i) == s.Took(n) && !s.Fails(counts, i)
      else
        var t := s.Took(all);
        s.Drained(counts, i) == t.Drained(counts, i + 1) && s.Fails(counts, i) == t.Fails(counts, i + 1)
  {
  }

  /** No more calls, or nothing more to write. */
  lemma DrainEnd(s: Stream, counts: seq<int>, i: nat)
    requires i <= |counts|
    ensures s.blocks == [] || i == |counts| ==> s.Drained(counts, i) == s && !s.Fails(counts, i)
  {
  }

  /** The first k write calls from i on take as many whole blocks, and the next one does not. */
  predicate TakesWhole(blocks: seq<Block>, counts: seq<int>, i: nat, k: nat) {
    && k <= |blocks| && i + k <= |counts|
    && (forall j :: i <= j < i + k ==> counts[j] >= |blocks[j - i].text|)
    && (k < |blocks| && i + k < |counts| ==> counts[i + k] < |blocks[k].text|)
  }

  /** The call that follows those is made, and fails. */
  predicate Refused(blocks: seq<Block>, counts: seq<int>, i: nat, k: nat) {
    k < |blocks| && i + k < |counts| && counts[i + k] < 0
  }

  /** Without those blocks, and without the bytes taken of the next. */
  function Without(blocks: seq<Block>, counts: seq<int>, i: nat, k: nat): seq<Block>
    requires TakesWhole(blocks, counts, i, k)
  {
    if k == |blocks| || i + k == |counts| || counts[i + k] < 0 then blocks[k..]
    else [blocks[k].(text := blocks[k].text[counts[i + k]..])] + blocks[k + 1..]
  }

  /** After j of them have been taken, everything is still to come. */
  lemma {:induction false} WholeTaken(s: Stream, counts: seq<int>, i: nat, k: nat, j: nat) returns (t: Stream)
    requires TakesWhole(s.blocks, counts, i, k) && j <= k
    ensures t.blocks == s.blocks[j..]
    ensures s.Drained(counts, i) == t.Drained(counts, i + j) && s.Fails(counts, i) == t.Fails(counts, i + j)
  {
    t := s;
    if j > 0 {
      t := WholeTaken(s, counts, i, k, j - 1);
      DrainStep(t, counts, i + (j - 1));
      t := t.Took(|t.blocks[0].text|);
    }
  }

  /** The blocks taken whole leave the queue, and of the next the bytes that are taken. */
  lemma DrainedMeans(s: Stream, counts: seq<int>, i: nat, k: nat)
    requires TakesWhole(s.blocks, counts, i, k)
    ensures s.Drained(counts, i).blocks == Without(s.blocks, counts, i, k)
    ensures s.Fails(counts, i) <==> Refused(s.blocks, counts, i, k)
  {
    var t := WholeTaken(s, counts, i, k, k);
    if t.blocks == [] || i + k == |counts| {
      DrainEnd(t, counts, i + k);
    } else {
      DrainStep(t, counts, i + k);
    }
  }

  const EMPTY := Stream([], "", "", false, [])

  /** a is b with some characters left out. */
  predicate Subsequence(a: string, b: string)
    decreases |b|
  {
    a == "" || (b != "" && ((a[0] == b[0] && Subsequence(a[1..], b[1..])) || Subsequence(a, b[1..])))
  }

  lemma {:induction false} SubsequenceGrows(a: string, b: string, c: string)
    requires Subsequence(a, b)
    ensures Subsequence(a, b + c) && Subsequence(a + c, b + c)
    decreases |b|
  {
    if b == "" {
      assert a + c == c && b + c == c;
      SubsequenceSelf(c);
    } else {
      assert (b + c)[1..] == b[1..] + c;
      if Subsequence(a, b[1..]) {
        SubsequenceGrows(a, b[1..], c);
      } else if a != "" {
        SubsequenceGrows(a[1..], b[1..], c);
        assert (a + c)[1..] == a[1..] + c;
      }
    }
  }

  lemma {:induction false} SubsequenceSelf(a: string)
    ensures Subsequence(a, a)
  {
    if a != "" {
      SubsequenceSelf(a[1..]);
    }
  }

  lemma {:induction false} PayloadConcat(s: seq<Block>, t: seq<Block>)
    ensures Payload(s + t) == Payload(s) + Payload(t)
    ensures Total(s + t) == Total(s) + Total(t)
  {
    if s == [] {
      assert s + t == t;
    } else {
      assert (s + t)[1..] == s[1..] + t;
      PayloadConcat(s[1..], t);
    }
  }

  /** The first part of what is pending leaves the queue, sent or lost. */
  lemma AccountMoves(s: Stream, gone: string, first: string, s': Stream)
    requires s.Accounts(gone) && Payload(s.blocks) == first + Payload(s'.blocks) && s'.written == s.written
    requires (s'.sent == s.sent && s'.lost) || (s'.sent == s.sent + first && s'.lost == s.lost)
    ensures s'.Accounts(gone + first)
  {
    SubsequenceGrows(s.sent, gone, first);
    assert gone + (first + Payload(s'.blocks)) == (gone + first) + Payload(s'.blocks);
  }

  lemma FlushFaithful(s: Stream, n: int)
    requires s.Faithful() && n > 0
    ensures s.(blocks := Flushed(s.blocks, n), lost := true).Faithful()
  {
    var k := DropShortest(s.blocks, n + |FLUSHED_MESSAGE|);
    var gone :| s.Accounts(gone);
    assert s.blocks == s.blocks[..k] + s.blocks[k..];
    PayloadConcat(s.blocks[..k], s.blocks[k..]);
    var t := Flushed(s.blocks, n);
    assert t[1..] == s.blocks[k..];
    AccountMoves(s, gone, Payload(s.blocks[..k]), s.(blocks := t, lost := true));
    assert k == 0 ==> s.blocks == [];
  }

  lemma AddFaithful(s: Stream, b: string)
    requires s.Faithful()
    ensures s.Added(b).Faithful()
  {
    var gone :| s.Accounts(gone);
    AddTotal(s, b);
    assert s.Added(b).Accounts(gone);
  }

  lemma AddTotal(s: Stream, b: string)
    ensures Payload(s.Added(b).blocks) == Payload(s.blocks) + b
    ensures Total(s.Added(b).blocks) == Total(s.blocks) + |b|
  {
    PayloadConcat(s.blocks, [Block(b, false)]);
    assert Payload([Block(b, false)]) == b;
  }

  /** Writing keeps the account. */
  lemma WroteFaithful(s: Stream, b: string)
    requires s.Faithful()
    ensures s.Wrote(b).Faithful()
  {
    var over := Total(s.blocks) + |b| - MAX_OUTPUT;
    if over > 0 {
      FlushFaithful(s, over);
    }
    AddFaithful(s.Roomed(|b|), b);
  }

  /** The queue stays within MAX_OUTPUT unless one write alone, with the marker, exceeds it. */
  lemma WroteBounded(s: Stream, b: string)
    ensures Total(s.Wrote(b).blocks)
         <= if MAX_OUTPUT > |b| + |FLUSHED_MESSAGE| then MAX_OUTPUT else |b| + |FLUSHED_MESSAGE|
    ensures |b| <= 16367 ==> Total(s.Wrote(b).blocks) <= 16384
  {
    AddTotal(s.Roomed(|b|), b);
    var over := Total(s.blocks) + |b| - MAX_OUTPUT;
    if over > 0 {
      var k := DropShortest(s.blocks, over + |FLUSHED_MESSAGE|);
      assert Total(Flushed(s.blocks, over)) == |FLUSHED_MESSAGE| + Total(s.blocks[k..]) by {
        assert Flushed(s.blocks, over)[1..] == s.blocks[k..];
      }
    }
  }

  lemma {:induction false} DrainedFaithful(s: Stream, counts: seq<int>, i: nat)
    requires s.Faithful() && i <= |counts|
    ensures s.Drained(counts, i).Faithful()
    decreases |counts| - i
  {
    if s.blocks != [] && i < |counts| && counts[i] >= 0 {
      var all := |s.blocks[0].text|;
      TookFaithful(s, if counts[i] >= all then all else counts[i]);
      if counts[i] >= all {
        DrainedFaithful(s.Took(all), counts, i + 1);
      }
    }
  }

  lemma TookFaithful(s: Stream, n: nat)
    requires s.Faithful() && s.blocks != [] && n <= |s.blocks[0].text|
    ensures s.Took(n).Faithful()
  {
    var b := s.blocks[0];
    var gone :| s.Accounts(gone);
    var more := if b.marker then "" else b.text[..n];
    TookTotal(s, n);
    assert s.sent + "" == s.sent;
    AccountMoves(s, gone, more, s.Took(n));
  }

  lemma TookTotal(s: Stream, n: nat)
    requires s.blocks != [] && n <= |s.blocks[0].text|
    ensures Total(s.Took(n).blocks) == Total(s.blocks) - n
    ensures Payload(s.blocks) == (if s.blocks[0].marker then "" else s.blocks[0].text[..n]) + Payload(s.Took(n).blocks)
  {
    var b, left := s.blocks[0], s.Took(n).blocks;
    if n < |b.text| {
      assert left[1..] == s.blocks[1..] && left[0] == Block(b.text[n..], b.marker);
      assert b.text + Payload(s.blocks[1..]) == b.text[..n] + (b.text[n..] + Payload(s.blocks[1..]));
    } else {
      assert left == s.blocks[1..] && b.text[..n] == b.text;
    }
  }

  // ---- Markers ----

  lemma WroteFramed(s: Stream, b: string)
    requires s.Framed()
    ensures s.Wrote(b).Framed()
  {
    var over := Total(s.blocks) + |b| - MAX_OUTPUT;
    if over > 0 {
      assert s.Roomed(|b|).blocks[0] == MARKER && s.Roomed(|b|).Resumes();
    }
    if s.Roomed(|b|).blocks != [] {
      assert s.Wrote(b).blocks[0] == s.Roomed(|b|).blocks[0];
    }
  }

  lemma DeliveredPayload(wire: seq<Block>, b: Block, n: nat)
    requires n <= |b.text|
    ensures Payload(Delivered(wire, b, n)) == Payload(wire) + if b.marker then "" else b.text[..n]
  {
    var last, piece := |wire| - 1, Block(b.text[..n], b.marker);
    if b.marker && |b.text| < |FLUSHED_MESSAGE| && wire != [] && wire[last].marker {
      var more := Block(wire[last].text + b.text[..n], true);
      assert wire == wire[..last] + [wire[last]];
      PayloadConcat(wire[..last], [wire[last]]);
      PayloadConcat(wire[..last], [more]);
      PayloadOne(wire[last]);
      PayloadOne(more);
    } else {
      PayloadConcat(wire, [piece]);
      PayloadOne(piece);
    }
  }

  lemma PayloadOne(b: Block)
    ensures Payload([b]) == if b.marker then "" else b.text
  {
    assert [b][1..] == [];
  }

  /** A marker, or the rest of one, goes on exactly where it stopped. */
  lemma MarkerGoesOn(s: Stream, n: nat)
    requires s.Framed() && s.blocks != [] && s.blocks[0].marker && n <= |s.blocks[0].text|
    ensures var wire, begun := s.Took(n).wire, |FLUSHED_MESSAGE| - |s.blocks[0].text|;
      && wire != [] && wire[|wire| - 1] == Block(FLUSHED_MESSAGE[..begun + n], true)
      && forall i :: 0 <= i < |wire| && wire[i].marker ==> wire[i].text <= FLUSHED_MESSAGE
  {
    var begun := |FLUSHED_MESSAGE| - |s.blocks[0].text|;
    Halves(FLUSHED_MESSAGE, begun, n);
    var wire, last := s.Took(n).wire, |s.Took(n).wire| - 1;
    assert wire[last] == Block(FLUSHED_MESSAGE[..begun + n], true);
    assert forall i :: 0 <= i < last ==> wire[i] == s.wire[i];
    assert FLUSHED_MESSAGE[..begun + n] <= FLUSHED_MESSAGE;
  }

  /** The text m, taken up to begun and then n more. */
  lemma Halves(m: string, begun: nat, n: nat)
    requires begun + n <= |m|
    ensures m[..begun] + m[begun..][..n] == m[..begun + n] && m[begun..][n..] == m[begun + n..]
    ensures m[0..] == m && m[..0] == ""
  {
  }

  lemma TookFramed(s: Stream, n: nat)
    requires s.Framed() && s.Faithful() && s.blocks != [] && n <= |s.blocks[0].text|
    ensures s.Took(n).Framed()
  {
    var b := s.blocks[0];
    DeliveredPayload(s.wire, b, n);
    if b.marker {
      MarkerGoesOn(s, n);
      assert s.sent + "" == s.sent;
      if n < |b.text| {
        Halves(FLUSHED_MESSAGE, |FLUSHED_MESSAGE| - |b.text|, n);
      }
    }
  }

  lemma {:induction false} DrainedFramed(s: Stream, counts: seq<int>, i: nat)
    requires s.Framed() && s.Faithful() && i <= |counts|
    ensures s.Drained(counts, i).Framed()
    decreases |counts| - i
  {
    if s.blocks != [] && i < |counts| && counts[i] >= 0 {
      var all := |s.blocks[0].text|;
      TookFramed(s, if counts[i] >= all then all else counts[i]);
      if counts[i] >= all {
        TookFaithful(s, all);
        DrainedFramed(s.Took(all), counts, i + 1);
      }
    }
  }

  // ---- Whole runs ----

  datatype Event = Write(text: string) | Drain(counts: seq<int>)

  function Step(s: Stream, e: Event): Stream {
    match e
    case Write(b) => s.Wrote(b)
    case Drain(counts) => s.Drained(counts, 0)
  }

  function Run(s: Stream, events: seq<Event>): Stream
    decreases |events|
  {
    if events == [] then s else Run(Step(s, events[0]), events[1..])
  }

  lemma {:induction false} RunFaithful(s: Stream, events: seq<Event>)
    requires s.Faithful() && s.Framed()
    ensures Run(s, events).Faithful() && Run(s, events).Framed()
    decreases |events|
  {
    if events != [] {
      match events[0] {
        case Write(b) => WroteFaithful(s, b); WroteFramed(s, b);
        case Drain(counts) => DrainedFaithful(s, counts, 0); DrainedFramed(s, counts, 0);
      }
      RunFaithful(Step(s, events[0]), events[1..]);
    }
  }

  /**
   What a client has received of what was written to it: a subsequence in order, all of it when nothing
   was flushed, and what is pending is a suffix. Between the text the wire carries nothing but beginnings of the
   flush message, and a queued marker is the rest of the last of them.
   */
  lemma ClientSees(events: seq<Event>) returns (gone: string)
    ensures var s := Run(EMPTY, events);
      && s.written == gone + Payload(s.blocks)
      && Subsequence(s.sent, gone)
      && (!s.lost ==> s.sent + Payload(s.blocks) == s.written)
      && (forall i :: 0 < i < |s.blocks| ==> !s.blocks[i].marker)
      && Payload(s.wire) == s.sent
      && (forall i :: 0 <= i < |s.wire| && s.wire[i].marker ==> s.wire[i].text <= FLUSHED_MESSAGE)
      && (s.blocks != [] && s.blocks[0].marker ==> s.Resumes())
  {
    assert EMPTY.Accounts("");
    RunFaithful(EMPTY, events);
    gone :| Run(EMPTY, events).Accounts(gone);
  }
}
