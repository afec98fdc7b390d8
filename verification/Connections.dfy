/** src/connection.c: a connection's bounded output, its input buffer and its command quota. */
module Connections {
  import opened Streams
  import opened TextQueues
  import opened InputLines

  class Connection {
    const descriptor: int
    const output: TextQueue
    const input: TextQueue
    var outputSize: int
    /** The buffer for the line being assembled, and how much of it is filled. */
    var rawInput: array?<char>
    var rawInputAt: nat
    var quota: int
    /** What is queued for the client, with its history. */
    ghost var stream: Stream
    /** The commands waiting in the input queue. */
    ghost var commands: seq<string>

    constructor (descriptor: int, quota: int)
      ensures this.descriptor == descriptor
      ensures OutputValid() && stream == EMPTY && this.quota == quota
      ensures InputValid() && commands == [] && Partial() == ""
      ensures fresh(output) && fresh(input) && output != input
    {
      this.descriptor := descriptor;
      output := new TextQueue();
      input := new TextQueue();
      outputSize, rawInput, rawInputAt := 0, null, 0;
      this.quota := quota;
      stream := EMPTY;
      commands := [];
    }

    ghost predicate OutputValid()
      reads this, output, output.blocks
    {
      && output.Valid()
      && output.Contents() == stream.blocks
      && outputSize == Total(stream.blocks)
    }

    // ---- Output ----

    method MakeRoom(n: nat)
      requires OutputValid()
      modifies this`outputSize, this`stream, output, output.blocks
      ensures OutputValid() && stream == old(stream).Roomed(n)
      ensures fresh(set x | x in output.blocks && x !in old(output.blocks))
    {
      var space := MAX_OUTPUT - outputSize - n;
      if space < 0 {
        var dropped := output.FlushQueue(-space);
        outputSize := outputSize - dropped;
        stream := stream.Roomed(n);
      }
    }

    method QueueWrite(b: string) returns (n: nat)
      requires OutputValid()
      modifies this`outputSize, this`stream, output, output.blocks
      ensures OutputValid() && stream == old(stream).Wrote(b) && n == |b|
      ensures fresh(set x | x in output.blocks && x !in old(output.blocks))
    {
      MakeRoom(|b|);
      Append(b);
      return |b|;
    }

    method Append(b: string)
      requires OutputValid()
      modifies this`outputSize, this`stream, output, output.blocks
      ensures OutputValid() && stream == old(stream).Added(b)
      ensures fresh(set x | x in output.blocks && x !in old(output.blocks))
    {
      ghost var blocks := stream.blocks;
      AddTotal(stream, b);
      stream := stream.Added(b);
      outputSize := outputSize + |b|;
      assert output.Valid() && output.Contents() == blocks;
      output.AddToQueue(b, false);
    }

    method Take(n: nat)
      requires OutputValid() && stream.blocks != [] && n <= |stream.blocks[0].text|
      modifies this`outputSize, this`stream, output, output.blocks
      ensures OutputValid() && stream == old(stream).Took(n)
      ensures forall k :: 0 <= k < |output.blocks| ==> output.blocks[k] in old(output.blocks)
    {
      ghost var contents, after := output.Contents(), stream.Took(n);
      TookTotal(stream, n);
      assert after.blocks == TakeFront(contents, n);
      outputSize := outputSize - n;
      stream := after;
      assert output.Valid() && output.Contents() == contents;
      output.Take(n);
    }

    /** counts are what the write calls return; the connection is to be closed on an error other than EWOULDBLOCK. */
    method ProcessOutput(counts: seq<int>, wouldBlock: bool) returns (alive: bool)
      requires OutputValid()
      modifies this`outputSize, this`stream, output, output.blocks
      ensures OutputValid() && stream == old(stream).Drained(counts, 0)
      ensures alive == (old(stream).Fails(counts, 0) ==> wouldBlock)
    {
      ghost var drained, fails := stream.Drained(counts, 0), stream.Fails(counts, 0);
      var i := 0;
      alive := true;
      var going := HasOutput();
      DrainEnd(stream, counts, 0);
      while going && i < |counts|
        invariant 0 <= i <= |counts| && OutputValid()
        invariant going ==> alive && stream.Drained(counts, i) == drained && stream.Fails(counts, i) == fails
        invariant going ==> stream.blocks != []
        invariant !going ==> stream == drained && alive == (fails ==> wouldBlock)
        invariant forall k :: 0 <= k < |output.blocks| ==> output.blocks[k] in old(output.blocks)
        decreases |counts| - i
      {
        going, alive := WriteNext(counts, i, wouldBlock);
        i := i + 1;
      }
      DrainEnd(stream, counts, i);
    }

    /** One turn of the loop of process_output; whether there is another, and if not its result. */
    method WriteNext(counts: seq<int>, i: nat, wouldBlock: bool) returns (going: bool, alive: bool)
      requires OutputValid() && stream.blocks != [] && i < |counts|
      modifies this`outputSize, this`stream, output, output.blocks
      ensures going ==> alive && stream.blocks != []
      ensures going ==> stream.Drained(counts, i + 1) == old(stream).Drained(counts, i)
      ensures going ==> stream.Fails(counts, i + 1) == old(stream).Fails(counts, i)
      ensures !going ==> stream == old(stream).Drained(counts, i)
      ensures !going ==> alive == (old(stream).Fails(counts, i) ==> wouldBlock)
      ensures OutputValid() && forall k :: 0 <= k < |output.blocks| ==> output.blocks[k] in old(output.blocks)
    {
      DrainStep(stream, counts, i);
      going := WriteBlock(counts[i]);
      DrainEnd(stream, counts, i + 1);
      alive := going || counts[i] >= 0 || wouldBlock;
      if going {
        going := HasOutput();
      }
    }

    method HasOutput() returns (some: bool)
      requires OutputValid()
      ensures some <==> stream.blocks != []
    {
      assert |output.Contents()| == |output.blocks|;
      some := output.head != null;
    }

    /** What process_output does with the result n of one write; whether it then goes on to the next block. */
    method WriteBlock(n: int) returns (again: bool)
      requires OutputValid() && stream.blocks != []
      modifies this`outputSize, this`stream, output, output.blocks
      ensures var all := |old(stream).blocks[0].text|;
        && again == (n >= all)
        && stream == (if n < 0 then old(stream) else old(stream).Took(if n >= all then all else n))
      ensures OutputValid() && forall k :: 0 <= k < |output.blocks| ==> output.blocks[k] in old(output.blocks)
    {
      assert output.Contents()[0] == output.head.Block();
      if n < 0 {
        return false;
      }
      var all := output.head.nchars;
      again := n >= all;
      Take(if again then all else n);
    }

    // ---- Input ----

    ghost predicate QueueValid()
      reads this, input, input.blocks
    {
      input.Valid() && input.Contents() == Queued(commands)
    }

    ghost predicate InputValid()
      reads this, input, input.blocks, rawInput
    {
      && QueueValid()
      && (rawInput != null ==> rawInput.Length == MAX_COMMAND_LEN && 0 < rawInputAt < MAX_COMMAND_LEN)
    }

    /** The line being assembled. */
    ghost function Partial(): string
      requires InputValid()
      reads this, input, input.blocks, rawInput
    {
      if rawInput == null then "" else rawInput[..rawInputAt]
    }

    /** add_to_queue with the terminating NUL. */
    method SaveCommand(command: string)
      requires QueueValid()
      modifies this`commands, input, input.blocks
      ensures QueueValid() && commands == old(commands) + [command]
      ensures fresh(set x | x in input.blocks && x !in old(input.blocks))
    {
      ghost var before := Queued(commands);
      commands := commands + [command];
      input.AddToQueue(command + "\0", false);
      assert Queued(commands) == before + [Block(command + "\0", false)];
    }

    /** The loop body of process_input. */
    method Accept(raw: array<char>, p: nat, c: char) returns (p': nat)
      requires p < MAX_COMMAND_LEN == raw.Length
      requires QueueValid()
      modifies this`commands, input, input.blocks, raw
      ensures p' < MAX_COMMAND_LEN
      ensures QueueValid()
      ensures fresh(set x | x in input.blocks && x !in old(input.blocks))
      ensures Intake(commands, raw[..p']) == FeedChar(Intake(old(commands), old(raw[..p])), c)
    {
      p' := p;
      if c == '\n' {
        raw[p] := '\0';
        assert raw[..p] == old(raw[..p]);
        if p > 0 {
          SaveCommand(raw[..p]);
        }
        p' := 0;
      } else if p < MAX_COMMAND_LEN - 1 && IsPrintable(c) {
        raw[p] := c;
        p' := p + 1;
        assert raw[..p'] == old(raw[..p]) + [c];
      }
    }

    /** The loop of process_input. */
    method AcceptAll(raw: array<char>, start: nat, chunk: string) returns (p: nat)
      requires start < MAX_COMMAND_LEN == raw.Length && QueueValid()
      modifies this`commands, input, input.blocks, raw
      ensures p < MAX_COMMAND_LEN && QueueValid()
      ensures fresh(set x | x in input.blocks && x !in old(input.blocks))
      ensures Intake(commands, raw[..p]) == Feed(Intake(old(commands), old(raw[..start])), chunk)
    {
      ghost var all := Feed(Intake(commands, raw[..start]), chunk);
      p := start;
      var q := 0;
      while q < |chunk|
        invariant 0 <= q <= |chunk| && 0 <= p < MAX_COMMAND_LEN && QueueValid()
        invariant fresh(set x | x in input.blocks && x !in old(input.blocks))
        invariant Feed(Intake(commands, raw[..p]), chunk[q..]) == all
      {
        assert chunk[q..][1..] == chunk[q + 1..];
        p := Accept(raw, p, chunk[q]);
        q := q + 1;
      }
    }

    method HasCommand() returns (some: bool)
      requires QueueValid()
      ensures some <==> commands != []
    {
      assert |input.Contents()| == |input.blocks| == |commands|;
      some := input.head != null;
    }

    /** The command at the front of the input queue, without its NUL. */
    method FirstCommand() returns (command: string)
      requires QueueValid() && commands != []
      ensures command == commands[0]
    {
      assert input.Contents()[0] == Block(commands[0] + "\0", false);
      var t := input.head;
      assert input.Contents()[0] == t.Block();
      ghost var text := t.buf[t.start..t.start + t.nchars];
      assert text == commands[0] + "\0" && |text| == t.nchars;
      command := t.buf[t.start..t.start + t.nchars - 1];
      assert command == text[..t.nchars - 1];
    }

    method DropCommand()
      requires QueueValid() && commands != []
      modifies this`commands, input
      ensures QueueValid() && commands == old(commands)[1..]
    {
      input.Pop();
      commands := commands[1..];
      assert Queued(commands) == Queued(old(commands))[1..];
    }

    /** chunk is what read returned; the result is false when it returned nothing. */
    method ProcessInput(chunk: string) returns (alive: bool)
      requires InputValid()
      modifies this`rawInput, this`rawInputAt, this`commands, input, input.blocks, rawInput
      ensures InputValid() && alive == (chunk != "")
      ensures Intake(commands, Partial()) == Feed(Intake(old(commands), old(Partial())), chunk)
    {
      if |chunk| == 0 {
        return false;
      }
      var raw, p := rawInput, rawInputAt;
      if raw == null {
        raw := new char[MAX_COMMAND_LEN];
        p := 0;
      }
      assert Intake(commands, raw[..p]) == Intake(old(commands), old(Partial()));
      p := AcceptAll(raw, p, chunk);
      if p > 0 {
        rawInput, rawInputAt := raw, p;
      } else {
        rawInput, rawInputAt := null, 0;
      }
      return true;
    }
  }

  ghost function Queued(commands: seq<string>): (s: seq<Block>)
    ensures |s| == |commands| && forall i :: 0 <= i < |s| ==> s[i] == Block(commands[i] + "\0", false)
  {
    seq(|commands|, i requires 0 <= i < |commands| => Block(commands[i] + "\0", false))
  }
}
