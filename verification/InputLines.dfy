/** How bytes read from a client become commands, by character and, independently, by line. */
module InputLines {
  import Lists

  const MAX_COMMAND_LEN := 512

  predicate IsPrintable(c: char) {
    ' ' <= c <= '~'
  }

  /** Commands saved so far and the line being assembled. */
  datatype Intake = Intake(commands: seq<string>, partial: string)

  /** The loop body of process_input. */
  function FeedChar(t: Intake, c: char): Intake {
    if c == '\n' then Intake(if t.partial == "" then t.commands else t.commands + [t.partial], "")
    else if |t.partial| < MAX_COMMAND_LEN - 1 && IsPrintable(c) then t.(partial := t.partial + [c])
    else t
  }

  function Feed(t: Intake, s: string): Intake
    decreases |s|
  {
    if s == "" then t else Feed(FeedChar(t, s[0]), s[1..])
  }

  // ---- The stream as lines ----

  function Printable(s: string): (r: string)
    ensures |r| <= |s|
  {
    if s == "" then "" else (if IsPrintable(s[0]) then [s[0]] else "") + Printable(s[1..])
  }

  /** What is kept of a line: its printable characters, up to 511 of them. */
  function Clip(line: string): string {
    var p := Printable(line);
    if |p| < MAX_COMMAND_LEN then p else p[..MAX_COMMAND_LEN - 1]
  }

  function FirstLine(s: string): (n: nat)
    ensures n <= |s|
    ensures n < |s| ==> s[n] == '\n'
    ensures forall i :: 0 <= i < n ==> s[i] != '\n'
  {
    if s == "" || s[0] == '\n' then 0 else 1 + FirstLine(s[1..])
  }

  /** Every complete line clipped, empty ones dropped, and the clipped incomplete line. */
  function Lines(s: string): Intake
    decreases |s|
  {
    var n := FirstLine(s);
    if n == |s| then Intake([], Clip(s))
    else
      var rest := Lines(s[n + 1..]);
      Intake((if Clip(s[..n]) == "" then [] else [Clip(s[..n])]) + rest.commands, rest.partial)
  }

  lemma {:induction false} FeedConcat(t: Intake, a: string, b: string)
    ensures Feed(t, a + b) == Feed(Feed(t, a), b)
    decreases |a|
  {
    if a == "" {
      assert a + b == b;
    } else {
      assert (a + b)[1..] == a[1..] + b;
      FeedConcat(FeedChar(t, a[0]), a[1..], b);
    }
  }

  lemma {:induction false} PrintableConcat(a: string, b: string)
    ensures Printable(a + b) == Printable(a) + Printable(b)
  {
    if a == "" {
      assert a + b == b;
    } else {
      PrintableConcat(a[1..], b);
      assert (a + b)[1..] == a[1..] + b && (a + b)[0] == a[0];
      var first := if IsPrintable(a[0]) then [a[0]] else "";
      assert Printable(a + b) == first + (Printable(a[1..]) + Printable(b));
      assert Printable(a) == first + Printable(a[1..]);
    }
  }

  lemma FeedOne(commands: seq<string>, done: string, c: char)
    requires c != '\n'
    ensures FeedChar(Intake(commands, Clip(done)), c) == Intake(commands, Clip(done + [c]))
  {
    PrintableConcat(done, [c]);
    assert Printable([c]) == if IsPrintable(c) then [c] else "";
  }

  lemma FirstMoved(done: string, s: string)
    requires s != ""
    ensures (done + [s[0]]) + s[1..] == done + s
  {
  }

  /** Within a line, assembling by character keeps the clipped text. */
  lemma {:induction false} FeedLine(commands: seq<string>, done: string, s: string)
    requires forall i :: 0 <= i < |s| ==> s[i] != '\n'
    ensures Feed(Intake(commands, Clip(done)), s) == Intake(commands, Clip(done + s))
    decreases |s|
  {
    if s == "" {
      assert done + s == done;
    } else {
      FeedOne(commands, done, s[0]);
      FeedLine(commands, done + [s[0]], s[1..]);
      FirstMoved(done, s);
    }
  }

  /** What the first line of s, if it is complete, is saved as. */
  function FirstSaved(s: string): seq<string> {
    var line := Clip(s[..FirstLine(s)]);
    if line == "" then [] else [line]
  }

  lemma LinesFromFirst(s: string)
    requires FirstLine(s) < |s|
    ensures var rest := Lines(s[FirstLine(s) + 1..]);
      Lines(s) == Intake(FirstSaved(s) + rest.commands, rest.partial)
  {
  }

  lemma {:induction false} FeedIsLines(commands: seq<string>, s: string)
    ensures Feed(Intake(commands, ""), s) == Intake(commands + Lines(s).commands, Lines(s).partial)
    decreases |s|
  {
    var n := FirstLine(s);
    FeedFirstLine(commands, s);
    if n < |s| {
      LinesFromFirst(s);
      FeedIsLines(commands + FirstSaved(s), s[n + 1..]);
      Lists.Regroup(commands, FirstSaved(s), Lines(s[n + 1..]).commands);
    } else {
      assert commands + [] == commands;
    }
  }

  lemma FeedFirstLine(commands: seq<string>, s: string)
    ensures var n := FirstLine(s);
      Feed(Intake(commands, ""), s) ==
        if n == |s| then Intake(commands, Clip(s))
        else Feed(Intake(commands + FirstSaved(s), ""), s[n + 1..])
  {
    var n := FirstLine(s);
    FeedOneLine(commands, s[..n]);
    if n == |s| {
      assert s[..n] == s;
    } else {
      FeedNewline(Intake(commands, ""), s, n);
      SaveLine(commands, Clip(s[..n]));
    }
  }

  lemma SaveLine(commands: seq<string>, line: string)
    ensures FeedChar(Intake(commands, line), '\n') == Intake(commands + if line == "" then [] else [line], "")
  {
    assert commands + [] == commands;
  }

  lemma FeedOneLine(commands: seq<string>, line: string)
    requires forall i :: 0 <= i < |line| ==> line[i] != '\n'
    ensures Feed(Intake(commands, ""), line) == Intake(commands, Clip(line))
  {
    FeedLine(commands, "", line);
    assert "" + line == line && Clip("") == "";
  }

  lemma FeedNewline(t: Intake, s: string, n: nat)
    requires n < |s| && s[n] == '\n'
    ensures Feed(t, s) == Feed(FeedChar(Feed(t, s[..n]), '\n'), s[n + 1..])
  {
    FeedConcat(t, s[..n], s[n..]);
    assert s[..n] + s[n..] == s;
    assert s[n..][1..] == s[n + 1..];
  }

  // ---- What a line becomes ----

  /** A line of at most 511 characters between ' ' and '~' becomes a command as it stands; an empty one none. */
  lemma {:induction false} PlainLine(commands: seq<string>, done: string, line: string)
    requires |done + line| <= 511 && forall i :: 0 <= i < |line| ==> 32 <= line[i] as int <= 126
    ensures Feed(Intake(commands, done), line + "\n") ==
            Intake(if done + line == "" then commands else commands + [done + line], "")
    decreases |line|
  {
    if line == "" {
      assert line + "\n" == "\n" && done + line == done;
      assert ("\n")[1..] == "";
    } else {
      assert (line + "\n")[1..] == line[1..] + "\n" && (line + "\n")[0] == line[0];
      assert (done + [line[0]]) + line[1..] == done + line;
      PlainLine(commands, done + [line[0]], line[1..]);
    }
  }

  /** Any other character leaves no trace, and neither does any more of a line of 511. */
  lemma Ignored(t: Intake, c: char)
    requires c != '\n' && (|t.partial| >= 511 || (c as int) < 32 || (c as int) > 126)
    ensures FeedChar(t, c) == t
  {
  }

  // ---- Reads of any size ----

  function FeedAll(t: Intake, chunks: seq<string>): Intake
    decreases |chunks|
  {
    if chunks == [] then t else FeedAll(Feed(t, chunks[0]), chunks[1..])
  }

  function Flatten(chunks: seq<string>): string {
    if chunks == [] then "" else chunks[0] + Flatten(chunks[1..])
  }

  lemma {:induction false} FeedAllFlat(t: Intake, chunks: seq<string>)
    ensures FeedAll(t, chunks) == Feed(t, Flatten(chunks))
    decreases |chunks|
  {
    if chunks != [] {
      FeedAllFlat(Feed(t, chunks[0]), chunks[1..]);
      FeedConcat(t, chunks[0], Flatten(chunks[1..]));
    }
  }

  /** However the stream is cut into reads, the commands are its clipped lines. */
  lemma ChunkingIrrelevant(chunks: seq<string>)
    ensures FeedAll(Intake([], ""), chunks) == Lines(Flatten(chunks))
  {
    FeedAllFlat(Intake([], ""), chunks);
    FeedIsLines([], Flatten(chunks));
  }
}
