/** Which commands process_commands of src/main.c runs, and in what order. */
module Schedules {

  const QUIT_COMMAND := "QUIT"

  /** A connection: its quota and the commands waiting in its input queue. */
  datatype Client = Client(id: int, quota: int, queue: seq<string>)

  datatype Entry = Entry(id: int, command: string)

  predicate Ready(c: Client) {
    c.quota > 0 && c.queue != []
  }

  // ---- The loop ----

  function Served(c: Client): seq<Client> {
    if !Ready(c) then [c]
    else if c.queue[0] == QUIT_COMMAND then []
    else [Client(c.id, c.quota - 1, c.queue[1..])]
  }

  /** The connections after one pass over the list; QUIT closes its connection. */
  function Pass(cs: seq<Client>): seq<Client> {
    if cs == [] then [] else Served(cs[0]) + Pass(cs[1..])
  }

  /** What one pass runs. */
  function PassLog(cs: seq<Client>): seq<Entry> {
    if cs == [] then []
    else (if Ready(cs[0]) then [Entry(cs[0].id, cs[0].queue[0])] else []) + PassLog(cs[1..])
  }

  function Waiting(cs: seq<Client>): nat {
    if cs == [] then 0 else |cs[0].queue| + Waiting(cs[1..])
  }

  lemma {:induction false} WaitingConcat(a: seq<Client>, b: seq<Client>)
    ensures Waiting(a + b) == Waiting(a) + Waiting(b)
  {
    if a == [] {
      assert a + b == b;
    } else {
      assert (a + b)[1..] == a[1..] + b;
      WaitingConcat(a[1..], b);
    }
  }

  /** A productive pass shortens the queues, so the loop ends. */
  lemma {:induction false} PassShrinks(cs: seq<Client>)
    ensures Waiting(Pass(cs)) + |PassLog(cs)| <= Waiting(cs)
    ensures PassLog(cs) == [] ==> Pass(cs) == cs
  {
    if cs != [] {
      PassShrinks(cs[1..]);
      WaitingConcat(Served(cs[0]), Pass(cs[1..]));
    }
  }

  /** Passes until one runs nothing. */
  function ProcessLog(cs: seq<Client>): seq<Entry>
    decreases Waiting(cs)
  {
    PassShrinks(cs);
    if PassLog(cs) == [] then [] else PassLog(cs) + ProcessLog(Pass(cs))
  }

  function Processed(cs: seq<Client>): seq<Client>
    decreases Waiting(cs)
  {
    PassShrinks(cs);
    if PassLog(cs) == [] then cs else Processed(Pass(cs))
  }

  // ---- The schedule, by connection ----

  /** How many commands c gets: as many as quota and queue allow, up to its first QUIT. */
  function Turns(c: Client): (n: nat)
    ensures n <= |c.queue|
    decreases |c.queue|
  {
    if !Ready(c) then 0
    else if c.queue[0] == QUIT_COMMAND then 1
    else 1 + Turns(Client(c.id, c.quota - 1, c.queue[1..]))
  }

  /** The k-th command of one connection. */
  function Turn(c: Client, k: nat): seq<Entry> {
    if k < Turns(c) then [Entry(c.id, c.queue[k])] else []
  }

  /** The k-th command of every connection that gets so many, in list order. */
  function Wave(cs: seq<Client>, k: nat): seq<Entry> {
    if cs == [] then []
    else Turn(cs[0], k) + Wave(cs[1..], k)
  }

  function Waves(cs: seq<Client>, k: nat, m: nat): seq<Entry>
    requires k <= m
    decreases m - k
  {
    if k == m then [] else Wave(cs, k) + Waves(cs, k + 1, m)
  }

  /** What is left of a connection that does not quit. */
  function Left(c: Client): seq<Client> {
    var n := Turns(c);
    if n > 0 && c.queue[n - 1] == QUIT_COMMAND then [] else [Client(c.id, c.quota - n, c.queue[n..])]
  }

  function AllLeft(cs: seq<Client>): seq<Client> {
    if cs == [] then [] else Left(cs[0]) + AllLeft(cs[1..])
  }

  predicate Within(cs: seq<Client>, m: nat) {
    forall i :: 0 <= i < |cs| ==> Turns(cs[i]) <= m
  }

  /** With no QUIT in the queue, exactly min(quota, queued) commands run. */
  lemma {:induction false} TurnsMin(c: Client)
    requires "QUIT" !in c.queue
    ensures Turns(c) == if c.quota <= 0 then 0 else if c.quota < |c.queue| then c.quota else |c.queue|
    decreases |c.queue|
  {
    if Ready(c) {
      TurnsMin(Client(c.id, c.quota - 1, c.queue[1..]));
    }
  }

  lemma {:induction false} WaveConcat(a: seq<Client>, b: seq<Client>, k: nat)
    ensures Wave(a + b, k) == Wave(a, k) + Wave(b, k)
  {
    if a == [] {
      assert a + b == b;
    } else {
      assert (a + b)[1..] == a[1..] + b;
      WaveConcat(a[1..], b, k);
      assert Wave(a, k) == Turn(a[0], k) + Wave(a[1..], k);
    }
  }

  lemma {:induction false} LeftConcat(a: seq<Client>, b: seq<Client>)
    ensures AllLeft(a + b) == AllLeft(a) + AllLeft(b)
  {
    if a == [] {
      assert a + b == b;
    } else {
      assert (a + b)[1..] == a[1..] + b;
      LeftConcat(a[1..], b);
    }
  }

  lemma {:induction false} FirstPass(cs: seq<Client>)
    ensures PassLog(cs) == Wave(cs, 0)
  {
    if cs != [] {
      FirstPass(cs[1..]);
    }
  }

  lemma ServedOne(c: Client, k: nat)
    ensures Wave(Served(c), k) == Wave([c], k + 1)
    ensures AllLeft(Served(c)) == Left(c)
  {
    if Ready(c) && c.queue[0] != QUIT_COMMAND {
      var d := Client(c.id, c.quota - 1, c.queue[1..]);
      assert Turns(c) == 1 + Turns(d);
      assert Wave([d], k) == if k < Turns(d) then [Entry(d.id, d.queue[k])] else [];
      OneLeft(c, d);
    }
  }

  lemma OneLeft(c: Client, d: Client)
    requires Ready(c) && c.queue[0] != QUIT_COMMAND && d == Client(c.id, c.quota - 1, c.queue[1..])
    ensures AllLeft([d]) == Left(d) == Left(c)
  {
    var n := Turns(d);
    assert Turns(c) == n + 1 && d.queue[n..] == c.queue[n + 1..];
    assert n > 0 ==> d.queue[n - 1] == c.queue[n];
    assert Left(d) + [] == Left(d);
  }

  lemma {:induction false} NextWave(cs: seq<Client>, k: nat)
    ensures Wave(Pass(cs), k) == Wave(cs, k + 1)
    ensures AllLeft(Pass(cs)) == AllLeft(cs)
  {
    if cs != [] {
      NextWave(cs[1..], k);
      ServedOne(cs[0], k);
      WaveConcat(Served(cs[0]), Pass(cs[1..]), k);
      WaveConcat([cs[0]], cs[1..], k + 1);
      LeftConcat(Served(cs[0]), Pass(cs[1..]));
      assert [cs[0]] + cs[1..] == cs;
    }
  }

  lemma {:induction false} WavesShift(cs: seq<Client>, k: nat, m: nat)
    requires k <= m
    ensures Waves(Pass(cs), k, m) == Waves(cs, k + 1, m + 1)
    decreases m - k
  {
    if k < m {
      NextWave(cs, k);
      WavesShift(cs, k + 1, m);
    }
  }

  lemma {:induction false} WithinPass(cs: seq<Client>, m: nat)
    requires Within(cs, m + 1)
    ensures Within(Pass(cs), m)
  {
    if cs != [] {
      assert Turns(cs[0]) <= m + 1;
      assert Within(cs[1..], m + 1);
      WithinPass(cs[1..], m);
      var a, b := Served(cs[0]), Pass(cs[1..]);
      forall i | 0 <= i < |a + b| ensures Turns((a + b)[i]) <= m {
        if i >= |a| {
          assert (a + b)[i] == b[i - |a|];
        }
      }
    }
  }

  lemma {:induction false} NoneReady(cs: seq<Client>, k: nat)
    requires PassLog(cs) == []
    ensures Wave(cs, k) == [] && AllLeft(cs) == cs
    ensures forall c :: c in cs ==> !Ready(c)
  {
    if cs != [] {
      assert !Ready(cs[0]);
      NoneReady(cs[1..], k);
      assert Left(cs[0]) == [cs[0]];
    }
  }

  lemma {:induction false} NoWaves(cs: seq<Client>, k: nat, m: nat)
    requires PassLog(cs) == [] && k <= m
    ensures Waves(cs, k, m) == []
    decreases m - k
  {
    if k < m {
      NoneReady(cs, k);
      NoWaves(cs, k + 1, m);
    }
  }

  /**
   The commands run in waves: nobody's next command before everybody's current one, each connection's in
   the order it sent them; and every connection ends out of quota, out of commands or closed.
   */
  lemma {:induction false} RoundRobin(cs: seq<Client>, m: nat)
    requires Within(cs, m)
    ensures ProcessLog(cs) == Waves(cs, 0, m)
    ensures Processed(cs) == AllLeft(cs)
    ensures forall c :: c in Processed(cs) ==> !Ready(c)
    decreases Waiting(cs)
  {
    PassShrinks(cs);
    FirstPass(cs);
    if m == 0 {
      NoTurns(cs);
    }
    if PassLog(cs) == [] {
      NoWaves(cs, 0, m);
      NoneReady(cs, 0);
    } else {
      WithinPass(cs, m - 1);
      RoundRobin(Pass(cs), m - 1);
      NextWave(cs, 0);
      WaveThenWaves(cs, m);
    }
  }

  lemma WaveThenWaves(cs: seq<Client>, m: nat)
    requires m > 0 && PassLog(cs) != [] && ProcessLog(Pass(cs)) == Waves(Pass(cs), 0, m - 1)
    ensures ProcessLog(cs) == Waves(cs, 0, m)
  {
    FirstPass(cs);
    WavesShift(cs, 0, m - 1);
  }

  lemma {:induction false} NoTurns(cs: seq<Client>)
    requires Within(cs, 0)
    ensures Wave(cs, 0) == []
  {
    if cs != [] {
      assert Turns(cs[0]) <= 0;
      assert Within(cs[1..], 0);
      NoTurns(cs[1..]);
    }
  }
}
