/**
 The rate limit end to end: quotas refilled by the slice clock of src/server.c and spent by process_commands
 of src/main.c, while connections come, go and send whatever they like.
 */
module Throttles {
  import opened Schedules
  import Lists
  import Clocks

  /** The slice clock, the last reading of the real one, and the connections. */
  datatype State = State(last: Clocks.TimeVal, now: Clocks.TimeVal, clients: seq<Client>)

  /** Between two turns: lines from a connection, the end of one, or a new one. */
  datatype Arrival = Sent(id: int, commands: seq<string>) | Gone(id: int) | Opened(id: int)

  datatype Turn = Turn(now: Clocks.TimeVal, arrivals: seq<Arrival>)

  // ---- One turn of the server loop ----

  /** update_quotas. */
  function Refill(cs: seq<Client>, n: int): (r: seq<Client>)
    ensures |r| == |cs|
    ensures forall i :: 0 <= i < |cs| ==> r[i] == cs[i].(quota := Clocks.Refilled(cs[i].quota, n))
  {
    seq(|cs|, i requires 0 <= i < |cs| => cs[i].(quota := Clocks.Refilled(cs[i].quota, n)))
  }

  /** The connections as process_commands finds them. */
  function Woken(s: State, t: Turn): seq<Client> {
    Refill(s.clients, Clocks.Slices(s.last, t.now))
  }

  predicate Has(cs: seq<Client>, id: int) {
    exists i :: 0 <= i < |cs| && cs[i].id == id
  }

  function Without(cs: seq<Client>, id: int): seq<Client> {
    if cs == [] then [] else (if cs[0].id == id then [] else [cs[0]]) + Without(cs[1..], id)
  }

  /** A descriptor is given to a new connection only when no other has it. */
  function Arrived(cs: seq<Client>, a: Arrival): seq<Client> {
    match a
    case Sent(id, commands) =>
      seq(|cs|, i requires 0 <= i < |cs| =>
        if cs[i].id == id then cs[i].(queue := cs[i].queue + commands) else cs[i])
    case Gone(id) => Without(cs, id)
    case Opened(id) => if Has(cs, id) then cs else [Client(id, Clocks.COMMAND_BURST_SIZE, [])] + cs
  }

  function AllArrived(cs: seq<Client>, arrivals: seq<Arrival>): seq<Client>
    decreases |arrivals|
  {
    if arrivals == [] then cs else AllArrived(Arrived(cs, arrivals[0]), arrivals[1..])
  }

  function Next(s: State, t: Turn): State {
    State(Clocks.NextSlice(s.last, t.now), t.now, AllArrived(Processed(Woken(s, t)), t.arrivals))
  }

  // ---- Runs ----

  function Log(s: State, turns: seq<Turn>): seq<Entry>
    decreases |turns|
  {
    if turns == [] then [] else ProcessLog(Woken(s, turns[0])) + Log(Next(s, turns[0]), turns[1..])
  }

  function After(s: State, turns: seq<Turn>): State
    decreases |turns|
  {
    if turns == [] then s else After(Next(s, turns[0]), turns[1..])
  }

  /** The clock never runs backwards. */
  predicate Monotone(now: Clocks.TimeVal, turns: seq<Turn>)
    decreases |turns|
  {
    turns != [] ==>
      Clocks.Normal(turns[0].now) && Clocks.Us(now) <= Clocks.Us(turns[0].now) && Monotone(turns[0].now, turns[1..])
  }

  /** The descriptor is not given to another connection in the meantime. */
  predicate Kept(id: int, turns: seq<Turn>) {
    forall i :: 0 <= i < |turns| ==> Opened(id) !in turns[i].arrivals
  }

  function Count(log: seq<Entry>, id: int): nat {
    if log == [] then 0 else (if log[0].id == id then 1 else 0) + Count(log[1..], id)
  }

  /** No two connections have one descriptor, and quotas are between nothing and a burst. */
  ghost predicate Orderly(cs: seq<Client>) {
    && (forall i, j :: 0 <= i < j < |cs| ==> cs[i].id != cs[j].id)
    && (forall i :: 0 <= i < |cs| ==> 0 <= cs[i].quota <= Clocks.COMMAND_BURST_SIZE)
  }

  /** Between two turns. */
  ghost predicate Steady(s: State) {
    && Orderly(s.clients) && Clocks.Normal(s.last) && Clocks.Normal(s.now)
    && -1000 < Clocks.Us(s.now) - Clocks.Us(s.last) < 1_000_000
  }

  /** The quota of the connection with that descriptor; none if there is no such connection. */
  function QuotaOf(cs: seq<Client>, id: int): int {
    if cs == [] then 0 else if cs[0].id == id then cs[0].quota else QuotaOf(cs[1..], id)
  }

  // ---- What one turn runs for one connection ----

  lemma {:induction false} CountConcat(a: seq<Entry>, b: seq<Entry>, id: int)
    ensures Count(a + b, id) == Count(a, id) + Count(b, id)
  {
    if a == [] {
      assert a + b == b;
    } else {
      assert (a + b)[1..] == a[1..] + b;
      CountConcat(a[1..], b, id);
    }
  }

  lemma {:induction false} CountAbsent(cs: seq<Client>, k: nat, id: int)
    requires !Has(cs, id)
    ensures Count(Wave(cs, k), id) == 0
  {
    HasFirstOrRest(cs, id);
    if cs != [] {
      CountConcat(Schedules.Turn(cs[0], k), Wave(cs[1..], k), id);
      CountAbsent(cs[1..], k, id);
    }
  }

  /** Once in every wave up to its number of turns. */
  lemma {:induction false} CountWave(cs: seq<Client>, k: nat, i: nat)
    requires Orderly(cs) && i < |cs|
    ensures Count(Wave(cs, k), cs[i].id) == if k < Turns(cs[i]) then 1 else 0
  {
    var id, rest := cs[i].id, cs[1..];
    assert forall j :: 0 <= j < |rest| ==> rest[j] == cs[j + 1];
    CountConcat(Schedules.Turn(cs[0], k), Wave(rest, k), id);
    if i == 0 {
      assert !Has(rest, id);
      CountAbsent(rest, k, id);
    } else {
      CountWave(rest, k, i - 1);
      assert cs[0].id != id;
    }
  }

  lemma CountNextWave(cs: seq<Client>, k: nat, m: nat, i: nat)
    requires Orderly(cs) && i < |cs| && k < m
    ensures Count(Waves(cs, k, m), cs[i].id)
         == (if k < Turns(cs[i]) then 1 else 0) + Count(Waves(cs, k + 1, m), cs[i].id)
  {
    CountWave(cs, k, i);
    CountConcat(Wave(cs, k), Waves(cs, k + 1, m), cs[i].id);
  }

  lemma {:induction false} CountWaves(cs: seq<Client>, k: nat, m: nat, i: nat)
    requires Orderly(cs) && i < |cs| && k <= m && Turns(cs[i]) <= m
    ensures Count(Waves(cs, k, m), cs[i].id) == if k < Turns(cs[i]) then Turns(cs[i]) - k else 0
    decreases m - k
  {
    if k < m {
      CountNextWave(cs, k, m, i);
      CountWaves(cs, k + 1, m, i);
    }
  }

  function CommandsOf(log: seq<Entry>, id: int): seq<string> {
    if log == [] then [] else (if log[0].id == id then [log[0].command] else []) + CommandsOf(log[1..], id)
  }

  lemma {:induction false} CommandsConcat(a: seq<Entry>, b: seq<Entry>, id: int)
    ensures CommandsOf(a + b, id) == CommandsOf(a, id) + CommandsOf(b, id)
  {
    if a == [] {
      assert a + b == b;
    } else {
      var first := if a[0].id == id then [a[0].command] else [];
      assert (a + b)[1..] == a[1..] + b && (a + b)[0] == a[0];
      CommandsConcat(a[1..], b, id);
      assert CommandsOf(a + b, id) == first + (CommandsOf(a[1..], id) + CommandsOf(b, id));
      assert CommandsOf(a, id) == first + CommandsOf(a[1..], id);
    }
  }

  lemma {:induction false} CommandsAbsent(cs: seq<Client>, k: nat, id: int)
    requires !Has(cs, id)
    ensures CommandsOf(Wave(cs, k), id) == []
  {
    HasFirstOrRest(cs, id);
    if cs != [] {
      CommandsConcat(Schedules.Turn(cs[0], k), Wave(cs[1..], k), id);
      CommandsAbsent(cs[1..], k, id);
    }
  }

  lemma {:induction false} CommandsOfWave(cs: seq<Client>, k: nat, i: nat)
    requires Orderly(cs) && i < |cs|
    ensures CommandsOf(Wave(cs, k), cs[i].id) == if k < Turns(cs[i]) then [cs[i].queue[k]] else []
  {
    var id, rest := cs[i].id, cs[1..];
    OrderlyRest(cs);
    CommandsConcat(Schedules.Turn(cs[0], k), Wave(rest, k), id);
    if i == 0 {
      CommandsAbsent(rest, k, id);
    } else {
      assert rest[i - 1] == cs[i] && cs[0].id != id;
      CommandsOfWave(rest, k, i - 1);
    }
  }

  function Between(q: seq<string>, k: nat, n: nat): seq<string>
    requires n <= |q|
  {
    if k < n then q[k..n] else []
  }

  lemma FirstAndRest(q: seq<string>, k: nat, n: nat)
    requires k < n <= |q|
    ensures [q[k]] + Between(q, k + 1, n) == Between(q, k, n)
  {
  }

  lemma CommandsOfNextWave(cs: seq<Client>, k: nat, m: nat, i: nat)
    requires Orderly(cs) && i < |cs| && k < m
    ensures CommandsOf(Waves(cs, k, m), cs[i].id) ==
            (if k < Turns(cs[i]) then [cs[i].queue[k]] else []) + CommandsOf(Waves(cs, k + 1, m), cs[i].id)
  {
    CommandsOfWave(cs, k, i);
    CommandsConcat(Wave(cs, k), Waves(cs, k + 1, m), cs[i].id);
  }

  lemma {:induction false} CommandsOfWaves(cs: seq<Client>, k: nat, m: nat, i: nat)
    requires Orderly(cs) && i < |cs| && k <= m && Turns(cs[i]) <= m
    ensures CommandsOf(Waves(cs, k, m), cs[i].id) == Between(cs[i].queue, k, Turns(cs[i]))
    decreases m - k
  {
    if k < m {
      CommandsOfNextWave(cs, k, m, i);
      CommandsOfWaves(cs, k + 1, m, i);
      if k < Turns(cs[i]) {
        FirstAndRest(cs[i].queue, k, Turns(cs[i]));
      }
    }
  }

  /** What is run for one connection: the first commands of its queue, in order, as many as its quota allows. */
  lemma ServedInOrder(cs: seq<Client>, i: nat)
    requires Orderly(cs) && i < |cs| && "QUIT" !in cs[i].queue
    ensures var q := cs[i].queue;
      CommandsOf(ProcessLog(cs), cs[i].id) == q[..if cs[i].quota < |q| then cs[i].quota else |q|]
  {
    WithinWaiting(cs);
    RoundRobin(cs, Waiting(cs));
    CommandsOfWaves(cs, 0, Waiting(cs), i);
    TurnsMin(cs[i]);
  }

  lemma {:induction false} CountNoWaves(cs: seq<Client>, k: nat, m: nat, id: int)
    requires !Has(cs, id) && k <= m
    ensures Count(Waves(cs, k, m), id) == 0
    decreases m - k
  {
    if k < m {
      CountAbsent(cs, k, id);
      CountConcat(Wave(cs, k), Waves(cs, k + 1, m), id);
      CountNoWaves(cs, k + 1, m, id);
    }
  }

  lemma {:induction false} WithinWaiting(cs: seq<Client>)
    ensures Within(cs, Waiting(cs))
  {
    if cs != [] {
      WithinWaiting(cs[1..]);
      forall i | 0 <= i < |cs| ensures Turns(cs[i]) <= Waiting(cs) {
        assert i > 0 ==> cs[i] == cs[1..][i - 1];
      }
    }
  }

  /** No more than the quota. */
  lemma {:induction false} TurnsBounded(c: Client)
    ensures Turns(c) <= if c.quota > 0 then c.quota else 0
    decreases |c.queue|
  {
    if Schedules.Ready(c) && c.queue[0] != QUIT_COMMAND {
      TurnsBounded(Client(c.id, c.quota - 1, c.queue[1..]));
    }
  }

  lemma HasFirstOrRest(cs: seq<Client>, id: int)
    ensures Has(cs, id) <==> cs != [] && (cs[0].id == id || Has(cs[1..], id))
  {
    if cs != [] {
      var rest := cs[1..];
      assert forall i :: 0 <= i < |rest| ==> rest[i] == cs[i + 1];
    }
  }

  lemma HasEither(a: seq<Client>, b: seq<Client>, id: int)
    ensures Has(a + b, id) <==> Has(a, id) || Has(b, id)
  {
    var c := a + b;
    assert forall i :: 0 <= i < |a| ==> c[i] == a[i];
    assert forall i :: 0 <= i < |b| ==> c[|a| + i] == b[i];
  }

  lemma OrderlyRest(cs: seq<Client>)
    requires Orderly(cs) && cs != []
    ensures Orderly(cs[1..]) && !Has(cs[1..], cs[0].id) && 0 <= cs[0].quota <= Clocks.COMMAND_BURST_SIZE
  {
    var rest := cs[1..];
    assert forall i :: 0 <= i < |rest| ==> rest[i] == cs[i + 1];
  }

  lemma OrderlyMore(c: Client, cs: seq<Client>)
    requires Orderly(cs) && !Has(cs, c.id) && 0 <= c.quota <= Clocks.COMMAND_BURST_SIZE
    ensures Orderly([c] + cs)
  {
    var more := [c] + cs;
    assert forall i :: 0 < i < |more| ==> more[i] == cs[i - 1];
  }

  lemma {:induction false} NoQuota(cs: seq<Client>, id: int)
    requires !Has(cs, id)
    ensures QuotaOf(cs, id) == 0
  {
    HasFirstOrRest(cs, id);
    if cs != [] {
      NoQuota(cs[1..], id);
    }
  }

  lemma {:induction false} QuotaAt(cs: seq<Client>, i: nat)
    requires Orderly(cs) && i < |cs|
    ensures QuotaOf(cs, cs[i].id) == cs[i].quota
  {
    if i > 0 {
      OrderlyRest(cs);
      QuotaAt(cs[1..], i - 1);
      assert cs[1..][i - 1] == cs[i];
    }
  }

  lemma {:induction false} QuotaBounded(cs: seq<Client>, id: int)
    requires Orderly(cs)
    ensures 0 <= QuotaOf(cs, id) <= Clocks.COMMAND_BURST_SIZE
  {
    if cs != [] {
      OrderlyRest(cs);
      QuotaBounded(cs[1..], id);
    }
  }

  lemma {:induction false} LeftOrderly(cs: seq<Client>, id: int)
    requires Orderly(cs)
    ensures Orderly(AllLeft(cs)) && (Has(AllLeft(cs), id) ==> Has(cs, id))
    decreases |cs|
  {
    if cs != [] {
      OrderlyRest(cs);
      LeftOrderly(cs[1..], id);
      LeftOrderly(cs[1..], cs[0].id);
      TurnsBounded(cs[0]);
      var first, rest := Left(cs[0]), AllLeft(cs[1..]);
      HasFirstOrRest(cs, id);
      HasEither(first, rest, id);
      if first == [] {
        assert [] + rest == rest;
      } else {
        OrderlyMore(first[0], rest);
      }
    }
  }

  lemma {:induction false} LeftQuota(cs: seq<Client>, i: nat)
    requires Orderly(cs) && i < |cs|
    ensures Has(AllLeft(cs), cs[i].id) <==> Left(cs[i]) != []
    ensures QuotaOf(AllLeft(cs), cs[i].id) == if Left(cs[i]) != [] then cs[i].quota - Turns(cs[i]) else 0
  {
    OrderlyRest(cs);
    var id, first, rest := cs[i].id, Left(cs[0]), AllLeft(cs[1..]);
    HasEither(first, rest, id);
    assert first == [] ==> [] + rest == rest;
    assert first != [] ==> first == [first[0]] && first[0].id == cs[0].id && (first + rest)[1..] == rest;
    if i == 0 {
      LeftOrderly(cs[1..], id);
      NoQuota(rest, id);
    } else {
      assert cs[1..][i - 1] == cs[i] && cs[0].id != id;
      LeftQuota(cs[1..], i - 1);
    }
  }

  /** process_commands runs no more commands of a connection than its quota, and takes them off the quota. */
  lemma ServedIsSpent(cs: seq<Client>, id: int)
    requires Orderly(cs)
    ensures Count(ProcessLog(cs), id) <= QuotaOf(cs, id)
    ensures Orderly(Processed(cs))
    ensures QuotaOf(Processed(cs), id)
         == if Has(Processed(cs), id) then QuotaOf(cs, id) - Count(ProcessLog(cs), id) else 0
    ensures Has(Processed(cs), id) ==> Has(cs, id)
  {
    var m := Waiting(cs);
    WithinWaiting(cs);
    RoundRobin(cs, m);
    LeftOrderly(cs, id);
    if i :| 0 <= i < |cs| && cs[i].id == id {
      CountWaves(cs, 0, m, i);
      TurnsBounded(cs[i]);
      QuotaAt(cs, i);
      LeftQuota(cs, i);
    } else {
      CountNoWaves(cs, 0, m, id);
      NoQuota(cs, id);
      NoQuota(AllLeft(cs), id);
    }
  }

  // ---- What happens between turns ----

  lemma {:induction false} WithoutKeeps(cs: seq<Client>, gone: int, id: int)
    requires Orderly(cs)
    ensures Orderly(Without(cs, gone)) && (Has(Without(cs, gone), id) ==> Has(cs, id))
    ensures Has(Without(cs, gone), id) ==> QuotaOf(Without(cs, gone), id) == QuotaOf(cs, id)
    decreases |cs|
  {
    if cs != [] {
      OrderlyRest(cs);
      WithoutKeeps(cs[1..], gone, id);
      WithoutKeeps(cs[1..], gone, cs[0].id);
      HasFirstOrRest(cs, id);
      var rest := Without(cs[1..], gone);
      if cs[0].id == gone {
        assert [] + rest == rest;
      } else {
        assert ([cs[0]] + rest)[1..] == rest;
        HasFirstOrRest([cs[0]] + rest, id);
        OrderlyMore(cs[0], rest);
      }
    }
  }

  /** Quotas as they were, with a full one for a new connection. */
  lemma ArrivedKeeps(cs: seq<Client>, a: Arrival, id: int)
    requires Orderly(cs) && a != Opened(id)
    ensures var ds := Arrived(cs, a);
      Orderly(ds) && (Has(ds, id) ==> Has(cs, id) && QuotaOf(ds, id) == QuotaOf(cs, id))
  {
    var ds := Arrived(cs, a);
    match a
    case Gone(gone) => WithoutKeeps(cs, gone, id);
    case Sent(_, _) =>
      if i :| 0 <= i < |ds| && ds[i].id == id {
        QuotaAt(ds, i);
        QuotaAt(cs, i);
      }
    case Opened(new_) =>
      if !Has(cs, new_) {
        OrderlyMore(Client(new_, Clocks.COMMAND_BURST_SIZE, []), cs);
        HasFirstOrRest(ds, id);
        assert ds[1..] == cs;
      }
  }

  lemma {:induction false} AllArrivedKeep(cs: seq<Client>, arrivals: seq<Arrival>, id: int)
    requires Orderly(cs) && Opened(id) !in arrivals
    ensures var ds := AllArrived(cs, arrivals);
      Orderly(ds) && (Has(ds, id) ==> Has(cs, id) && QuotaOf(ds, id) == QuotaOf(cs, id))
    decreases |arrivals|
  {
    if arrivals != [] {
      ArrivedKeeps(cs, arrivals[0], id);
      AllArrivedKeep(Arrived(cs, arrivals[0]), arrivals[1..], id);
    }
  }

  lemma {:induction false} AllArrivedOrderly(cs: seq<Client>, arrivals: seq<Arrival>)
    requires Orderly(cs)
    ensures Orderly(AllArrived(cs, arrivals))
    decreases |arrivals|
  {
    if arrivals != [] {
      var id := if arrivals[0].Opened? then arrivals[0].id + 1 else 0;
      ArrivedKeeps(cs, arrivals[0], id);
      AllArrivedOrderly(Arrived(cs, arrivals[0]), arrivals[1..]);
    }
  }

  lemma RefillKeeps(cs: seq<Client>, n: int, id: int)
    requires Orderly(cs) && n >= 0
    ensures Orderly(Refill(cs, n)) && (Has(Refill(cs, n), id) <==> Has(cs, id))
    ensures Has(cs, id) ==> QuotaOf(Refill(cs, n), id) == Clocks.Refilled(QuotaOf(cs, id), n)
  {
    var ds := Refill(cs, n);
    assert forall i :: 0 <= i < |cs| ==> ds[i].id == cs[i].id;
    if i :| 0 <= i < |cs| && cs[i].id == id {
      QuotaAt(ds, i);
      QuotaAt(cs, i);
    }
  }

  // ---- Whole runs ----

  /** Between turns quotas stay between nothing and a burst, and the slice clock close to the real one. */
  lemma NextSteady(s: State, t: Turn)
    requires Steady(s) && Clocks.Normal(t.now) && Clocks.Us(s.now) <= Clocks.Us(t.now)
    ensures Steady(Next(s, t)) && Clocks.Slices(s.last, t.now) >= 0
  {
    Clocks.SliceClock(s.last, t.now);
    RefillKeeps(s.clients, Clocks.Slices(s.last, t.now), 0);
    ServedIsSpent(Woken(s, t), 0);
    AllArrivedOrderly(Processed(Woken(s, t)), t.arrivals);
  }

  lemma {:induction false} AfterSteady(s: State, turns: seq<Turn>)
    requires Steady(s) && Monotone(s.now, turns)
    ensures Steady(After(s, turns))
    decreases |turns|
  {
    if turns != [] {
      NextSteady(s, turns[0]);
      AfterSteady(Next(s, turns[0]), turns[1..]);
    }
  }

  /** The turns as one connection sees them. */
  function Seen(s: State, turns: seq<Turn>, id: int): seq<Clocks.Turn>
    decreases |turns|
  {
    if turns == [] then []
    else
      var t := Clocks.Turn(turns[0].now, Count(ProcessLog(Woken(s, turns[0])), id));
      [t] + Seen(Next(s, turns[0]), turns[1..], id)
  }

  lemma {:induction false} SeenCounts(s: State, turns: seq<Turn>, id: int)
    ensures Clocks.Served(Seen(s, turns, id)) == Count(Log(s, turns), id)
    decreases |turns|
  {
    if turns != [] {
      CountConcat(ProcessLog(Woken(s, turns[0])), Log(Next(s, turns[0]), turns[1..]), id);
      SeenCounts(Next(s, turns[0]), turns[1..], id);
    }
  }

  /** What one turn does to one connection's quota. */
  lemma TurnSpends(s: State, t: Turn, id: int, quota: int)
    requires Steady(s) && Clocks.Normal(t.now) && Clocks.Us(s.now) <= Clocks.Us(t.now) && Opened(id) !in t.arrivals
    requires 0 <= quota <= Clocks.COMMAND_BURST_SIZE && (Has(s.clients, id) ==> QuotaOf(s.clients, id) == quota)
    ensures var q, n := Clocks.Refilled(quota, Clocks.Slices(s.last, t.now)), Count(ProcessLog(Woken(s, t)), id);
      && n <= q && 0 <= q - n <= 20
      && (Has(Next(s, t).clients, id) ==> QuotaOf(Next(s, t).clients, id) == q - n)
  {
    NextSteady(s, t);
    var cs := Woken(s, t);
    RefillKeeps(s.clients, Clocks.Slices(s.last, t.now), id);
    ServedIsSpent(cs, id);
    AllArrivedKeep(Processed(cs), t.arrivals, id);
    if !Has(s.clients, id) {
      NoQuota(cs, id);
    }
  }

  lemma PossibleMore(s: State, t: Turn, quota: int, served: nat, left: nat, rest: seq<Clocks.Turn>)
    requires Clocks.Normal(t.now) && Clocks.Us(s.now) <= Clocks.Us(t.now)
    requires served + left == Clocks.Refilled(quota, Clocks.Slices(s.last, t.now))
    requires Clocks.Possible(Next(s, t).last, Next(s, t).now, left, rest)
    ensures Clocks.Possible(s.last, s.now, quota, [Clocks.Turn(t.now, served)] + rest)
  {
    assert ([Clocks.Turn(t.now, served)] + rest)[1..] == rest;
  }

  /** The rest of a run is a run from the state after its first turn. */
  lemma RunGoesOn(s: State, turns: seq<Turn>, id: int)
    requires Steady(s) && turns != [] && Monotone(s.now, turns) && Kept(id, turns)
    ensures Clocks.Normal(turns[0].now) && Clocks.Us(s.now) <= Clocks.Us(turns[0].now)
    ensures Opened(id) !in turns[0].arrivals && Kept(id, turns[1..])
    ensures Steady(Next(s, turns[0])) && Monotone(Next(s, turns[0]).now, turns[1..])
  {
    NextSteady(s, turns[0]);
  }

  /** What process_commands does is possible in the sense of Clocks: never more than the quota. */
  lemma {:induction false} SeenPossible(s: State, turns: seq<Turn>, id: int, quota: int)
    requires Steady(s) && Monotone(s.now, turns) && Kept(id, turns)
    requires 0 <= quota <= Clocks.COMMAND_BURST_SIZE && (Has(s.clients, id) ==> QuotaOf(s.clients, id) == quota)
    ensures Clocks.Possible(s.last, s.now, quota, Seen(s, turns, id))
    decreases |turns|
  {
    if turns != [] {
      var t, rest := turns[0], turns[1..];
      RunGoesOn(s, turns, id);
      TurnSpends(s, t, id, quota);
      var served := Count(ProcessLog(Woken(s, t)), id);
      var left := Clocks.Refilled(quota, Clocks.Slices(s.last, t.now)) - served;
      SeenPossible(Next(s, t), rest, id, left);
      PossibleMore(s, t, quota, served, left, Seen(Next(s, t), rest, id));
    }
  }

  /**
   After any beginning of a run, in any window a connection has at most a burst of commands run and one for
   each slice granted, and so at most a burst and one for each second of the window.
   */
  lemma WindowRate(s: State, before: seq<Turn>, window: seq<Turn>, id: int)
    requires Steady(s) && Monotone(s.now, before) && Monotone(After(s, before).now, window) && Kept(id, window)
    ensures var m := After(s, before);
      var n := Count(Log(m, window), id);
      && n <= 20 + Clocks.Granted(m.last, Seen(m, window, id))
      && (n - 20) * 1_000_000 < Clocks.Us(After(m, window).now) - Clocks.Us(m.now) + 1_001_000
  {
    AfterSteady(s, before);
    var m := After(s, before);
    var quota, seen := QuotaOf(m.clients, id), Seen(m, window, id);
    QuotaBounded(m.clients, id);
    SeenPossible(m, window, id, quota);
    SeenCounts(m, window, id);
    SeenEnds(m, window, id);
    Clocks.RateLimit(m.last, m.now, quota, seen);
    Clocks.RateOverTime(m.last, m.now, quota, seen);
  }

  lemma {:induction false} SeenEnds(s: State, turns: seq<Turn>, id: int)
    ensures Clocks.End(s.now, Seen(s, turns, id)) == After(s, turns).now
    decreases |turns|
  {
    if turns != [] {
      SeenEnds(Next(s, turns[0]), turns[1..], id);
    }
  }

  /** The log of a run is that of its beginning and that of the window behind it. */
  lemma {:induction false} LogSplits(s: State, before: seq<Turn>, window: seq<Turn>)
    ensures Log(s, before + window) == Log(s, before) + Log(After(s, before), window)
    ensures After(s, before + window) == After(After(s, before), window)
    decreases |before|
  {
    if before == [] {
      assert before + window == window;
    } else {
      assert (before + window)[1..] == before[1..] + window;
      var m := Next(s, before[0]);
      LogSplits(m, before[1..], window);
      Lists.Regroup(ProcessLog(Woken(s, before[0])), Log(m, before[1..]), Log(After(m, before[1..]), window));
    }
  }
}
