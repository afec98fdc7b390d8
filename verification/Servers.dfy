/** The connection list: refilling quotas and running the queued commands. */
module Servers {
  import opened Clocks
  import opened Schedules
  import opened Connections
  import Throttles

  ghost function ClientOf(c: Connection): Client
    reads c
  {
    Client(c.descriptor, c.quota, c.commands)
  }

  /** No connection is listed twice, none shares its input queue. */
  ghost predicate Separate(cs: seq<Connection>) {
    forall i, j :: 0 <= i < j < |cs| ==> cs[i] != cs[j] && cs[i].input != cs[j].input
  }

  class Server {
    var connections: seq<Connection>
    /** Every command run, in order. */
    ghost var log: seq<Entry>

    constructor (connections: seq<Connection>)
      ensures this.connections == connections && log == []
    {
      this.connections := connections;
      log := [];
    }

    /** update_quotas: the new slice clock; every quota is refilled for the slices that have passed. */
    method UpdateQuotas(last: TimeVal, current: TimeVal) returns (next: TimeVal)
      requires Separate(connections)
      modifies connections`quota
      ensures next == NextSlice(last, current)
      ensures forall c :: c in connections ==> c.quota == Refilled(old(c.quota), Slices(last, current))
    {
      var n := Slices(last, current);
      if n > 0 {
        var i := 0;
        while i < |connections|
          invariant 0 <= i <= |connections|
          invariant forall k :: 0 <= k < |connections| ==>
            connections[k].quota == if k < i then Refilled(old(connections[k].quota), n) else old(connections[k].quota)
        {
          var c := connections[i];
          c.quota := c.quota + COMMANDS_PER_TIME * n;
          if c.quota > COMMAND_BURST_SIZE {
            c.quota := COMMAND_BURST_SIZE;
          }
          i := i + 1;
        }
      }
      next := MsecAdd(last, n * COMMAND_TIME_MSEC);
    }
  
    /** What the server loop does between two calls of select, before it reads and writes. */
    method RunTurn(last: TimeVal, current: TimeVal, ghost all: set<Connection>, ghost clients: seq<Client>)
      returns (next: TimeVal)
      requires Partway([], connections, all) && Mirrors(connections, clients) && forall c :: c in all ==> c.QueueValid()
      modifies this, all`quota, all`commands, set c | c in all :: c.input
      ensures Partway([], connections, all) && forall c :: c in all ==> c.QueueValid()
      ensures next == NextSlice(last, current)
      ensures var woken := Throttles.Refill(clients, Slices(last, current));
        Mirrors(connections, Processed(woken)) && log == old(log) + ProcessLog(woken)
    {
      next := UpdateQuotas(last, current);
      ProcessCommands(all, Throttles.Refill(clients, Slices(last, current)));
    }

    /** do_command and what follows it for one connection; the result says whether it must be closed. */
    method Serve(c: Connection) returns (close: bool, served: nat)
      requires c.QueueValid()
      modifies this`log, c`quota, c`commands, c.input
      ensures log == old(log) + PassLog([old(ClientOf(c))]) && served == |PassLog([old(ClientOf(c))])|
      ensures old(Schedules.Served(ClientOf(c))) == if close then [] else [ClientOf(c)]
      ensures c.QueueValid()
    {
      assert PassLog([]) == [];
      ghost var before := ClientOf(c);
      var some := c.HasCommand();
      if !some || c.quota <= 0 {
        return false, 0;
      }
      c.quota := c.quota - 1;
      var command := c.FirstCommand();
      log := log + [Entry(c.descriptor, command)];
      if command == QUIT_COMMAND {
        return true, 1;
      }
      c.DropCommand();
      assert Schedules.Served(before) == [Client(before.id, before.quota - 1, before.queue[1..])];
      return false, 1;
    }

    /** Serving one connection leaves the others alone, among them those of a and b. */
    method ServeAmong(c: Connection, ghost others: set<Connection>, ghost a: seq<Connection>, ghost aC: seq<Client>,
                      ghost b: seq<Connection>, ghost bC: seq<Client>)
      returns (close: bool, served: nat)
      requires c.QueueValid()
      requires forall d :: d in others ==> d != c && d.input != c.input && d.QueueValid()
      requires Mirrors(a, aC) && forall k :: 0 <= k < |a| ==> a[k] in others
      requires Mirrors(b, bC) && forall k :: 0 <= k < |b| ==> b[k] in others
      modifies this`log, c`quota, c`commands, c.input
      ensures log == old(log) + PassLog([old(ClientOf(c))]) && served == |PassLog([old(ClientOf(c))])|
      ensures old(Schedules.Served(ClientOf(c))) == if close then [] else [ClientOf(c)]
      ensures c.QueueValid() && forall d :: d in others ==> d.QueueValid()
      ensures Mirrors(a, aC) && Mirrors(b, bC)
    {
      close, served := Serve(c);
    }

    /** The loop body of process_commands: kept are the connections passed and not closed, rest those ahead. */
    method ServeNext(kept: seq<Connection>, c: Connection, rest: seq<Connection>, ghost all: set<Connection>,
                     ghost keptC: seq<Client>, ghost restC: seq<Client>)
      returns (kept': seq<Connection>, served: nat)
      requires Partway(kept, [c] + rest, all) && Mirrors(kept, keptC) && Mirrors(rest, restC)
      requires forall d :: d in all ==> d.QueueValid()
      modifies this`log, c`quota, c`commands, c.input
      ensures Partway(kept', rest, all)
      ensures Mirrors(kept', keptC + old(Schedules.Served(ClientOf(c)))) && Mirrors(rest, restC)
      ensures forall d :: d in all ==> d.QueueValid()
      ensures log == old(log) + PassLog([old(ClientOf(c))]) && served == |PassLog([old(ClientOf(c))])|
    {
      Advance(kept, c, rest, all);
      var close;
      close, served := ServeAmong(c, all - {c}, kept, keptC, rest, restC);
      kept' := if close then kept else kept + [c];
      MirrorsSnoc(kept, keptC, c);
    }

    /** process_commands: passes over the connection list until one runs nothing. */
    method ProcessCommands(ghost all: set<Connection>, ghost clients: seq<Client>)
      requires Partway([], connections, all) && Mirrors(connections, clients) && forall c :: c in all ==> c.QueueValid()
      modifies this, all`quota, all`commands, set c | c in all :: c.input
      ensures Partway([], connections, all) && forall c :: c in all ==> c.QueueValid()
      ensures Mirrors(connections, Processed(clients)) && log == old(log) + ProcessLog(clients)
    {
      ghost var now := clients;
      var left := connections;
      var processed: nat := 1;
      while processed > 0
        invariant Partway([], left, all) && Mirrors(left, now) && forall c :: c in all ==> c.QueueValid()
        invariant Processed(now) == Processed(clients) && log + ProcessLog(now) == old(log) + ProcessLog(clients)
        invariant processed == 0 ==> PassLog(now) == []
        decreases Waiting(now), processed
      {
        ProcessStep(now, log);
        left, processed := RunList(left, all, now);
        now := Pass(now);
      }
      ProcessStep(now, log);
      connections := left;
    }

    /** One pass over the list. */
    method RunList(list: seq<Connection>, ghost all: set<Connection>, ghost clients: seq<Client>)
      returns (kept: seq<Connection>, processed: nat)
      requires Partway([], list, all) && Mirrors(list, clients) && forall c :: c in all ==> c.QueueValid()
      modifies this`log, all`quota, all`commands, set c | c in all :: c.input
      ensures Partway([], kept, all) && forall c :: c in all ==> c.QueueValid()
      ensures Mirrors(kept, Pass(clients))
      ensures log == old(log) + PassLog(clients) && processed == |PassLog(clients)|
    {
      ghost var keptC: seq<Client>, todoC := [], clients;
      var todo := list;
      kept, processed := [], 0;
      while todo != []
        invariant Partway(kept, todo, all) && Mirrors(kept, keptC) && Mirrors(todo, todoC)
        invariant forall c :: c in all ==> c.QueueValid()
        invariant keptC + Pass(todoC) == Pass(clients)
        invariant log + PassLog(todoC) == old(log) + PassLog(clients)
        invariant processed + |PassLog(todoC)| == |PassLog(clients)|
        decreases |todo|
      {
        PassStep(keptC, log, todoC);
        var c, rest := todo[0], todo[1..];
        MirrorsTail(todo, todoC);
        var served;
        kept, served := ServeNext(kept, c, rest, all, keptC, todoC[1..]);
        processed := processed + served;
        todo := rest;
        keptC, todoC := keptC + Schedules.Served(todoC[0]), todoC[1..];
      }
      assert keptC + [] == keptC && log + [] == log;
    }
  }

  /** A pass that runs nothing is the last and changes nothing. */
  lemma ProcessStep(cs: seq<Client>, log: seq<Entry>)
    ensures PassLog(cs) == [] ==> Pass(cs) == cs && Processed(cs) == cs && ProcessLog(cs) == [] && log + [] == log
    ensures PassLog(cs) != [] ==>
      && Waiting(Pass(cs)) < Waiting(cs) && Processed(cs) == Processed(Pass(cs))
      && log + ProcessLog(cs) == (log + PassLog(cs)) + ProcessLog(Pass(cs))
  {
    PassShrinks(cs);
    if PassLog(cs) != [] {
      AppendStep(log, PassLog(cs), ProcessLog(Pass(cs)));
    }
  }

  lemma AppendStep<T>(a: seq<T>, b: seq<T>, c: seq<T>)
    ensures a + (b + c) == (a + b) + c
  {
  }

  lemma MirrorsSnoc(cs: seq<Connection>, clients: seq<Client>, c: Connection)
    requires Mirrors(cs, clients)
    ensures Mirrors(cs + [c], clients + [ClientOf(c)]) && clients + [] == clients
  {
  }

  lemma MirrorsTail(cs: seq<Connection>, clients: seq<Client>)
    requires Mirrors(cs, clients) && cs != []
    ensures [cs[0]] + cs[1..] == cs && ClientOf(cs[0]) == clients[0] && Mirrors(cs[1..], clients[1..])
  {
  }

  /** Between two turns of the loop: kept and todo are distinct connections of the list. */
  ghost predicate Partway(kept: seq<Connection>, todo: seq<Connection>, all: set<Connection>) {
    && Separate(kept) && Separate(todo)
    && (forall k :: 0 <= k < |kept| ==> kept[k] in all)
    && (forall k :: 0 <= k < |todo| ==> todo[k] in all)
    && (forall k, l :: 0 <= k < |kept| && 0 <= l < |todo| ==> kept[k] != todo[l])
    && (forall c, d :: c in all && d in all && c != d ==> c.input != d.input)
  }

  lemma Advance(kept: seq<Connection>, c: Connection, rest: seq<Connection>, all: set<Connection>)
    requires Partway(kept, [c] + rest, all)
    ensures c in all && Partway(kept, rest, all) && Partway(kept + [c], rest, all)
    ensures forall k :: 0 <= k < |kept| ==> kept[k] in all - {c}
    ensures forall k :: 0 <= k < |rest| ==> rest[k] in all - {c}
  {
    var todo := [c] + rest;
    assert todo[0] == c && forall k :: 0 <= k < |rest| ==> rest[k] == todo[k + 1];
  }

  ghost predicate Mirrors(cs: seq<Connection>, clients: seq<Client>)
    reads cs
  {
    |cs| == |clients| && forall k :: 0 <= k < |cs| ==> clients[k] == ClientOf(cs[k])
  }

  lemma PassLogOne(c: Client)
    ensures PassLog([c]) == if Schedules.Ready(c) then [Entry(c.id, c.queue[0])] else []
  {
    assert [c][1..] == [] && PassLog([]) == [];
  }

  lemma PassStep(kept: seq<Client>, log: seq<Entry>, cs: seq<Client>)
    requires cs != []
    ensures kept + Pass(cs) == (kept + Schedules.Served(cs[0])) + Pass(cs[1..])
    ensures log + PassLog(cs) == (log + PassLog([cs[0]])) + PassLog(cs[1..])
    ensures |PassLog(cs)| == |PassLog([cs[0]])| + |PassLog(cs[1..])|
  {
    PassLogOne(cs[0]);
    AppendStep(kept, Schedules.Served(cs[0]), Pass(cs[1..]));
    AppendStep(log, PassLog([cs[0]]), PassLog(cs[1..]));
  }
}
