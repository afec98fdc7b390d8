/**
 The other half of the throttle: a connection with commands waiting is served for every slice granted, so
 none of its commands waits for ever.
 */
module Backlogs {
  import opened Schedules
  import opened Throttles
  import Clocks

  /** The connection is there and has commands waiting. */
  predicate Backlogged(cs: seq<Client>, id: int) {
    exists i :: 0 <= i < |cs| && cs[i].id == id && cs[i].queue != []
  }

  /** If commands are left over, the whole quota has been used. */
  lemma BacklogSpends(cs: seq<Client>, id: int)
    requires Orderly(cs) && Backlogged(Processed(cs), id)
    ensures Has(cs, id) && Count(ProcessLog(cs), id) == QuotaOf(cs, id) && QuotaOf(Processed(cs), id) == 0
  {
    ServedIsSpent(cs, id);
    WithinWaiting(cs);
    RoundRobin(cs, Waiting(cs));
    var left := Processed(cs);
    var i :| 0 <= i < |left| && left[i].id == id && left[i].queue != [];
    assert left[i] in left;
    QuotaAt(left, i);
  }

  /** Commands are left over in every turn. */
  predicate AlwaysBacklogged(s: State, turns: seq<Throttles.Turn>, id: int)
    decreases |turns|
  {
    turns != [] ==>
      Backlogged(Processed(Woken(s, turns[0])), id) && AlwaysBacklogged(Next(s, turns[0]), turns[1..], id)
  }

  /** No turn comes so late that slices are lost. */
  predicate Prompt(last: Clocks.TimeVal, turns: seq<Throttles.Turn>)
    decreases |turns|
  {
    turns != [] ==>
      var now := turns[0].now;
      Clocks.Slices(last, now) <= 20 && Prompt(Clocks.NextSlice(last, now), turns[1..])
  }

  /** What the quota saved up beforehand adds in the first turn, capped. */
  function Saved(s: State, turns: seq<Throttles.Turn>, id: int): int {
    if turns == [] then 0
    else
      var n := Clocks.Slices(s.last, turns[0].now);
      Clocks.Refilled(QuotaOf(s.clients, id), n) - n
  }

  /** One turn. */
  lemma BacklogTurn(s: State, t: Throttles.Turn, id: int)
    requires Steady(s) && Clocks.Normal(t.now) && Clocks.Us(s.now) <= Clocks.Us(t.now) && Opened(id) !in t.arrivals
    requires Backlogged(Processed(Woken(s, t)), id)
    ensures var n := Clocks.Slices(s.last, t.now);
      && n >= 0 && Has(s.clients, id)
      && Count(ProcessLog(Woken(s, t)), id) == Clocks.Refilled(QuotaOf(s.clients, id), n)
      && (Has(Next(s, t).clients, id) ==> QuotaOf(Next(s, t).clients, id) == 0)
  {
    NextSteady(s, t);
    var cs := Woken(s, t);
    RefillKeeps(s.clients, Clocks.Slices(s.last, t.now), id);
    BacklogSpends(cs, id);
    ServedIsSpent(cs, id);
    AllArrivedKeep(Processed(cs), t.arrivals, id);
  }

  /** Exactly the slices granted, and what was saved up before. */
  lemma {:induction false} BacklogServed(s: State, turns: seq<Throttles.Turn>, id: int)
    requires Steady(s) && Monotone(s.now, turns) && Kept(id, turns)
    requires AlwaysBacklogged(s, turns, id) && Prompt(s.last, turns)
    ensures Count(Log(s, turns), id) == Clocks.Granted(s.last, Seen(s, turns, id)) + Saved(s, turns, id)
    ensures Saved(s, turns, id) >= 0
    decreases |turns|
  {
    if turns != [] {
      var t, rest := turns[0], turns[1..];
      RunGoesOn(s, turns, id);
      BacklogTurn(s, t, id);
      BacklogServed(Next(s, t), rest, id);
      NothingSaved(s, turns, id);
      SavedIsMore(s, turns, id);
      CountConcat(ProcessLog(Woken(s, t)), Log(Next(s, t), rest), id);
    }
  }

  lemma SavedIsMore(s: State, turns: seq<Throttles.Turn>, id: int)
    requires Steady(s) && turns != [] && Clocks.Normal(turns[0].now) && Clocks.Us(s.now) <= Clocks.Us(turns[0].now)
    requires Clocks.Slices(s.last, turns[0].now) <= Clocks.COMMAND_BURST_SIZE
    ensures Saved(s, turns, id) >= 0
  {
    QuotaBounded(s.clients, id);
  }

  /** After a turn that has used up the quota. */
  lemma SavedFromNothing(s: State, turns: seq<Throttles.Turn>, id: int)
    requires turns != [] ==> Clocks.Normal(turns[0].now) && Clocks.Us(s.now) <= Clocks.Us(turns[0].now)
    requires turns != [] ==> Clocks.Slices(s.last, turns[0].now) <= Clocks.COMMAND_BURST_SIZE
    requires Steady(s) && QuotaOf(s.clients, id) == 0
    ensures Saved(s, turns, id) == 0
  {
    if turns != [] {
      Clocks.SliceClock(s.last, turns[0].now);
    }
  }

  lemma NothingSaved(s: State, turns: seq<Throttles.Turn>, id: int)
    requires Steady(s) && turns != [] && Monotone(s.now, turns) && Kept(id, turns)
    requires AlwaysBacklogged(s, turns, id) && Prompt(s.last, turns)
    ensures Saved(Next(s, turns[0]), turns[1..], id) == 0
  {
    var m, rest := Next(s, turns[0]), turns[1..];
    RunGoesOn(s, turns, id);
    BacklogTurn(s, turns[0], id);
    if rest != [] {
      RunGoesOn(m, rest, id);
    }
    if !Has(m.clients, id) {
      NoQuota(m.clients, id);
    }
    SavedFromNothing(m, rest, id);
  }

  lemma {:induction false} GrantedExact(s: State, turns: seq<Throttles.Turn>, id: int)
    requires Steady(s) && Monotone(s.now, turns)
    ensures Clocks.Us(After(s, turns).last) ==
            Clocks.Us(s.last) + 1_000_000 * Clocks.Granted(s.last, Seen(s, turns, id))
    decreases |turns|
  {
    if turns != [] {
      Clocks.SliceClock(s.last, turns[0].now);
      NextSteady(s, turns[0]);
      GrantedExact(Next(s, turns[0]), turns[1..], id);
    }
  }

  /**
   After any beginning of a run, over any window in which commands of a connection are left over in every turn,
   and no turn is more than a burst late, at least one command is run for every slice granted, and so for every
   second of the window but one.
   */
  lemma WindowServed(s: State, before: seq<Throttles.Turn>, window: seq<Throttles.Turn>, id: int)
    requires Steady(s) && Monotone(s.now, before) && Monotone(After(s, before).now, window) && Kept(id, window)
    requires AlwaysBacklogged(After(s, before), window, id) && Prompt(After(s, before).last, window)
    ensures var m := After(s, before);
      var n := Count(Log(m, window), id);
      && Clocks.Granted(m.last, Seen(m, window, id)) <= n
      && Clocks.Us(After(m, window).now) - Clocks.Us(m.now) < (n + 1) * 1_000_000 + 1000
  {
    AfterSteady(s, before);
    var m := After(s, before);
    AfterSteady(m, window);
    BacklogServed(m, window, id);
    GrantedExact(m, window, id);
  }
}
