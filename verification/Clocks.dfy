/** src/time.c and the slice clock of src/server.c: a token bucket driven by truncating arithmetic. */
module Clocks {

  const COMMAND_TIME_MSEC := 1000
  const COMMAND_BURST_SIZE := 20
  const COMMANDS_PER_TIME := 1

  datatype TimeVal = TimeVal(sec: int, usec: int)

  predicate Normal(t: TimeVal) {
    0 <= t.usec < 1_000_000
  }

  /** Microseconds. */
  function Us(t: TimeVal): int {
    t.sec * 1_000_000 + t.usec
  }

  /** C division: towards zero. */
  function Div(a: int, b: int): int
    requires b > 0
  {
    if a >= 0 then a / b else -(-a / b)
  }

  function Mod(a: int, b: int): int
    requires b > 0
  {
    a - b * Div(a, b)
  }

  function TimevalSub(now: TimeVal, then_: TimeVal): TimeVal {
    var t := TimeVal(now.sec - then_.sec, now.usec - then_.usec);
    if t.usec < 0 then TimeVal(t.sec - 1, t.usec + 1_000_000) else t
  }

  function MsecDiff(now: TimeVal, then_: TimeVal): int {
    (now.sec - then_.sec) * 1000 + Div(now.usec - then_.usec, 1000)
  }

  function MsecAdd(t: TimeVal, x: int): TimeVal {
    var u := TimeVal(t.sec + Div(x, 1000), t.usec + Mod(x, 1000) * 1000);
    if u.usec >= 1_000_000 then TimeVal(u.sec + Div(u.usec, 1_000_000), Mod(u.usec, 1_000_000)) else u
  }

  /** How many time slices update_quotas sees between the two times. */
  function Slices(last: TimeVal, now: TimeVal): int {
    Div(MsecDiff(now, last), COMMAND_TIME_MSEC)
  }

  function NextSlice(last: TimeVal, now: TimeVal): TimeVal {
    MsecAdd(last, Slices(last, now) * COMMAND_TIME_MSEC)
  }

  function Refilled(quota: int, slices: int): int {
    if slices <= 0 then quota
    else if quota + COMMANDS_PER_TIME * slices > COMMAND_BURST_SIZE then COMMAND_BURST_SIZE
    else quota + COMMANDS_PER_TIME * slices
  }

  /** Differences are exact up to less than a millisecond either way. */
  lemma MsecDiffError(now: TimeVal, then_: TimeVal)
    requires Normal(now) && Normal(then_)
    ensures -1000 < Us(now) - Us(then_) - MsecDiff(now, then_) * 1000 < 1000
  {
  }

  lemma MsecAddExact(t: TimeVal, x: nat)
    requires Normal(t)
    ensures Normal(MsecAdd(t, x)) && Us(MsecAdd(t, x)) == Us(t) + x * 1000
  {
  }

  /**
   The slice clock stays within a millisecond ahead and a second behind the real one, although the
   divisions truncate towards zero.
   */
  lemma SliceClock(last: TimeVal, now: TimeVal)
    requires Normal(last) && Normal(now) && Us(now) - Us(last) > -1000
    ensures var n, next := Slices(last, now), NextSlice(last, now);
      && n >= 0
      && Normal(next)
      && Us(next) == Us(last) + n * 1_000_000
      && -1000 < Us(now) - Us(next) < 1_000_000
  {
    var m := MsecDiff(now, last);
    MsecDiffError(now, last);
    var n := Slices(last, now);
    assert m > -2;
    assert n >= 0 && 1000 * n <= m + 1 && m < 1000 * n + 1000;
    MsecAddExact(last, n * COMMAND_TIME_MSEC);
  }

  /** The timeout handed to select is a normalised, positive time of at most a slice and a millisecond. */
  lemma SliceTimeout(last: TimeVal, now: TimeVal)
    requires Normal(last) && Normal(now) && -1000 < Us(now) - Us(last) < 1_000_000
    ensures var t := TimevalSub(MsecAdd(last, COMMAND_TIME_MSEC), now);
      && Normal(t) && t.sec >= 0
      && Us(t) == Us(last) + 1_000_000 - Us(now)
      && 0 < Us(t) < 1_001_000
  {
    MsecAddExact(last, COMMAND_TIME_MSEC);
  }

  // ---- Whole runs ----

  /** One turn of the server loop for one connection: the clock is read, then commands are served. */
  datatype Turn = Turn(now: TimeVal, served: nat)

  /** A monotone clock, and never more commands served than the quota. */
  predicate Possible(last: TimeVal, before: TimeVal, quota: int, turns: seq<Turn>)
    decreases |turns|
  {
    turns != [] ==>
      var t := turns[0];
      var q := Refilled(quota, Slices(last, t.now));
      && Normal(t.now) && Us(before) <= Us(t.now)
      && t.served <= (if q > 0 then q else 0)
      && Possible(NextSlice(last, t.now), t.now, q - t.served, turns[1..])
  }

  function Served(turns: seq<Turn>): nat {
    if turns == [] then 0 else turns[0].served + Served(turns[1..])
  }

  function Granted(last: TimeVal, turns: seq<Turn>): int
    decreases |turns|
  {
    if turns == [] then 0 else Slices(last, turns[0].now) + Granted(NextSlice(last, turns[0].now), turns[1..])
  }

  function End(before: TimeVal, turns: seq<Turn>): TimeVal
    decreases |turns|
  {
    if turns == [] then before else End(turns[0].now, turns[1..])
  }

  /** The slice clock and the quota after the turns. */
  function After(last: TimeVal, quota: int, turns: seq<Turn>): (TimeVal, int)
    decreases |turns|
  {
    if turns == [] then (last, quota)
    else After(NextSlice(last, turns[0].now), Refilled(quota, Slices(last, turns[0].now)) - turns[0].served, turns[1..])
  }

  lemma {:induction false} RateLimit(last: TimeVal, before: TimeVal, quota: int, turns: seq<Turn>)
    requires Normal(last) && Normal(before) && Us(before) - Us(last) > -1000
    requires 0 <= quota <= COMMAND_BURST_SIZE && Possible(last, before, quota, turns)
    ensures Served(turns) <= quota + Granted(last, turns)
    ensures var (clock, left) := After(last, quota, turns);
      && Normal(clock) && -1000 < Us(End(before, turns)) - Us(clock)
      && (turns != [] ==> Us(End(before, turns)) - Us(clock) < 1_000_000)
      && 0 <= left <= COMMAND_BURST_SIZE
    ensures 0 <= Granted(last, turns) && Granted(last, turns) * 1_000_000 < Us(End(before, turns)) - Us(last) + 1000
    decreases |turns|
  {
    if turns != [] {
      var t := turns[0];
      SliceClock(last, t.now);
      RateLimit(NextSlice(last, t.now), t.now, Refilled(quota, Slices(last, t.now)) - t.served, turns[1..]);
    }
  }

  /**
   * In any window a connection is served at most a burst and one command per second of it, plus a
   * millisecond's slack.
   */
  lemma RateOverTime(last: TimeVal, before: TimeVal, quota: int, turns: seq<Turn>)
    requires Normal(last) && Normal(before) && -1000 < Us(before) - Us(last) < 1_000_000
    requires 0 <= quota <= COMMAND_BURST_SIZE && Possible(last, before, quota, turns)
    ensures (Served(turns) - 20) * 1_000_000 < Us(End(before, turns)) - Us(before) + 1_001_000
  {
    RateLimit(last, before, quota, turns);
  }
}
