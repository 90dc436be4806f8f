/** How much the fixed-window limiter lets through: in any stretch of time, in any one
    window, and for which callers its limit is kept. */
module RateBounds {
  import opened RateLimit

  // ----- how much gets through ------------------------------------------------

  /** A window always lets its first hit through, whatever the limit. */
  function Budget(cfg: Config): int { if cfg.limit < 1 then 1 else cfg.limit }

  /** When the key's granted hits happened. */
  function Granted(cfg: Config, s: State, calls: seq<Call>, key: Client): seq<int>
    decreases |calls|
  {
    if |calls| == 0 then []
    else
      var init, last := calls[..|calls| - 1], calls[|calls| - 1];
      Granted(cfg, s, init, key)
        + if last.key == key && Allow(cfg, Run(cfg, s, init), key, last.now).1 then [last.now] else []
  }

  function CountIn(times: seq<int>, from: int, to: int): nat {
    if |times| == 0 then 0
    else CountIn(times[..|times| - 1], from, to) + if from <= times[|times| - 1] <= to then 1 else 0
  }

  lemma {:induction false} CountSplits(a: seq<int>, b: seq<int>, from: int, to: int)
    ensures CountIn(a + b, from, to) == CountIn(a, from, to) + CountIn(b, from, to)
    decreases |b|
  {
    if |b| == 0 {
      assert a + b == a;
    } else {
      assert (a + b)[..|a + b| - 1] == a + b[..|b| - 1];
      CountSplits(a, b[..|b| - 1], from, to);
    }
  }

  lemma {:induction false} CountAtMost(times: seq<int>, from: int, to: int)
    ensures CountIn(times, from, to) <= |times|
    ensures (forall i :: 0 <= i < |times| ==> times[i] < from || times[i] > to) ==> CountIn(times, from, to) == 0
    decreases |times|
  {
    if |times| > 0 {
      CountAtMost(times[..|times| - 1], from, to);
    }
  }

  /** At most one window's worth of hits lies within one window's length before `start`. */
  ghost predicate LastWindowOnly(cfg: Config, older: seq<int>, start: int) {
    forall t :: start - cfg.window <= t ==> CountIn(older, t, start) <= Budget(cfg)
  }

  /** The key's granted hits, split at the start of its current window. */
  ghost predicate Split(cfg: Config, c: Counter, older: seq<int>, current: seq<int>) {
    var start := c.resetAt - cfg.window;
    && c.hits >= 1
    && |current| == (if c.hits < Budget(cfg) then c.hits else Budget(cfg))
    && (forall i :: 0 <= i < |current| ==> start <= current[i] <= c.resetAt)
    && (forall i :: 0 <= i < |older| ==> older[i] < start)
    && LastWindowOnly(cfg, older, start)
  }

  function InWindow(times: seq<int>, from: int, length: int): nat { CountIn(times, from, from + length) }

  ghost predicate Bounded(cfg: Config, times: seq<int>) {
    forall t :: InWindow(times, t, cfg.window) <= 2 * Budget(cfg)
  }

  ghost predicate KeyInv(cfg: Config, all: map<Client, Counter>, key: Client, times: seq<int>,
                         older: seq<int>, current: seq<int>)
  {
    && Bounded(cfg, times) && times == older + current
    && (if key in all then Split(cfg, all[key], older, current) else times == [])
  }

  lemma {:induction false} CountWithin(times: seq<int>, from: int, to: int, from': int, to': int)
    requires forall i :: 0 <= i < |times| && from <= times[i] <= to ==> from' <= times[i] <= to'
    ensures CountIn(times, from, to) <= CountIn(times, from', to')
    decreases |times|
  {
    if |times| > 0 {
      CountWithin(times[..|times| - 1], from, to, from', to');
    }
  }

  /** One more granted hit at `now`: within the bound if what precedes it is. */
  lemma OneMore(cfg: Config, times: seq<int>, now: int)
    requires Bounded(cfg, times)
    requires forall t :: t <= now <= t + cfg.window ==> InWindow(times, t, cfg.window) < 2 * Budget(cfg)
    ensures Bounded(cfg, times + [now])
  {
    forall t ensures InWindow(times + [now], t, cfg.window) <= 2 * Budget(cfg) {
      assert (times + [now])[..|times|] == times;
      assert InWindow(times, t, cfg.window) <= 2 * Budget(cfg);
    }
  }

  lemma OpensWindow(cfg: Config, c: Counter, older: seq<int>, current: seq<int>, now: int)
    requires cfg.window >= 0 && Split(cfg, c, older, current) && Expired(c, now) && Bounded(cfg, older + current)
    ensures Split(cfg, Counter(1, now + cfg.window), older + current, [now])
    ensures Bounded(cfg, older + current + [now])
  {
    var times := older + current;
    forall t, to | now - cfg.window <= t ensures CountIn(times, t, to) <= Budget(cfg) {
      CountSplits(older, current, t, to);
      CountAtMost(older, t, to);
      CountAtMost(current, t, to);
    }
    OneMore(cfg, times, now);
  }

  lemma JoinsWindow(cfg: Config, c: Counter, older: seq<int>, current: seq<int>, now: int)
    requires cfg.window >= 0 && Split(cfg, c, older, current) && Bounded(cfg, older + current)
    requires c.resetAt - cfg.window <= now <= c.resetAt && c.hits + 1 <= cfg.limit
    ensures Split(cfg, c.(hits := c.hits + 1), older, current + [now])
    ensures Bounded(cfg, older + current + [now])
  {
    var start, times := c.resetAt - cfg.window, older + current;
    forall t | t <= now <= t + cfg.window ensures InWindow(times, t, cfg.window) < 2 * Budget(cfg) {
      CountSplits(older, current, t, t + cfg.window);
      CountWithin(older, t, t + cfg.window, t, start);
      assert CountIn(older, t, start) <= Budget(cfg);
      CountAtMost(current, t, t + cfg.window);
    }
    OneMore(cfg, times, now);
  }

  lemma NothingGranted(cfg: Config)
    ensures Bounded(cfg, [])
  {
    forall t ensures InWindow([], t, cfg.window) == 0 {
    }
  }

  /** One call of the unswept limiter, on this key or another. */
  lemma GrantOne(cfg: Config, all: map<Client, Counter>, call: Call, key: Client,
                 times: seq<int>, older: seq<int>, current: seq<int>)
      returns (older': seq<int>, current': seq<int>)
    requires cfg.window >= 0 && KeyInv(cfg, all, key, times, older, current)
    requires forall i :: 0 <= i < |times| ==> times[i] <= call.now
    ensures var (after, ok) := Hit(cfg, all, call.key, call.now);
            KeyInv(cfg, after, key, times + (if call.key == key && ok then [call.now] else []), older', current')
  {
    older', current' := older, current;
    var now := call.now;
    if call.key == key {
      if key !in all {
        older', current' := [], [now];
        OneMore(cfg, [], now) by { NothingGranted(cfg); }
        assert [] + [now] == [now] == times + [now];
      } else if Expired(all[key], now) {
        OpensWindow(cfg, all[key], older, current, now);
        older', current' := older + current, [now];
      } else if all[key].hits + 1 <= cfg.limit {
        assert current[0] == times[|older|];
        JoinsWindow(cfg, all[key], older, current, now);
        assert older + current + [now] == older + (current + [now]);
        current' := current + [now];
      } else {
        assert times + [] == times;
      }
    } else {
      assert times + [] == times;
    }
  }

  function UnsweptGrants(cfg: Config, calls: seq<Call>, key: Client): seq<int>
    decreases |calls|
  {
    if |calls| == 0 then []
    else
      var init, last := calls[..|calls| - 1], calls[|calls| - 1];
      UnsweptGrants(cfg, init, key)
        + if last.key == key && Hit(cfg, RunUnswept(cfg, init), key, last.now).1 then [last.now] else []
  }

  lemma UnsweptGrantsNext(cfg: Config, calls: seq<Call>, call: Call, key: Client)
    ensures UnsweptGrants(cfg, calls + [call], key)
         == UnsweptGrants(cfg, calls, key)
          + if call.key == key && Hit(cfg, RunUnswept(cfg, calls), key, call.now).1 then [call.now] else []
  {
    assert (calls + [call])[..|calls|] == calls;
  }

  /** What an unswept limiter grants one key, with the split that proves the bound. */
  lemma {:induction false} GrantsAreBounded(cfg: Config, calls: seq<Call>, key: Client)
      returns (older: seq<int>, current: seq<int>)
    requires cfg.window >= 0 && ClockOrdered(calls)
    ensures KeyInv(cfg, RunUnswept(cfg, calls), key, UnsweptGrants(cfg, calls, key), older, current)
    ensures forall i :: 0 <= i < |UnsweptGrants(cfg, calls, key)| ==>
      |calls| > 0 && UnsweptGrants(cfg, calls, key)[i] <= calls[|calls| - 1].now
    decreases |calls|
  {
    if |calls| == 0 {
      older, current := [], [];
      NothingGranted(cfg);
    } else {
      var n := |calls| - 1;
      older, current := GrantsAreBounded(cfg, calls[..n], key);
      assert n > 0 ==> calls[n - 1].now <= calls[n].now;
      older, current := GrantOne(cfg, RunUnswept(cfg, calls[..n]), calls[n], key,
                                 UnsweptGrants(cfg, calls[..n], key), older, current);
    }
  }

  lemma Onto(a: seq<int>, b: seq<int>, c: seq<int>)
    ensures (a + b) + c == a + (b + c)
  {
  }

  ghost predicate SplitAtReset(cfg: Config, s: State, calls: seq<Call>, key: Client) {
    Granted(cfg, s, calls, key)
    == Granted(cfg, s, Before(cfg, s, calls), key) + UnsweptGrants(cfg, Since(cfg, s, calls), key)
  }

  lemma SplitAtNewReset(cfg: Config, start: int, init: seq<Call>, last: Call, key: Client)
    requires LastResets(cfg, State(map[], start), init + [last])
    ensures SplitAtReset(cfg, State(map[], start), init + [last], key)
  {
    var s := State(map[], start);
    assert (init + [last])[..|init|] == init;
    assert Before(cfg, s, init + [last]) == init && Since(cfg, s, init + [last]) == [last];
    ResetStartsAgain(cfg, Run(cfg, s, init), last, last.now);
    UnsweptGrantsNext(cfg, [], last, key);
    assert [] + [last] == [last];
  }

  lemma SplitAtSameReset(cfg: Config, start: int, init: seq<Call>, last: Call, key: Client)
    requires ClockOrdered(init) && (|init| > 0 ==> init[|init| - 1].now <= last.now)
    requires SplitAtReset(cfg, State(map[], start), init, key)
    requires !LastResets(cfg, State(map[], start), init + [last])
    ensures SplitAtReset(cfg, State(map[], start), init + [last], key)
  {
    var s := State(map[], start);
    var before, since := Before(cfg, s, init), Since(cfg, s, init);
    assert (init + [last])[..|init|] == init;
    assert Before(cfg, s, init + [last]) == before && Since(cfg, s, init + [last]) == since + [last];
    SweepsChangeNoAnswer(cfg, start, init, last);
    UnsweptGrantsNext(cfg, since, last, key);
    var more := if last.key == key && Hit(cfg, RunUnswept(cfg, since), key, last.now).1 then [last.now] else [];
    assert Granted(cfg, s, init + [last], key) == Granted(cfg, s, init, key) + more;
    Onto(Granted(cfg, s, before, key), UnsweptGrants(cfg, since, key), more);
  }

  /** What was granted before the last reset, and what an unswept limiter grants since. */
  lemma {:induction false} GrantsSplit(cfg: Config, start: int, calls: seq<Call>, key: Client)
    requires ClockOrdered(calls)
    ensures SplitAtReset(cfg, State(map[], start), calls, key)
    decreases |calls|
  {
    if |calls| > 0 {
      var init, last := calls[..|calls| - 1], calls[|calls| - 1];
      assert calls == init + [last];
      if LastResets(cfg, State(map[], start), calls) {
        SplitAtNewReset(cfg, start, init, last, key);
      } else {
        GrantsSplit(cfg, start, init, key);
        SplitAtSameReset(cfg, start, init, last, key);
      }
    }
  }

  lemma {:induction false} UnsweptGrantsFrom(cfg: Config, calls: seq<Call>, key: Client, first: int)
    requires forall i :: 0 <= i < |calls| ==> first <= calls[i].now
    ensures forall i :: 0 <= i < |UnsweptGrants(cfg, calls, key)| ==> first <= UnsweptGrants(cfg, calls, key)[i]
    decreases |calls|
  {
    if |calls| > 0 { UnsweptGrantsFrom(cfg, calls[..|calls| - 1], key, first); }
  }

  lemma {:induction false} GrantedWithin(cfg: Config, s: State, calls: seq<Call>, key: Client, latest: int)
    requires forall i :: 0 <= i < |calls| ==> calls[i].now <= latest
    ensures forall i :: 0 <= i < |Granted(cfg, s, calls, key)| ==> Granted(cfg, s, calls, key)[i] <= latest
    decreases |calls|
  {
    if |calls| > 0 { GrantedWithin(cfg, s, calls[..|calls| - 1], key, latest); }
  }

  /** Twice the limit, and as much again for every reset. */
  function Allowance(cfg: Config, resets: nat): int { 2 * Budget(cfg) * (1 + resets) }

  lemma AllowanceGrows(cfg: Config, fewer: nat, more: nat)
    ensures fewer <= more ==> Allowance(cfg, fewer) <= Allowance(cfg, more)
    ensures fewer < more ==> Allowance(cfg, fewer) + 2 * Budget(cfg) <= Allowance(cfg, more)
    ensures Allowance(cfg, fewer) >= 2 * Budget(cfg)
  {
    if fewer < more { assert 2 * Budget(cfg) * (1 + more) >= 2 * Budget(cfg) * (2 + fewer); }
  }

  lemma AddUp(cfg: Config, earlier: int, later: int, fewer: nat, more: nat, alone: bool, before: bool, after: bool)
    requires later <= (if after then 0 else 2 * Budget(cfg))
    requires earlier <= (if alone || before then 0 else Allowance(cfg, fewer))
    requires more >= fewer + (if alone || before || after then 0 else 1)
    ensures earlier + later <= Allowance(cfg, more)
  {
    AllowanceGrows(cfg, fewer, more);
    AllowanceGrows(cfg, 0, more);
  }

  /** Hits granted before a reset, within their allowance, and hits granted from it on. */
  lemma GrantsAddUp(cfg: Config, earlier: seq<int>, later: seq<int>, from: int, reset: int, fewer: nat, more: nat)
    requires cfg.window >= 0 && Bounded(cfg, later)
    requires forall i :: 0 <= i < |earlier| ==> earlier[i] <= reset
    requires forall i :: 0 <= i < |later| ==> reset <= later[i]
    requires CountIn(earlier, from, from + cfg.window) <= Allowance(cfg, fewer)
    requires more >= fewer + (if earlier == [] || reset < from || reset > from + cfg.window then 0 else 1)
    ensures CountIn(earlier + later, from, from + cfg.window) <= Allowance(cfg, more)
  {
    var to := from + cfg.window;
    CountSplits(earlier, later, from, to);
    CountAtMost(earlier, from, to);
    CountAtMost(later, from, to);
    assert InWindow(later, from, cfg.window) <= 2 * Budget(cfg);
    AddUp(cfg, CountIn(earlier, from, to), CountIn(later, from, to), fewer, more,
          earlier == [], reset < from, reset > to);
  }

  lemma SinceIsBounded(cfg: Config, since: seq<Call>, key: Client)
    requires cfg.window >= 0 && ClockOrdered(since) && |since| > 0
    ensures Bounded(cfg, UnsweptGrants(cfg, since, key))
    ensures forall i :: 0 <= i < |UnsweptGrants(cfg, since, key)| ==> since[0].now <= UnsweptGrants(cfg, since, key)[i]
  {
    var older, current := GrantsAreBounded(cfg, since, key);
    UnsweptGrantsFrom(cfg, since, key, since[0].now);
  }

  ghost predicate WithinAllowance(cfg: Config, s: State, calls: seq<Call>, key: Client, from: int) {
    CountIn(Granted(cfg, s, calls, key), from, from + cfg.window)
    <= Allowance(cfg, ResetsIn(cfg, s, calls, from, from + cfg.window))
  }

  predicate OneMoreReset(cfg: Config, s: State, calls: seq<Call>, before: seq<Call>, reset: int, from: int, to: int) {
    ResetsIn(cfg, s, calls, from, to)
    >= ResetsIn(cfg, s, before, from, to) + if |before| > 0 && from <= reset <= to then 1 else 0
  }

  /** A run divides at its last reset: what was granted before, and a new limiter since. */
  ghost predicate Divides(cfg: Config, s: State, calls: seq<Call>, key: Client, before: seq<Call>, since: seq<Call>) {
    && |calls| > 0 && |before| < |calls| && |since| > 0 && since[|since| - 1] == calls[|calls| - 1]
    && ClockOrdered(before) && ClockOrdered(since)
    && (forall i :: 0 <= i < |before| ==> before[i].now <= since[0].now)
    && Granted(cfg, s, calls, key) == Granted(cfg, s, before, key) + UnsweptGrants(cfg, since, key)
    && Agrees(Run(cfg, s, calls).counts, RunUnswept(cfg, since), calls[|calls| - 1].now)
  }

  lemma Divide(cfg: Config, start: int, calls: seq<Call>, key: Client, from: int, to: int)
      returns (before: seq<Call>, since: seq<Call>)
    requires ClockOrdered(calls) && |calls| > 0
    ensures Divides(cfg, State(map[], start), calls, key, before, since)
    ensures OneMoreReset(cfg, State(map[], start), calls, before, since[0].now, from, to)
  {
    var s := State(map[], start);
    before, since := Before(cfg, s, calls), Since(cfg, s, calls);
    PartsInOrder(cfg, s, calls);
    GrantsSplit(cfg, start, calls, key);
    ResetsSplit(cfg, s, calls, from, to);
    StillAgrees(cfg, start, calls, calls[|calls| - 1].now);
  }

  lemma Recombine(cfg: Config, s: State, calls: seq<Call>, before: seq<Call>, since: seq<Call>, key: Client, from: int)
    requires cfg.window >= 0 && Divides(cfg, s, calls, key, before, since)
    requires OneMoreReset(cfg, s, calls, before, since[0].now, from, from + cfg.window)
    requires WithinAllowance(cfg, s, before, key, from)
    ensures WithinAllowance(cfg, s, calls, key, from)
  {
    GrantedWithin(cfg, s, before, key, since[0].now);
    SinceIsBounded(cfg, since, key);
    GrantsAddUp(cfg, Granted(cfg, s, before, key), UnsweptGrants(cfg, since, key), from, since[0].now,
                ResetsIn(cfg, s, before, from, from + cfg.window), ResetsIn(cfg, s, calls, from, from + cfg.window));
  }

  /** In any stretch of one window's length, wherever it begins, a key is granted at most
      twice the limit, and at most as much again for each ceiling reset inside it. */
  lemma {:induction false} AtMostTwiceTheLimit(cfg: Config, start: int, calls: seq<Call>, key: Client, from: int)
    requires cfg.window >= 0 && ClockOrdered(calls)
    ensures WithinAllowance(cfg, State(map[], start), calls, key, from)
    decreases |calls|
  {
    if |calls| > 0 {
      var before, since := Divide(cfg, start, calls, key, from, from + cfg.window);
      AtMostTwiceTheLimit(cfg, start, before, key, from);
      Recombine(cfg, State(map[], start), calls, before, since, key, from);
    }
  }

  // ----- one window -----------------------------------------------------------

  /** Of the hits in its current window, the key was granted all up to the limit. */
  predicate WindowFilled(cfg: Config, c: Counter, times: seq<int>) {
    CountIn(times, c.resetAt - cfg.window, c.resetAt) == if c.hits < Budget(cfg) then c.hits else Budget(cfg)
  }

  lemma {:induction false} CountExactly(times: seq<int>, from: int, to: int)
    requires forall i :: 0 <= i < |times| ==> from <= times[i] <= to
    ensures CountIn(times, from, to) == |times|
    decreases |times|
  {
    if |times| > 0 {
      CountExactly(times[..|times| - 1], from, to);
    }
  }

  lemma SplitCounts(cfg: Config, c: Counter, older: seq<int>, current: seq<int>)
    requires Split(cfg, c, older, current)
    ensures WindowFilled(cfg, c, older + current)
  {
    CountSplits(older, current, c.resetAt - cfg.window, c.resetAt);
    CountAtMost(older, c.resetAt - cfg.window, c.resetAt);
    CountExactly(current, c.resetAt - cfg.window, c.resetAt);
  }

  lemma WindowOfKey(cfg: Config, all: map<Client, Counter>, key: Client, times: seq<int>,
                    older: seq<int>, current: seq<int>)
    requires KeyInv(cfg, all, key, times, older, current) && key in all
    ensures WindowFilled(cfg, all[key], times) && all[key].hits >= 1
  {
    SplitCounts(cfg, all[key], older, current);
  }

  lemma UnsweptWindow(cfg: Config, calls: seq<Call>, key: Client)
    requires cfg.window >= 0 && ClockOrdered(calls) && key in RunUnswept(cfg, calls)
    ensures WindowFilled(cfg, RunUnswept(cfg, calls)[key], UnsweptGrants(cfg, calls, key))
    ensures RunUnswept(cfg, calls)[key].hits >= 1
  {
    var older, current := GrantsAreBounded(cfg, calls, key);
    WindowOfKey(cfg, RunUnswept(cfg, calls), key, UnsweptGrants(cfg, calls, key), older, current);
  }

  lemma {:induction false} WindowOpensInRun(cfg: Config, calls: seq<Call>, key: Client, first: int, latest: int)
    requires key in RunUnswept(cfg, calls)
    requires forall i :: 0 <= i < |calls| ==> first <= calls[i].now <= latest
    ensures first <= RunUnswept(cfg, calls)[key].resetAt - cfg.window <= latest
    decreases |calls|
  {
    var init := calls[..|calls| - 1];
    if key in RunUnswept(cfg, init) { WindowOpensInRun(cfg, init, key, first, latest); }
  }

  /** The window the key's counter stands for. */
  function Opening(cfg: Config, c: Counter): int { c.resetAt - cfg.window }

  /** How many hits of the key were granted in the window this counter opened. */
  function InWindowOf(cfg: Config, s: State, calls: seq<Call>, key: Client, c: Counter): nat {
    CountIn(Granted(cfg, s, calls, key), Opening(cfg, c), c.resetAt)
  }

  lemma NothingBefore(cfg: Config, s: State, before: seq<Call>, since: seq<Call>, key: Client, c: Counter)
    requires |before| > 0 ==> |since| > 0 && since[0].now < Opening(cfg, c)
    requires |since| > 0 && forall i :: 0 <= i < |before| ==> before[i].now <= since[0].now
    ensures InWindowOf(cfg, s, before, key, c) == 0
  {
    GrantedWithin(cfg, s, before, key, since[0].now);
    CountAtMost(Granted(cfg, s, before, key), Opening(cfg, c), c.resetAt);
  }

  lemma FilledOnto(cfg: Config, c: Counter, earlier: seq<int>, later: seq<int>)
    requires CountIn(earlier, Opening(cfg, c), c.resetAt) == 0 && WindowFilled(cfg, c, later)
    ensures WindowFilled(cfg, c, earlier + later)
  {
    CountSplits(earlier, later, Opening(cfg, c), c.resetAt);
  }

  lemma FilledSince(cfg: Config, s: State, calls: seq<Call>, before: seq<Call>, since: seq<Call>,
                    key: Client, c: Counter)
    requires cfg.window >= 0 && Divides(cfg, s, calls, key, before, since)
    requires key in Run(cfg, s, calls).counts && Run(cfg, s, calls).counts[key] == c
    requires OneMoreReset(cfg, s, calls, before, since[0].now, Opening(cfg, c), c.resetAt)
    requires ResetsIn(cfg, s, calls, Opening(cfg, c), c.resetAt) == 0
    ensures c.hits >= 1 && Opening(cfg, c) <= calls[|calls| - 1].now
    ensures WindowFilled(cfg, c, Granted(cfg, s, calls, key))
  {
    UnsweptWindow(cfg, since, key);
    WindowOpensInRun(cfg, since, key, since[0].now, calls[|calls| - 1].now);
    NothingBefore(cfg, s, before, since, key, c);
    FilledOnto(cfg, c, Granted(cfg, s, before, key), UnsweptGrants(cfg, since, key));
  }

  /** With no reset since it opened, a key's current window holds all it asked for, up to the limit. */
  lemma CurrentWindow(cfg: Config, start: int, calls: seq<Call>, key: Client)
    requires cfg.window >= 0 && ClockOrdered(calls) && key in Run(cfg, State(map[], start), calls).counts
    requires var c := Run(cfg, State(map[], start), calls).counts[key];
             ResetsIn(cfg, State(map[], start), calls, Opening(cfg, c), c.resetAt) == 0
    ensures |calls| > 0
    ensures var c := Run(cfg, State(map[], start), calls).counts[key];
            && c.hits >= 1 && Opening(cfg, c) <= calls[|calls| - 1].now
            && WindowFilled(cfg, c, Granted(cfg, State(map[], start), calls, key))
  {
    assert |calls| > 0;
    var c := Run(cfg, State(map[], start), calls).counts[key];
    var before, since := Divide(cfg, start, calls, key, Opening(cfg, c), c.resetAt);
    FilledSince(cfg, State(map[], start), calls, before, since, key, c);
  }

  /** The window is still the key's current one, or it is over and its count is final. */
  predicate Holding(cfg: Config, s: State, calls: seq<Call>, key: Client, end: int) {
    var counts, granted := Run(cfg, s, calls).counts, CountIn(Granted(cfg, s, calls, key), end - cfg.window, end);
    && |calls| > 0 && end - cfg.window <= calls[|calls| - 1].now
    && 1 <= granted <= Budget(cfg)
    && (calls[|calls| - 1].now > end
        || (key in counts && counts[key].resetAt == end && counts[key].hits >= 1
            && granted == if counts[key].hits < Budget(cfg) then counts[key].hits else Budget(cfg)))
  }

  /** One call inside a key's window that does not clear the map. */
  lemma HitInWindow(cfg: Config, s: State, call: Call, key: Client)
    requires key in s.counts && call.now <= s.counts[key].resetAt && s.counts[key].hits >= 1
    requires !Resets(cfg, s, call.now)
    ensures var (s', ok) := Allow(cfg, s, call.key, call.now);
            && key in s'.counts && s'.counts[key].resetAt == s.counts[key].resetAt
            && s'.counts[key].hits == s.counts[key].hits + (if call.key == key then 1 else 0)
            && (call.key == key ==> (ok <==> s.counts[key].hits + 1 <= cfg.limit))
  {
  }

  lemma CountNext(times: seq<int>, more: seq<int>, now: int, from: int, to: int)
    requires more == [] || more == [now]
    ensures CountIn(times + more, from, to)
         == CountIn(times, from, to) + if more == [now] && from <= now <= to then 1 else 0
  {
    if more == [now] {
      assert (times + more)[..|times|] == times;
    } else {
      assert times + more == times;
    }
  }

  lemma HoldsOn(cfg: Config, s: State, calls: seq<Call>, call: Call, key: Client, end: int)
    requires cfg.window >= 0 && Holding(cfg, s, calls, key, end) && calls[|calls| - 1].now <= call.now
    requires call.now <= end ==> !Resets(cfg, Run(cfg, s, calls), call.now)
    ensures Holding(cfg, s, calls + [call], key, end)
  {
    assert (calls + [call])[..|calls|] == calls;
    var ok := Allow(cfg, Run(cfg, s, calls), call.key, call.now).1;
    var more := if call.key == key && ok then [call.now] else [];
    assert Granted(cfg, s, calls + [call], key) == Granted(cfg, s, calls, key) + more;
    CountNext(Granted(cfg, s, calls, key), more, call.now, end - cfg.window, end);
    if call.now <= end { HitInWindow(cfg, Run(cfg, s, calls), call, key); }
  }

  lemma {:induction false} NoResetBefore(cfg: Config, s: State, first: seq<Call>, more: seq<Call>, from: int, to: int)
    requires ResetsIn(cfg, s, first + more, from, to) == 0
    ensures ResetsIn(cfg, s, first, from, to) == 0
    decreases |more|
  {
    if |more| == 0 {
      assert first + more == first;
    } else {
      assert (first + more)[..|first + more| - 1] == first + more[..|more| - 1];
      NoResetBefore(cfg, s, first, more[..|more| - 1], from, to);
    }
  }

  lemma {:induction false} HoldsToTheEnd(cfg: Config, s: State, first: seq<Call>, more: seq<Call>,
                                         key: Client, end: int)
    requires cfg.window >= 0 && ClockOrdered(first + more) && Holding(cfg, s, first, key, end)
    requires ResetsIn(cfg, s, first + more, end - cfg.window, end) == 0
    ensures Holding(cfg, s, first + more, key, end)
    decreases |more|
  {
    if |more| == 0 {
      assert first + more == first;
    } else {
      var init, last := more[..|more| - 1], more[|more| - 1];
      var sofar := first + init;
      assert first + more == sofar + [last] && (sofar + [last])[..|sofar|] == sofar;
      NoResetBefore(cfg, s, sofar, [last], end - cfg.window, end);
      OrderedParts(sofar, [last]);
      HoldsToTheEnd(cfg, s, first, init, key, end);
      HoldsOn(cfg, s, sofar, last, key, end);
    }
  }

  lemma HoldsAtFirst(cfg: Config, start: int, first: seq<Call>, key: Client)
    requires cfg.window >= 0 && ClockOrdered(first) && key in Run(cfg, State(map[], start), first).counts
    requires var c := Run(cfg, State(map[], start), first).counts[key];
             ResetsIn(cfg, State(map[], start), first, Opening(cfg, c), c.resetAt) == 0
    ensures Holding(cfg, State(map[], start), first, key, Run(cfg, State(map[], start), first).counts[key].resetAt)
  {
    CurrentWindow(cfg, start, first, key);
  }

  /** Any window a key is ever given, seen from any later moment: unless the ceiling cleared
      the map while it was open, the key was granted at most the limit in it. */
  lemma AtMostTheLimitPerWindow(cfg: Config, start: int, first: seq<Call>, more: seq<Call>, key: Client)
    requires cfg.window >= 0 && ClockOrdered(first + more) && key in Run(cfg, State(map[], start), first).counts
    requires var c := Run(cfg, State(map[], start), first).counts[key];
             ResetsIn(cfg, State(map[], start), first + more, Opening(cfg, c), c.resetAt) == 0
    ensures var c := Run(cfg, State(map[], start), first).counts[key];
            1 <= InWindowOf(cfg, State(map[], start), first + more, key, c) <= Budget(cfg)
  {
    var s := State(map[], start);
    var c := Run(cfg, s, first).counts[key];
    OrderedParts(first, more);
    NoResetBefore(cfg, s, first, more, Opening(cfg, c), c.resetAt);
    HoldsAtFirst(cfg, start, first, key);
    HoldsToTheEnd(cfg, s, first, more, key, c.resetAt);
  }

  // ----- when the limit itself is kept ----------------------------------------

  /** Within this run, every window opened by this moment stays within the limit to the end. */
  predicate KeepsLimit(cfg: Config, start: int, first: seq<Call>, more: seq<Call>, key: Client) {
    var s := State(map[], start);
    key in Run(cfg, s, first).counts ==>
      InWindowOf(cfg, s, first + more, key, Run(cfg, s, first).counts[key]) <= cfg.limit
  }

  /** In a window with no reset the limit is kept exactly when it is one or more. */
  lemma LimitIsKeptIff(cfg: Config, start: int, first: seq<Call>, more: seq<Call>, key: Client)
    requires cfg.window >= 0 && ClockOrdered(first + more) && key in Run(cfg, State(map[], start), first).counts
    requires var c := Run(cfg, State(map[], start), first).counts[key];
             ResetsIn(cfg, State(map[], start), first + more, Opening(cfg, c), c.resetAt) == 0
    ensures KeepsLimit(cfg, start, first, more, key) <==> cfg.limit >= 1
  {
    AtMostTheLimitPerWindow(cfg, start, first, more, key);
  }

  predicate From(calls: seq<Call>, keys: set<Client>) { forall i :: 0 <= i < |calls| ==> calls[i].key in keys }

  /** Fewer callers than the ceiling never fill the map. */
  lemma {:induction false} FewKeysNeverReset(cfg: Config, start: int, calls: seq<Call>, keys: set<Client>,
                                             from: int, to: int)
    requires From(calls, keys) && |keys| < cfg.maxKeys
    ensures Run(cfg, State(map[], start), calls).counts.Keys <= keys
    ensures ResetsIn(cfg, State(map[], start), calls, from, to) == 0
    decreases |calls|
  {
    if |calls| > 0 {
      var s, init, last := State(map[], start), calls[..|calls| - 1], calls[|calls| - 1];
      FewKeysNeverReset(cfg, start, init, keys, from, to);
      KeptIsSmaller(Run(cfg, s, init).counts, last.now);
      Fewer(Run(cfg, s, init).counts.Keys, keys);
    }
  }

  /** The limit holds for these callers: in every run of theirs, for every window of every key. */
  ghost predicate LimitHolds(cfg: Config, start: int, keys: set<Client>) {
    forall first, more, key ::
      ClockOrdered(first + more) && From(first + more, keys) ==> KeepsLimit(cfg, start, first, more, key)
  }

  /** Every entry was made at this instant. */
  predicate Instant(cfg: Config, s: State, at: int) {
    s.swept == at && forall k :: k in s.counts ==> s.counts[k].resetAt == at + cfg.window
  }

  predicate AllAt(calls: seq<Call>, at: int) { forall i :: 0 <= i < |calls| ==> calls[i].now == at }

  lemma BurstCall(cfg: Config, s: State, key: Client, at: int)
    requires cfg.window >= 0 && Instant(cfg, s, at)
    ensures Instant(cfg, Allow(cfg, s, key, at).0, at)
    ensures |s.counts| >= cfg.maxKeys ==>
      Allow(cfg, s, key, at).1 && Allow(cfg, s, key, at).0.counts == map[key := Counter(1, at + cfg.window)]
    ensures |s.counts| < cfg.maxKeys ==>
      Allow(cfg, s, key, at) == (State(Hit(cfg, s.counts, key, at).0, at), Hit(cfg, s.counts, key, at).1)
  {
    assert Kept(s.counts, at) == s.counts;
  }

  lemma RunNext(cfg: Config, s: State, calls: seq<Call>, call: Call, key: Client)
    ensures Run(cfg, s, calls + [call]) == Allow(cfg, Run(cfg, s, calls), call.key, call.now).0
    ensures Granted(cfg, s, calls + [call], key) == Granted(cfg, s, calls, key)
      + if call.key == key && Allow(cfg, Run(cfg, s, calls), key, call.now).1 then [call.now] else []
  {
    assert (calls + [call])[..|calls|] == calls;
  }

  /** After these calls the limiter is in state `s'` and has granted the key these hits. */
  predicate Reaches(cfg: Config, s: State, calls: seq<Call>, key: Client, s': State, granted: seq<int>) {
    Run(cfg, s, calls) == s' && Granted(cfg, s, calls, key) == granted
  }

  lemma Starts(cfg: Config, s: State, key: Client)
    ensures Reaches(cfg, s, [], key, s, [])
  {
  }

  lemma Calls(cfg: Config, s: State, calls: seq<Call>, key: Client, s': State, granted: seq<int>, call: Call)
    requires Reaches(cfg, s, calls, key, s', granted)
    ensures var (s'', ok) := Allow(cfg, s', call.key, call.now);
            Reaches(cfg, s, calls + [call], key, s'', granted + if call.key == key && ok then [call.now] else [])
  {
    RunNext(cfg, s, calls, call, key);
  }

  lemma {:induction false} RunJoins(cfg: Config, s: State, first: seq<Call>, more: seq<Call>, key: Client)
    ensures Run(cfg, s, first + more) == Run(cfg, Run(cfg, s, first), more)
    ensures Granted(cfg, s, first + more, key)
         == Granted(cfg, s, first, key) + Granted(cfg, Run(cfg, s, first), more, key)
    decreases |more|
  {
    if |more| == 0 {
      assert first + more == first;
    } else {
      var init, last := more[..|more| - 1], more[|more| - 1];
      assert first + more == (first + init) + [last] && more == init + [last];
      RunJoins(cfg, s, first, init, key);
      RunNext(cfg, s, first + init, last, key);
      RunNext(cfg, Run(cfg, s, first), init, last, key);
    }
  }

  /** One caller, as often as the limit allows: every call is granted. */
  lemma {:induction false} Hammer(cfg: Config, key: Client, at: int, n: nat) returns (calls: seq<Call>)
    requires cfg.window >= 0 && 1 <= n <= cfg.limit
    ensures AllAt(calls, at) && From(calls, {key}) && |Granted(cfg, State(map[], at), calls, key)| == n
    ensures var s := Run(cfg, State(map[], at), calls);
            Instant(cfg, s, at) && s.counts.Keys == {key} && s.counts[key].hits <= n
    decreases n
  {
    calls := [];
    if n > 1 { calls := Hammer(cfg, key, at, n - 1); }
    RunNext(cfg, State(map[], at), calls, Call(key, at), key);
    BurstCall(cfg, Run(cfg, State(map[], at), calls), key, at);
    calls := calls + [Call(key, at)];
  }

  lemma OneCall(cfg: Config, s: State, call: Call)
    ensures Run(cfg, s, [call]) == Allow(cfg, s, call.key, call.now).0
  {
    RunNext(cfg, s, [], call, call.key);
    assert [] + [call] == [call];
  }

  lemma OneMoreKey(counts: map<Client, Counter>, key: Client, c: Counter)
    requires key !in counts
    ensures |counts[key := c]| == |counts| + 1 && counts[key := c].Keys == counts.Keys + {key}
  {
    assert counts[key := c].Keys == counts.Keys + {key};
    assert |counts.Keys + {key}| == |counts.Keys| + 1;
  }

  lemma NewCaller(cfg: Config, s: State, key: Client, at: int)
    requires cfg.window >= 0 && Instant(cfg, s, at) && |s.counts| < cfg.maxKeys && key !in s.counts
    ensures Instant(cfg, Run(cfg, s, [Call(key, at)]), at)
    ensures Run(cfg, s, [Call(key, at)]).counts.Keys == s.counts.Keys + {key}
    ensures |Run(cfg, s, [Call(key, at)]).counts| == |s.counts| + 1
  {
    OneCall(cfg, s, Call(key, at));
    BurstCall(cfg, s, key, at);
    OneMoreKey(s.counts, key, Counter(1, at + cfg.window));
  }

  /** Other callers, one at a time, until the map is full. */
  lemma {:induction false} Crowd(cfg: Config, s: State, at: int, rest: set<Client>) returns (more: seq<Call>)
    requires cfg.window >= 0 && Instant(cfg, s, at)
    requires s.counts.Keys !! rest && |s.counts| + |rest| >= cfg.maxKeys
    ensures AllAt(more, at) && From(more, rest)
    ensures Instant(cfg, Run(cfg, s, more), at) && |Run(cfg, s, more).counts| >= cfg.maxKeys
    decreases rest
  {
    more := [];
    if |s.counts| < cfg.maxKeys {
      assert |rest| > 0;
      var x :| x in rest;
      NewCaller(cfg, s, x, at);
      var others := Crowd(cfg, Run(cfg, s, [Call(x, at)]), at, rest - {x});
      RunJoins(cfg, s, [Call(x, at)], others, x);
      more := [Call(x, at)] + others;
    }
  }

  lemma {:induction false} GrantedAt(cfg: Config, s: State, calls: seq<Call>, key: Client, at: int)
    requires AllAt(calls, at)
    ensures forall i :: 0 <= i < |Granted(cfg, s, calls, key)| ==> Granted(cfg, s, calls, key)[i] == at
    decreases |calls|
  {
    if |calls| > 0 { GrantedAt(cfg, s, calls[..|calls| - 1], key, at); }
  }

  /** On a full map one more call clears it and is granted. */
  lemma FullMapGrants(cfg: Config, s: State, others: seq<Call>, key: Client, at: int)
    requires cfg.window >= 0 && Instant(cfg, Run(cfg, s, others), at) && |Run(cfg, s, others).counts| >= cfg.maxKeys
    ensures |Granted(cfg, s, others + [Call(key, at)], key)| >= 1
  {
    BurstCall(cfg, Run(cfg, s, others), key, at);
    RunNext(cfg, s, others, Call(key, at), key);
  }

  lemma GrantsJoin(cfg: Config, s: State, first: seq<Call>, more: seq<Call>, key: Client)
    ensures |Granted(cfg, s, first + more, key)|
         == |Granted(cfg, s, first, key)| + |Granted(cfg, Run(cfg, s, first), more, key)|
  {
    RunJoins(cfg, s, first, more, key);
  }

  lemma TogetherFrom(first: seq<Call>, others: seq<Call>, last: Call, at: int, keys: set<Client>)
    requires AllAt(first, at) && AllAt(others, at) && last.now == at && last.key in keys
    requires From(first, {last.key}) && From(others, keys - {last.key})
    ensures AllAt(first + (others + [last]), at) && From(first + (others + [last]), keys)
  {
  }

  /** As many callers as the ceiling admits: one of them fills its window, the others fill
      the map, and its next call clears it and is granted beyond the limit. */
  lemma CrowdGrants(cfg: Config, at: int, keys: set<Client>, key: Client) returns (first: seq<Call>, more: seq<Call>)
    requires cfg.window >= 0 && cfg.limit >= 1 && key in keys && |keys| >= cfg.maxKeys
    ensures AllAt(first + more, at) && From(first + more, keys)
    ensures |Granted(cfg, State(map[], at), first + more, key)| > cfg.limit
    ensures key in Run(cfg, State(map[], at), first).counts
    ensures Run(cfg, State(map[], at), first).counts[key].resetAt == at + cfg.window
  {
    var s := State(map[], at);
    first := Hammer(cfg, key, at, cfg.limit);
    var others := Crowd(cfg, Run(cfg, s, first), at, keys - {key});
    more := others + [Call(key, at)];
    FullMapGrants(cfg, Run(cfg, s, first), others, key, at);
    GrantsJoin(cfg, s, first, more, key);
    TogetherFrom(first, others, Call(key, at), at, keys);
  }

  lemma CrowdBreaksLimit(cfg: Config, at: int, keys: set<Client>, key: Client)
      returns (first: seq<Call>, more: seq<Call>)
    requires cfg.window >= 0 && cfg.limit >= 1 && key in keys && |keys| >= cfg.maxKeys
    ensures AllAt(first + more, at) && From(first + more, keys)
    ensures !KeepsLimit(cfg, at, first, more, key)
  {
    first, more := CrowdGrants(cfg, at, keys, key);
    GrantedAt(cfg, State(map[], at), first + more, key, at);
    CountExactly(Granted(cfg, State(map[], at), first + more, key), at, at + cfg.window);
  }

  lemma AtOnceIsOrdered(calls: seq<Call>, at: int)
    requires AllAt(calls, at)
    ensures ClockOrdered(calls)
  {
  }

  /** With a limit below one the first call is let through all the same. */
  lemma ZeroLimitGrantsOne(cfg: Config, start: int, key: Client)
    requires cfg.window >= 0 && cfg.limit < 1
    ensures Granted(cfg, State(map[], start), [Call(key, start)], key) == [start]
    ensures !KeepsLimit(cfg, start, [Call(key, start)], [], key)
  {
    var s := State(map[], start);
    Starts(cfg, s, key);
    Calls(cfg, s, [], key, s, [], Call(key, start));
    BurstCall(cfg, s, key, start);
    assert [] + [Call(key, start)] == [Call(key, start)] && [Call(key, start)] + [] == [Call(key, start)];
    CountExactly([start], start, start + cfg.window);
  }

  /** A reset in the middle of a window: with room for two callers and a limit of one, the
      same caller is granted twice within the hour. */
  lemma ResetGrantsAgain(key: Client, other: Client)
    requires key != other
    ensures var cfg, s := Config(1, 3600, 2), State(map[], 0);
            var first, more := [Call(key, 0)], [Call(other, 1), Call(key, 2)];
            && Granted(cfg, s, first + more, key) == [0, 2]
            && !KeepsLimit(cfg, 0, first, more, key)
  {
    var cfg, s := Config(1, 3600, 2), State(map[], 0);
    var one := map[key := Counter(1, 3600)];
    var both := one[other := Counter(1, 3601)];
    var first := [Call(key, 0)];
    Starts(cfg, s, key);
    Calls(cfg, s, [], key, s, [], Call(key, 0));
    assert [] + first == first && [] + [0] == [0];
    assert Allow(cfg, s, key, 0) == (State(one, 0), true);
    Calls(cfg, s, first, key, State(one, 0), [0], Call(other, 1));
    assert Allow(cfg, State(one, 0), other, 1) == (State(both, 0), true);
    assert [0] + [] == [0];
    assert Kept(both, 2) == both && |both| == 2 by { assert both.Keys == {key, other}; }
    Calls(cfg, s, first + [Call(other, 1)], key, State(both, 0), [0], Call(key, 2));
    assert Allow(cfg, State(both, 0), key, 2).1;
    assert first + [Call(other, 1), Call(key, 2)] == (first + [Call(other, 1)]) + [Call(key, 2)] && [0] + [2] == [0, 2];
    CountExactly([0, 2], 0, 3600);
  }

  /** For which callers the limit holds, whatever they do: exactly those that are fewer than
      the ceiling, if the limit is at least one. */
  lemma LimitHoldsIff(cfg: Config, start: int, keys: set<Client>)
    requires cfg.window >= 0 && keys != {}
    ensures LimitHolds(cfg, start, keys) <==> cfg.limit >= 1 && |keys| < cfg.maxKeys
  {
    if cfg.limit < 1 {
      var key :| key in keys;
      var first := [Call(key, start)];
      ZeroLimitGrantsOne(cfg, start, key);
      assert first + [] == first;
      AtOnceIsOrdered(first, start);
      assert !KeepsLimit(cfg, start, first, [], key);
    } else if |keys| >= cfg.maxKeys {
      var key :| key in keys;
      var first, more := CrowdBreaksLimit(cfg, start, keys, key);
      AtOnceIsOrdered(first + more, start);
    } else {
      forall first, more, key | ClockOrdered(first + more) && From(first + more, keys)
        ensures KeepsLimit(cfg, start, first, more, key)
      {
        if key in Run(cfg, State(map[], start), first).counts {
          var c := Run(cfg, State(map[], start), first).counts[key];
          FewKeysNeverReset(cfg, start, first + more, keys, Opening(cfg, c), c.resetAt);
          LimitIsKeptIff(cfg, start, first, more, key);
        }
      }
    }
  }
}
