/** The fixed-window limiter: per-key counters, a sweep, and a ceiling on the map. */
module RateLimit {
  const MINUTE := 60_000_000_000

  /** A caller's address. */
  datatype Client = Client(address: string)
  datatype Counter = Counter(hits: int, resetAt: int)
  datatype Config = Config(limit: int, window: int, maxKeys: int)
  datatype State = State(counts: map<Client, Counter>, swept: int)

  predicate Expired(c: Counter, now: int) { now > c.resetAt }

  function Kept(counts: map<Client, Counter>, now: int): map<Client, Counter> {
    map k | k in counts && !Expired(counts[k], now) :: counts[k]
  }

  predicate SweepsNow(cfg: Config, s: State, now: int) { now - s.swept >= MINUTE || |s.counts| >= cfg.maxKeys }

  /** The sweep found every entry live at the ceiling and started again. */
  predicate Resets(cfg: Config, s: State, now: int) {
    SweepsNow(cfg, s, now) && |Kept(s.counts, now)| >= cfg.maxKeys
  }

  function Sweep(cfg: Config, s: State, now: int): State {
    if !SweepsNow(cfg, s, now) then s
    else State(if Resets(cfg, s, now) then map[] else Kept(s.counts, now), now)
  }

  /** Count one hit, without sweeping. */
  function Hit(cfg: Config, counts: map<Client, Counter>, key: Client, now: int): (map<Client, Counter>, bool) {
    if key !in counts || Expired(counts[key], now) then (counts[key := Counter(1, now + cfg.window)], true)
    else
      var c := counts[key].(hits := counts[key].hits + 1);
      (counts[key := c], c.hits <= cfg.limit)
  }

  function Allow(cfg: Config, s: State, key: Client, now: int): (State, bool) {
    var clean := Sweep(cfg, s, now);
    var (counts, ok) := Hit(cfg, clean.counts, key, now);
    (State(counts, clean.swept), ok)
  }

  class Limiter {
    var counts: map<Client, Counter>
    const cfg: Config
    var swept: int

    function Contents(): State
      reads this
    {
      State(counts, swept)
    }

    constructor (cfg: Config, now: int)
      ensures this.cfg == cfg && Contents() == State(map[], now)
    {
      this.cfg := cfg;
      counts := map[];
      swept := now;
    }

    /** Drop expired entries, at most once a minute or when the ceiling is reached. */
    method SweepExpired(now: int)
      modifies this
      ensures Contents() == Sweep(cfg, old(Contents()), now)
    {
      if now - swept < MINUTE && |counts| < cfg.maxKeys { return; }
      swept := now;
      var rest := counts.Keys;
      while rest != {}
        invariant rest <= old(counts).Keys
        invariant swept == now
        invariant counts == map k | k in old(counts) && (k in rest || !Expired(old(counts)[k], now)) :: old(counts)[k]
        decreases rest
      {
        var key :| key in rest;
        if now > counts[key].resetAt {
          counts := counts - {key};
        }
        rest := rest - {key};
      }
      assert counts == Kept(old(counts), now);
      if |counts| >= cfg.maxKeys {
        counts := map[];
      }
    }

    /** Record a hit. `later` is the second reading of the clock, for the waiting time. */
    method AllowHit(key: Client, now: int, later: int) returns (ok: bool, wait: int)
      modifies this
      ensures (Contents(), ok) == Allow(cfg, old(Contents()), key, now)
      ensures wait == if ok then 0 else counts[key].resetAt - later
    {
      SweepExpired(now);
      if key !in counts || now > counts[key].resetAt {
        counts := counts[key := Counter(1, now + cfg.window)];
        return true, 0;
      }
      var entry := counts[key];
      entry := entry.(hits := entry.hits + 1);
      counts := counts[key := entry];
      if entry.hits > cfg.limit {
        return false, entry.resetAt - later;
      }
      return true, 0;
    }
  }

  // ----- the ceiling ----------------------------------------------------------

  lemma {:induction false} Fewer<T>(a: set<T>, b: set<T>)
    requires a <= b
    ensures |a| <= |b|
    decreases |a|
  {
    if a != {} {
      var x :| x in a;
      Fewer(a - {x}, b - {x});
    }
  }

  lemma KeptIsSmaller(counts: map<Client, Counter>, now: int)
    ensures |Kept(counts, now)| <= |counts|
  {
    Fewer(Kept(counts, now).Keys, counts.Keys);
  }

  lemma StaysUnderTheCeiling(cfg: Config, s: State, key: Client, now: int)
    requires cfg.maxKeys >= 1 && |s.counts| <= cfg.maxKeys
    ensures |Allow(cfg, s, key, now).0.counts| <= cfg.maxKeys
  {
    KeptIsSmaller(s.counts, now);
    var clean := Sweep(cfg, s, now);
    assert |clean.counts| < cfg.maxKeys;
    Fewer(Hit(cfg, clean.counts, key, now).0.Keys, clean.counts.Keys + {key});
  }

  // ----- runs -----------------------------------------------------------------

  datatype Call = Call(key: Client, now: int)

  predicate ClockOrdered(calls: seq<Call>) {
    forall i, j :: 0 <= i < j < |calls| ==> calls[i].now <= calls[j].now
  }

  function Run(cfg: Config, s: State, calls: seq<Call>): State
    decreases |calls|
  {
    if |calls| == 0 then s
    else
      var last := calls[|calls| - 1];
      Allow(cfg, Run(cfg, s, calls[..|calls| - 1]), last.key, last.now).0
  }

  /** The map never exceeds its ceiling, at any moment of any run, whatever is thrown at it. */
  lemma {:induction false} NeverOverTheCeiling(cfg: Config, start: int, calls: seq<Call>)
    requires cfg.maxKeys >= 1
    ensures |Run(cfg, State(map[], start), calls).counts| <= cfg.maxKeys
    decreases |calls|
  {
    if |calls| > 0 {
      var init, last := calls[..|calls| - 1], calls[|calls| - 1];
      NeverOverTheCeiling(cfg, start, init);
      StaysUnderTheCeiling(cfg, Run(cfg, State(map[], start), init), last.key, last.now);
    }
  }

  // ----- ceiling resets -------------------------------------------------------

  /** The last of these calls found the map full of live entries and cleared it. */
  predicate LastResets(cfg: Config, s: State, calls: seq<Call>) {
    |calls| > 0 && Resets(cfg, Run(cfg, s, calls[..|calls| - 1]), calls[|calls| - 1].now)
  }

  /** The calls since the map was last cleared, from the one that cleared it. */
  function Since(cfg: Config, s: State, calls: seq<Call>): seq<Call>
    decreases |calls|
  {
    if |calls| == 0 then []
    else if LastResets(cfg, s, calls) then [calls[|calls| - 1]]
    else Since(cfg, s, calls[..|calls| - 1]) + [calls[|calls| - 1]]
  }

  /** The calls before that one. */
  function Before(cfg: Config, s: State, calls: seq<Call>): seq<Call>
    decreases |calls|
  {
    if |calls| == 0 then []
    else if LastResets(cfg, s, calls) then calls[..|calls| - 1]
    else Before(cfg, s, calls[..|calls| - 1])
  }

  /** How many times the map was cleared in this stretch of time. */
  function ResetsIn(cfg: Config, s: State, calls: seq<Call>, from: int, to: int): nat
    decreases |calls|
  {
    if |calls| == 0 then 0
    else
      var earlier := ResetsIn(cfg, s, calls[..|calls| - 1], from, to);
      earlier + if LastResets(cfg, s, calls) && from <= calls[|calls| - 1].now <= to then 1 else 0
  }

  lemma {:induction false} Parts(cfg: Config, s: State, calls: seq<Call>)
    ensures calls == Before(cfg, s, calls) + Since(cfg, s, calls)
    ensures |calls| > 0 ==> |Since(cfg, s, calls)| > 0
    decreases |calls|
  {
    if |calls| > 0 {
      var init, last := calls[..|calls| - 1], calls[|calls| - 1];
      Parts(cfg, s, init);
      assert calls == init + [last];
    }
  }

  /** A reset between the two parts is one more than those of the first part. */
  lemma {:induction false} ResetsSplit(cfg: Config, s: State, calls: seq<Call>, from: int, to: int)
    ensures var before, since := Before(cfg, s, calls), Since(cfg, s, calls);
            var between := if |before| > 0 && |since| > 0 && from <= since[0].now <= to then 1 else 0;
            ResetsIn(cfg, s, calls, from, to) >= ResetsIn(cfg, s, before, from, to) + between
    decreases |calls|
  {
    if |calls| > 0 {
      var init := calls[..|calls| - 1];
      ResetsSplit(cfg, s, init, from, to);
      Parts(cfg, s, init);
    }
  }

  lemma OrderedParts(a: seq<Call>, b: seq<Call>)
    requires ClockOrdered(a + b)
    ensures ClockOrdered(a) && ClockOrdered(b)
    ensures forall i, j :: 0 <= i < |a| && 0 <= j < |b| ==> a[i].now <= b[j].now
  {
    forall i, j | 0 <= i < j < |a| ensures a[i].now <= a[j].now {
      assert (a + b)[i] == a[i] && (a + b)[j] == a[j];
    }
    forall i, j | 0 <= i < j < |b| ensures b[i].now <= b[j].now {
      assert (a + b)[|a| + i] == b[i] && (a + b)[|a| + j] == b[j];
    }
    forall i, j | 0 <= i < |a| && 0 <= j < |b| ensures a[i].now <= b[j].now {
      assert (a + b)[i] == a[i] && (a + b)[|a| + j] == b[j];
    }
  }

  lemma PartsInOrder(cfg: Config, s: State, calls: seq<Call>)
    requires ClockOrdered(calls) && |calls| > 0
    ensures var before, since := Before(cfg, s, calls), Since(cfg, s, calls);
            && ClockOrdered(before) && ClockOrdered(since) && |since| > 0 && |before| < |calls|
            && since[|since| - 1] == calls[|calls| - 1]
            && forall i :: 0 <= i < |before| ==> before[i].now <= since[0].now
  {
    Parts(cfg, s, calls);
    OrderedParts(Before(cfg, s, calls), Since(cfg, s, calls));
  }

  // ----- sweeping changes no answer -------------------------------------------

  /** The same limiter with no sweep and no ceiling. */
  function RunUnswept(cfg: Config, calls: seq<Call>): map<Client, Counter>
    decreases |calls|
  {
    if |calls| == 0 then map[]
    else
      var last := calls[|calls| - 1];
      Hit(cfg, RunUnswept(cfg, calls[..|calls| - 1]), last.key, last.now).0
  }

  lemma RunUnsweptNext(cfg: Config, calls: seq<Call>, call: Call)
    ensures RunUnswept(cfg, calls + [call]) == Hit(cfg, RunUnswept(cfg, calls), call.key, call.now).0
  {
    assert (calls + [call])[..|calls|] == calls;
  }

  /** The swept map is the other without some entries that can no longer answer. */
  predicate Agrees(counts: map<Client, Counter>, all: map<Client, Counter>, now: int) {
    && (forall k :: k in counts ==> k in all && counts[k] == all[k])
    && (forall k :: k in all && k !in counts ==> Expired(all[k], now))
  }

  lemma HitAgrees(cfg: Config, counts: map<Client, Counter>, all: map<Client, Counter>, key: Client, now: int)
    requires Agrees(counts, all, now)
    ensures Hit(cfg, counts, key, now).1 == Hit(cfg, all, key, now).1
    ensures Agrees(Hit(cfg, counts, key, now).0, Hit(cfg, all, key, now).0, now)
  {
  }

  lemma AllowAgrees(cfg: Config, s: State, all: map<Client, Counter>, call: Call, now: int)
    requires Agrees(s.counts, all, call.now) && !Resets(cfg, s, call.now) && call.now <= now
    ensures Allow(cfg, s, call.key, call.now).1 == Hit(cfg, all, call.key, call.now).1
    ensures Agrees(Allow(cfg, s, call.key, call.now).0.counts, Hit(cfg, all, call.key, call.now).0, now)
  {
    HitAgrees(cfg, Sweep(cfg, s, call.now).counts, all, call.key, call.now);
  }

  /** A call that clears the map is the first of a new limiter. */
  lemma ResetStartsAgain(cfg: Config, s: State, call: Call, now: int)
    requires Resets(cfg, s, call.now)
    ensures Allow(cfg, s, call.key, call.now).1
    ensures Agrees(Allow(cfg, s, call.key, call.now).0.counts, RunUnswept(cfg, [call]), now)
  {
    RunUnsweptNext(cfg, [], call);
    assert [] + [call] == [call];
  }

  lemma {:induction false} StillAgrees(cfg: Config, start: int, calls: seq<Call>, now: int)
    requires ClockOrdered(calls) && (|calls| > 0 ==> calls[|calls| - 1].now <= now)
    ensures Agrees(Run(cfg, State(map[], start), calls).counts,
                   RunUnswept(cfg, Since(cfg, State(map[], start), calls)), now)
    decreases |calls|
  {
    if |calls| > 0 {
      var s, init, last := State(map[], start), calls[..|calls| - 1], calls[|calls| - 1];
      if LastResets(cfg, s, calls) {
        ResetStartsAgain(cfg, Run(cfg, s, init), last, now);
      } else {
        StillAgrees(cfg, start, init, last.now);
        AllowAgrees(cfg, Run(cfg, s, init), RunUnswept(cfg, Since(cfg, s, init)), last, now);
        RunUnsweptNext(cfg, Since(cfg, s, init), last);
      }
    }
  }

  /** After any run the limiter answers the next call as one that never sweeps and has seen
      the calls since the last ceiling reset; a call that itself meets the ceiling is let in. */
  lemma SweepsChangeNoAnswer(cfg: Config, start: int, calls: seq<Call>, call: Call)
    requires ClockOrdered(calls) && (|calls| > 0 ==> calls[|calls| - 1].now <= call.now)
    ensures var s := Run(cfg, State(map[], start), calls);
            Allow(cfg, s, call.key, call.now).1 <==>
              || Resets(cfg, s, call.now)
              || Hit(cfg, RunUnswept(cfg, Since(cfg, State(map[], start), calls)), call.key, call.now).1
  {
    var s := Run(cfg, State(map[], start), calls);
    if Resets(cfg, s, call.now) {
      ResetStartsAgain(cfg, s, call, call.now);
    } else {
      StillAgrees(cfg, start, calls, call.now);
      AllowAgrees(cfg, s, RunUnswept(cfg, Since(cfg, State(map[], start), calls)), call, call.now);
    }
  }
}
