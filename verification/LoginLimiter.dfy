/** packages/api/ratelimit.go: the sliding-window throttle on failed logins, and
    the number of failures it lets through when attempts overlap. Time is an
    integer read from a clock that never goes back. */
module LoginLimiter {
  import opened Slices

  type Times = map<string, seq<int>>

  /** t.After(cutoff). */
  function After(cutoff: int): int -> bool {
    (t: int) => t > cutoff
  }

  function TimesOf(m: Times, key: string): seq<int> {
    if key in m then m[key] else []
  }

  /** The failures after prune: exactly the key's in-window ones, in order. */
  function Pruned(m: Times, key: string, cutoff: int): Times {
    var kept := Filter(After(cutoff), TimesOf(m, key));
    if kept == [] then m - {key} else m[key := kept]
  }

  function Failed(m: Times, key: string, now: int, window: int): Times {
    var m' := Pruned(m, key, now - window);
    m'[key := TimesOf(m', key) + [now]]
  }

  lemma PrunedAbsent(m: Times, key: string, cutoff: int)
    requires key !in m
    ensures Pruned(m, key, cutoff) == m
  {
    assert m - {key} == m;
  }

  lemma PrunedToNone(m: Times, key: string, cutoff: int)
    requires key in m && Filter(After(cutoff), m[key]) == []
    ensures Pruned(m, key, cutoff) == m[key := []] - {key}
  {
    assert m[key := []] - {key} == m - {key};
  }

  lemma UpdatedMap(m: Times, key: string, times: seq<int>, r: Times)
    requires forall k :: k != key ==> (k in r <==> k in m) && (k in m ==> r[k] == m[k])
    requires key in r && r[key] == times
    ensures r == m[key := times]
  {
  }

  lemma AppendedMap(m: Times, key: string, now: int, r: Times)
    requires forall k :: k != key ==> (k in r <==> k in m) && (k in m ==> r[k] == m[k])
    requires key in r && r[key] == TimesOf(m, key) + [now]
    ensures r == m[key := TimesOf(m, key) + [now]]
  {
  }

  /** A Go slice: a backing array and a length. */
  datatype Slice = Slice(arr: array<int>, len: nat)

  method Grown(times: seq<int>, now: int) returns (arr: array<int>)
    ensures fresh(arr) && arr.Length > |times|
    ensures arr[..|times| + 1] == times + [now]
  {
    arr := new int[2 * |times| + 1];
    for i := 0 to |times|
      invariant arr[..i] == times[..i]
    {
      arr[i] := times[i];
    }
    arr[|times|] := now;
  }

  class Limiter {
    var failures: map<string, Slice>
    const max: int
    const window: int

    ghost predicate Valid()
      reads this
    {
      && (forall k :: k in failures ==> failures[k].len <= failures[k].arr.Length)
      && (forall k, l :: k in failures && l in failures && k != l ==> failures[k].arr != failures[l].arr)
    }

    ghost function Arrays(): set<array<int>>
      reads this
    {
      set k | k in failures :: failures[k].arr
    }

    ghost function Recorded(): Times
      requires Valid()
      reads this, Arrays()
    {
      map k | k in failures :: failures[k].arr[..failures[k].len]
    }

    constructor (max: int, window: int)
      ensures Valid() && Recorded() == map[]
      ensures this.max == max && this.window == window
    {
      this.max, this.window := max, window;
      failures := map[];
    }

    /** The compaction of the key's slice in its own backing array. */
    method CompactKey(key: string, cutoff: int) returns (kept: nat)
      requires Valid() && key in failures
      modifies this`failures, failures[key].arr
      ensures Valid() && Arrays() <= old(Arrays()) && key in failures && kept == failures[key].len
      ensures Recorded() == old(Recorded())[key := Filter(After(cutoff), old(Recorded())[key])]
    {
      ghost var was := Recorded();
      var s := failures[key];
      kept := Compact(s.arr, s.len, After(cutoff));
      assert s.arr[..kept] == Filter(After(cutoff), was[key]);
      failures := failures[key := Slice(s.arr, kept)];
      UpdatedMap(was, key, s.arr[..kept], Recorded());
    }

    /** prune. */
    method Prune(key: string, now: int) returns (kept: nat)
      requires Valid()
      modifies this, Arrays()
      ensures Valid() && Arrays() <= old(Arrays())
      ensures Recorded() == Pruned(old(Recorded()), key, now - window)
      ensures kept == |TimesOf(Recorded(), key)|
    {
      ghost var was := Recorded();
      if key !in failures {
        PrunedAbsent(was, key, now - window);
        return 0;
      }
      ghost var times := Filter(After(now - window), was[key]);
      kept := CompactKey(key, now - window);
      assert Recorded()[key] == times && |times| == kept;
      if kept == 0 {
        Forget(key);
        PrunedToNone(was, key, now - window);
        assert Recorded() == was[key := times] - {key};
      } else {
        assert Recorded() == was[key := times];
      }
    }

    method Forget(key: string)
      requires Valid()
      modifies this
      ensures Valid() && Arrays() <= old(Arrays())
      ensures Recorded() == old(Recorded()) - {key}
    {
      failures := failures - {key};
    }

    /** Allow. */
    method Allow(key: string, now: int) returns (ok: bool)
      requires Valid()
      modifies this, Arrays()
      ensures Valid() && fresh(Arrays() - old(Arrays()))
      ensures Recorded() == Pruned(old(Recorded()), key, now - window)
      ensures ok <==> |TimesOf(Recorded(), key)| < max
    {
      var kept := Prune(key, now);
      ok := kept < max;
    }

    /** append into the spare capacity of the key's backing array. */
    method AppendInPlace(key: string, now: int)
      requires Valid() && key in failures && failures[key].len < failures[key].arr.Length
      modifies this, Arrays()
      ensures Valid() && Arrays() <= old(Arrays())
      ensures Recorded() == old(Recorded()[key := TimesOf(Recorded(), key) + [now]])
    {
      ghost var was := Recorded();
      var s := failures[key];
      s.arr[s.len] := now;
      failures := failures[key := Slice(s.arr, s.len + 1)];
      assert s.arr[..s.len + 1] == old(s.arr[..s.len]) + [now];
      assert forall k :: k in failures ==> k in old(failures) && failures[k].arr == old(failures)[k].arr;
      AppendedMap(was, key, now, Recorded());
    }

    /** append when there is no slice yet or no room: into a new array. */
    method AppendGrown(key: string, now: int)
      requires Valid()
      modifies this
      ensures Valid() && fresh(Arrays() - old(Arrays()))
      ensures Recorded() == old(Recorded()[key := TimesOf(Recorded(), key) + [now]])
    {
      ghost var was := Recorded();
      var s := if key in failures then failures[key].arr[..failures[key].len] else [];
      var arr := Grown(s, now);
      failures := failures[key := Slice(arr, |s| + 1)];
      AppendedMap(was, key, now, Recorded());
    }

    /** Fail. */
    method Fail(key: string, now: int)
      requires Valid()
      modifies this, Arrays()
      ensures Valid() && fresh(Arrays() - old(Arrays()))
      ensures Recorded() == Failed(old(Recorded()), key, now, window)
    {
      var _ := Prune(key, now);
      if key in failures && failures[key].len < failures[key].arr.Length {
        AppendInPlace(key, now);
      } else {
        AppendGrown(key, now);
      }
    }

    /** Reset. */
    method Reset(key: string)
      requires Valid()
      modifies this
      ensures Valid() && Arrays() <= old(Arrays())
      ensures Recorded() == old(Recorded()) - {key}
    {
      Forget(key);
    }
  }

  // ------------------------------------------------------------------- runs

  /** One call on the limiter. A login calls Allow and, if that said yes, ends in
      exactly one Fail or Reset. */
  datatype Call =
    | Allow(key: string, now: int)
    | Fail(key: string, now: int)
    | Reset(key: string, now: int)

  /** The limiter together with what an observer knows: the clock, the attempts
      in flight per key, and every failure since the key's last Reset. */
  datatype State = State(times: Times, now: int, inFlight: map<string, nat>, failed: Times)

  datatype Config = Config(max: int, window: int, k: nat)

  const START := State(map[], 0, map[], map[])

  function InFlight(s: State, key: string): nat {
    if key in s.inFlight then s.inFlight[key] else 0
  }

  predicate Allowed(s: State, c: Call, cfg: Config) {
    |TimesOf(Pruned(s.times, c.key, c.now - cfg.window), c.key)| < cfg.max
  }

  /** The calls that can happen: the clock does not go back, only an attempt in
      flight ends, and no key has more than k attempts in flight. */
  predicate Legal(s: State, c: Call, cfg: Config) {
    && c.now >= s.now
    && match c
       case Allow(key, now) => Allowed(s, c, cfg) ==> InFlight(s, key) < cfg.k
       case _ => InFlight(s, c.key) > 0
  }

  function Step(s: State, c: Call, cfg: Config): State {
    match c
    case Allow(key, now) =>
      s.(times := Pruned(s.times, key, now - cfg.window),
         now := now,
         inFlight := if Allowed(s, c, cfg) then s.inFlight[key := InFlight(s, key) + 1] else s.inFlight)
    case Fail(key, now) =>
      State(Failed(s.times, key, now, cfg.window), now,
            s.inFlight[key := if InFlight(s, key) > 0 then InFlight(s, key) - 1 else 0],
            s.failed[key := TimesOf(s.failed, key) + [now]])
    case Reset(key, now) =>
      State(s.times - {key}, now,
            s.inFlight[key := if InFlight(s, key) > 0 then InFlight(s, key) - 1 else 0],
            s.failed - {key})
  }

  function Run(calls: seq<Call>, cfg: Config): State {
    if calls == [] then START else Step(Run(calls[..|calls| - 1], cfg), calls[|calls| - 1], cfg)
  }

  predicate LegalRun(calls: seq<Call>, cfg: Config) {
    calls == [] ||
    (LegalRun(calls[..|calls| - 1], cfg) && Legal(Run(calls[..|calls| - 1], cfg), calls[|calls| - 1], cfg))
  }

  /** The instants from on, for one window. */
  function Within(from: int, window: int): int -> bool {
    (t: int) => from <= t < from + window
  }

  /** How many of the key's failures since its last Reset lie in the window that
      starts at from. */
  function Count(s: State, key: string, from: int, window: int): nat {
    |Filter(Within(from, window), TimesOf(s.failed, key))|
  }

  function Bound(cfg: Config): int {
    if cfg.max <= 0 then 0 else cfg.max + cfg.k - 1
  }

  /** The limiter has not forgotten anything newer than the current window. */
  ghost predicate Remembers(s: State, key: string, window: int) {
    forall c :: c >= s.now - window ==>
                  Filter(After(c), TimesOf(s.times, key)) == Filter(After(c), TimesOf(s.failed, key))
  }

  ghost predicate Invariant(s: State, key: string, cfg: Config) {
    && Remembers(s, key, cfg.window)
    && (forall t :: t in TimesOf(s.failed, key) ==> t <= s.now)
    && InFlight(s, key) <= cfg.k
    && (cfg.max <= 0 ==> InFlight(s, key) == 0 && TimesOf(s.failed, key) == [])
    && (forall from :: Count(s, key, from, cfg.window) <= Bound(cfg))
    && (forall from :: s.now < from + cfg.window && Count(s, key, from, cfg.window) >= cfg.max ==>
                         Count(s, key, from, cfg.window) + InFlight(s, key) <= Bound(cfg))
  }

  lemma {:induction false} FilterFewer<T>(p: T -> bool, q: T -> bool, xs: seq<T>)
    requires forall x :: x in xs && p(x) ==> q(x)
    ensures |Filter(p, xs)| <= |Filter(q, xs)|
  {
    if xs == [] {
    } else {
      FilterFewer(p, q, xs[..|xs| - 1]);
    }
  }

  /** Filtering by an earlier cutoff first loses nothing a later one keeps. */
  lemma {:induction false} FilterAfterAfter(c: int, d: int, xs: seq<int>)
    requires c >= d
    ensures Filter(After(c), Filter(After(d), xs)) == Filter(After(c), xs)
  {
    if xs == [] {
    } else {
      var init, last := xs[..|xs| - 1], xs[|xs| - 1];
      FilterAfterAfter(c, d, init);
      if last > d {
        FilterSnoc(After(c), Filter(After(d), init), last);
      } else {
        assert Filter(After(d), xs) == Filter(After(d), init);
        assert Filter(After(c), xs) == Filter(After(c), init);
      }
    }
  }

  lemma PrunedTimes(m: Times, key: string, cutoff: int)
    ensures TimesOf(Pruned(m, key, cutoff), key) == Filter(After(cutoff), TimesOf(m, key))
    ensures forall other :: other != key ==> TimesOf(Pruned(m, key, cutoff), other) == TimesOf(m, other)
  {
  }

  lemma FailedTimes(m: Times, key: string, now: int, window: int)
    ensures TimesOf(Failed(m, key, now, window), key) == Filter(After(now - window), TimesOf(m, key)) + [now]
  {
  }

  /** prune keeps what the observer still counts. */
  lemma PruneRemembers(s: State, key: string, now: int, window: int)
    requires Remembers(s, key, window) && now >= s.now
    ensures forall c :: c >= now - window ==>
              Filter(After(c), TimesOf(Pruned(s.times, key, now - window), key))
                  == Filter(After(c), TimesOf(s.failed, key))
  {
    PrunedTimes(s.times, key, now - window);
    forall c | c >= now - window
      ensures Filter(After(c), TimesOf(Pruned(s.times, key, now - window), key))
              == Filter(After(c), TimesOf(s.failed, key))
    {
      FilterAfterAfter(c, now - window, TimesOf(s.times, key));
    }
  }

  /** While the window from `from` is still open, its failures are among the ones
      Allow counts. */
  lemma CountedByAllow(s: State, key: string, from: int, now: int, window: int)
    requires Remembers(s, key, window) && s.now <= now < from + window
    ensures Count(s, key, from, window) <= |TimesOf(Pruned(s.times, key, now - window), key)|
  {
    var cutoff := now - window;
    PrunedTimes(s.times, key, cutoff);
    assert Filter(After(cutoff), TimesOf(s.times, key)) == Filter(After(cutoff), TimesOf(s.failed, key));
    FilterFewer(Within(from, window), After(cutoff), TimesOf(s.failed, key));
  }

  lemma AllowRoom(s: State, key: string, now: int, from: int, cfg: Config)
    requires Remembers(s, key, cfg.window) && s.now <= now < from + cfg.window && Allowed(s, Allow(key, now), cfg)
    ensures Count(s, key, from, cfg.window) < cfg.max
  {
    CountedByAllow(s, key, from, now, cfg.window);
  }

  lemma AllowKeeps(s: State, c: Call, key: string, cfg: Config)
    requires c.Allow? && c.key == key && Legal(s, c, cfg) && Invariant(s, key, cfg)
    ensures Invariant(Step(s, c, cfg), key, cfg)
  {
    var s' := Step(s, c, cfg);
    PruneRemembers(s, key, c.now, cfg.window);
    assert forall from :: Count(s', key, from, cfg.window) == Count(s, key, from, cfg.window);
    if Allowed(s, c, cfg) {
      forall from | c.now < from + cfg.window ensures Count(s, key, from, cfg.window) < cfg.max {
        AllowRoom(s, key, c.now, from, cfg);
      }
    }
  }

  lemma FailRemembers(s: State, c: Call, key: string, cfg: Config)
    requires c.Fail? && c.key == key && c.now >= s.now && Remembers(s, key, cfg.window)
    ensures Remembers(Step(s, c, cfg), key, cfg.window)
  {
    var s' := Step(s, c, cfg);
    var pruned := Pruned(s.times, key, c.now - cfg.window);
    PruneRemembers(s, key, c.now, cfg.window);
    forall d | d >= c.now - cfg.window
      ensures Filter(After(d), TimesOf(s'.times, key)) == Filter(After(d), TimesOf(s'.failed, key))
    {
      FilterSnoc(After(d), TimesOf(pruned, key), c.now);
      FilterSnoc(After(d), TimesOf(s.failed, key), c.now);
    }
  }

  lemma FailCounts(s: State, c: Call, key: string, from: int, cfg: Config)
    requires c.Fail? && c.key == key && forall t :: t in TimesOf(s.failed, key) ==> t <= c.now
    ensures Count(Step(s, c, cfg), key, from, cfg.window)
         == Count(s, key, from, cfg.window) + if from <= c.now < from + cfg.window then 1 else 0
    ensures c.now < from ==> Count(s, key, from, cfg.window) == 0
  {
    FilterSnoc(Within(from, cfg.window), TimesOf(s.failed, key), c.now);
    if c.now < from {
      FilterNone(Within(from, cfg.window), TimesOf(s.failed, key));
    }
  }

  lemma FailKeeps(s: State, c: Call, key: string, cfg: Config)
    requires c.Fail? && c.key == key && Legal(s, c, cfg) && Invariant(s, key, cfg)
    ensures Invariant(Step(s, c, cfg), key, cfg)
  {
    var s' := Step(s, c, cfg);
    FailRemembers(s, c, key, cfg);
    forall from
      ensures Count(s', key, from, cfg.window)
              == Count(s, key, from, cfg.window) + if from <= c.now < from + cfg.window then 1 else 0
      ensures c.now < from ==> Count(s, key, from, cfg.window) == 0
    {
      FailCounts(s, c, key, from, cfg);
    }
  }

  lemma ElsewhereKeeps(s: State, c: Call, key: string, cfg: Config)
    requires c.key != key && Legal(s, c, cfg) && Invariant(s, key, cfg)
    ensures Invariant(Step(s, c, cfg), key, cfg)
  {
    var s' := Step(s, c, cfg);
    PrunedTimes(s.times, c.key, c.now - cfg.window);
    assert TimesOf(s'.times, key) == TimesOf(s.times, key);
    assert TimesOf(s'.failed, key) == TimesOf(s.failed, key);
    assert forall from :: Count(s', key, from, cfg.window) == Count(s, key, from, cfg.window);
  }

  lemma StepKeeps(s: State, c: Call, key: string, cfg: Config)
    requires Legal(s, c, cfg) && Invariant(s, key, cfg)
    ensures Invariant(Step(s, c, cfg), key, cfg)
  {
    if c.key != key {
      ElsewhereKeeps(s, c, key, cfg);
    } else {
      match c
      case Allow(_, _) => AllowKeeps(s, c, key, cfg);
      case Fail(_, _) => FailKeeps(s, c, key, cfg);
      case Reset(_, _) =>
        assert TimesOf(Step(s, c, cfg).failed, key) == [];
    }
  }

  lemma {:induction false} RunInvariant(calls: seq<Call>, key: string, cfg: Config)
    requires LegalRun(calls, cfg)
    ensures Invariant(Run(calls, cfg), key, cfg)
  {
    if calls == [] {
    } else {
      RunInvariant(calls[..|calls| - 1], key, cfg);
      StepKeeps(Run(calls[..|calls| - 1], cfg), calls[|calls| - 1], key, cfg);
    }
  }

  /** In every run with at most k attempts per key in flight, no window of the
      configured length holds more than max + k - 1 failures of one key since
      its last Reset; max when attempts are sequential. */
  lemma WindowBound(calls: seq<Call>, key: string, from: int, cfg: Config)
    requires LegalRun(calls, cfg)
    ensures Count(Run(calls, cfg), key, from, cfg.window) <= Bound(cfg)
    ensures cfg.k == 1 && cfg.max > 0 ==> Count(Run(calls, cfg), key, from, cfg.window) <= cfg.max
  {
    RunInvariant(calls, key, cfg);
  }

  // -------------------------------------------------------------- who is let in

  lemma {:induction false} FilterSame<T>(p: T -> bool, q: T -> bool, xs: seq<T>)
    requires forall x :: x in xs ==> p(x) == q(x)
    ensures Filter(p, xs) == Filter(q, xs)
  {
    if xs == [] {
    } else {
      FilterSame(p, q, xs[..|xs| - 1]);
    }
  }

  /** Over every run, an attempt is let in exactly when the window that ends with it
      holds fewer than max failures of its key since the key's last Reset. */
  lemma LetInExactly(calls: seq<Call>, key: string, now: int, cfg: Config)
    requires LegalRun(calls, cfg) && now >= Run(calls, cfg).now
    ensures Allowed(Run(calls, cfg), Allow(key, now), cfg)
       <==> Count(Run(calls, cfg), key, now - cfg.window + 1, cfg.window) < cfg.max
  {
    RunRemembers(calls, key, cfg);
    AllowCounts(Run(calls, cfg), key, now, cfg);
  }

  lemma RunRemembers(calls: seq<Call>, key: string, cfg: Config)
    requires LegalRun(calls, cfg)
    ensures Remembers(Run(calls, cfg), key, cfg.window)
    ensures forall t :: t in TimesOf(Run(calls, cfg).failed, key) ==> t <= Run(calls, cfg).now
  {
    RunInvariant(calls, key, cfg);
  }

  lemma AllowCounts(s: State, key: string, now: int, cfg: Config)
    requires Remembers(s, key, cfg.window) && now >= s.now && forall t :: t in TimesOf(s.failed, key) ==> t <= s.now
    ensures Allowed(s, Allow(key, now), cfg) <==> Count(s, key, now - cfg.window + 1, cfg.window) < cfg.max
  {
    PrunedIsCounted(s, key, now, cfg.window);
  }

  lemma PrunedIsCounted(s: State, key: string, now: int, window: int)
    requires Remembers(s, key, window) && now >= s.now && forall t :: t in TimesOf(s.failed, key) ==> t <= s.now
    ensures |TimesOf(Pruned(s.times, key, now - window), key)| == Count(s, key, now - window + 1, window)
  {
    PrunedTimes(s.times, key, now - window);
    FilterSame(After(now - window), Within(now - window + 1, window), TimesOf(s.failed, key));
  }

  /** The limiter forgets: a key that has not failed for a whole window is let in,
      however often it failed before. */
  lemma ForgivenAfterWindow(calls: seq<Call>, key: string, now: int, cfg: Config)
    requires LegalRun(calls, cfg) && now >= Run(calls, cfg).now && cfg.max > 0
    requires forall t :: t in TimesOf(Run(calls, cfg).failed, key) ==> t + cfg.window <= now
    ensures Allowed(Run(calls, cfg), Allow(key, now), cfg)
  {
    LetInExactly(calls, key, now, cfg);
    FilterNone(Within(now - cfg.window + 1, cfg.window), TimesOf(Run(calls, cfg).failed, key));
  }

  /** The times of a key's Fail calls behind its last Reset. */
  function SinceReset(calls: seq<Call>, key: string): seq<int> {
    if calls == [] then []
    else
      var before := SinceReset(calls[..|calls| - 1], key);
      match calls[|calls| - 1]
      case Fail(k, now) => if k == key then before + [now] else before
      case Reset(k, _) => if k == key then [] else before
      case Allow(_, _) => before
  }

  /** Those are the failures the observer counts. */
  lemma {:induction false} CountsCalls(calls: seq<Call>, key: string, cfg: Config)
    ensures TimesOf(Run(calls, cfg).failed, key) == SinceReset(calls, key)
  {
    if calls == [] {
    } else {
      CountsCalls(calls[..|calls| - 1], key, cfg);
    }
  }

  // The bound is reached: max - 1 failures in a row, then k attempts let in
  // together, all failing.

  /** n failures at instant 0 on record and j attempts in flight. */
  ghost predicate Shape(s: State, key: string, n: nat, j: nat) {
    && s.now == 0
    && InFlight(s, key) == j
    && TimesOf(s.times, key) == TimesOf(s.failed, key)
    && |TimesOf(s.failed, key)| == n
    && forall t :: t in TimesOf(s.failed, key) ==> t == 0
  }

  lemma ShapeAllowed(s: State, key: string, n: nat, j: nat, cfg: Config)
    requires Shape(s, key, n, j) && cfg.window > 0 && n < cfg.max
    ensures TimesOf(Pruned(s.times, key, -cfg.window), key) == TimesOf(s.failed, key)
    ensures Allowed(s, Allow(key, 0), cfg)
  {
    PrunedTimes(s.times, key, -cfg.window);
    FilterAll(After(-cfg.window), TimesOf(s.failed, key));
  }

  lemma ShapeAllow(s: State, key: string, n: nat, j: nat, cfg: Config)
    requires Shape(s, key, n, j) && cfg.window > 0 && n < cfg.max && j < cfg.k
    ensures Legal(s, Allow(key, 0), cfg) && Shape(Step(s, Allow(key, 0), cfg), key, n, j + 1)
  {
    ShapeAllowed(s, key, n, j, cfg);
    AllowStep(s, key, cfg);
    ShapeIs(Step(s, Allow(key, 0), cfg), key, TimesOf(s.failed, key), j + 1);
  }

  lemma AllowStep(s: State, key: string, cfg: Config)
    requires Allowed(s, Allow(key, 0), cfg)
    ensures var r := Step(s, Allow(key, 0), cfg);
            && r.now == 0 && r.times == Pruned(s.times, key, -cfg.window) && r.failed == s.failed
            && InFlight(r, key) == InFlight(s, key) + 1
  {
  }

  lemma ShapeFail(s: State, key: string, n: nat, j: nat, cfg: Config)
    requires Shape(s, key, n, j) && cfg.window > 0 && j > 0
    ensures Legal(s, Fail(key, 0), cfg) && Shape(Step(s, Fail(key, 0), cfg), key, n + 1, j - 1)
  {
    var was := TimesOf(s.failed, key);
    FailedTimes(s.times, key, 0, cfg.window);
    FilterAll(After(-cfg.window), was);
    ShapeIs(Step(s, Fail(key, 0), cfg), key, was + [0], j - 1);
  }

  lemma ShapeIs(s: State, key: string, times: seq<int>, j: nat)
    requires s.now == 0 && InFlight(s, key) == j && TimesOf(s.times, key) == TimesOf(s.failed, key) == times
    requires forall t :: t in times ==> t == 0
    ensures Shape(s, key, |times|, j)
  {
  }

  lemma Extend(calls: seq<Call>, c: Call, cfg: Config)
    requires LegalRun(calls, cfg) && Legal(Run(calls, cfg), c, cfg)
    ensures LegalRun(calls + [c], cfg)
    ensures Run(calls + [c], cfg) == Step(Run(calls, cfg), c, cfg)
  {
    assert (calls + [c])[..|calls|] == calls;
  }

  lemma {:induction false} Failing(key: string, n: nat, cfg: Config) returns (calls: seq<Call>)
    requires cfg.window > 0 && cfg.k > 0 && n < cfg.max
    ensures LegalRun(calls, cfg) && Shape(Run(calls, cfg), key, n, 0)
  {
    if n == 0 {
      calls := [];
    } else {
      calls := Failing(key, n - 1, cfg);
      ShapeAllow(Run(calls, cfg), key, n - 1, 0, cfg);
      Extend(calls, Allow(key, 0), cfg);
      calls := calls + [Allow(key, 0)];
      ShapeFail(Run(calls, cfg), key, n - 1, 1, cfg);
      Extend(calls, Fail(key, 0), cfg);
      calls := calls + [Fail(key, 0)];
    }
  }

  lemma {:induction false} LetIn(key: string, j: nat, cfg: Config) returns (calls: seq<Call>)
    requires cfg.window > 0 && 0 < cfg.max && j <= cfg.k && cfg.k > 0
    ensures LegalRun(calls, cfg) && Shape(Run(calls, cfg), key, cfg.max - 1, j)
  {
    if j == 0 {
      calls := Failing(key, cfg.max - 1, cfg);
    } else {
      calls := LetIn(key, j - 1, cfg);
      ShapeAllow(Run(calls, cfg), key, cfg.max - 1, j - 1, cfg);
      Extend(calls, Allow(key, 0), cfg);
      calls := calls + [Allow(key, 0)];
    }
  }

  lemma {:induction false} AllFail(key: string, i: nat, cfg: Config) returns (calls: seq<Call>)
    requires cfg.window > 0 && 0 < cfg.max && i <= cfg.k && cfg.k > 0
    ensures LegalRun(calls, cfg) && Shape(Run(calls, cfg), key, cfg.max - 1 + i, cfg.k - i)
  {
    if i == 0 {
      calls := LetIn(key, cfg.k, cfg);
    } else {
      calls := AllFail(key, i - 1, cfg);
      ShapeFail(Run(calls, cfg), key, cfg.max - 1 + (i - 1), cfg.k - (i - 1), cfg);
      Extend(calls, Fail(key, 0), cfg);
      calls := calls + [Fail(key, 0)];
    }
  }

  /** No smaller bound holds. */
  lemma BoundReached(key: string, cfg: Config)
    requires cfg.window > 0 && cfg.max > 0 && cfg.k > 0
    ensures exists calls :: LegalRun(calls, cfg) && Count(Run(calls, cfg), key, 0, cfg.window) == cfg.max + cfg.k - 1
  {
    var calls := AllFail(key, cfg.k, cfg);
    FilterAll(Within(0, cfg.window), TimesOf(Run(calls, cfg).failed, key));
    assert LegalRun(calls, cfg);
  }
}
