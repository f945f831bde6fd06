/** A rolling 24-hour usage budget with a circuit breaker. Times are in nanoseconds. */
module Budgets {
  import opened Sequences

  datatype Metric = VendorTokens | VendorCalls | LocalJobs | LocalCPUSecs | Other(name: string)

  /** Daily limits; a limit of zero or less is off. */
  datatype Config = Config(tokens: int, calls: int, jobs: int, cpuSecs: real)

  datatype Entry = Entry(at: int, metric: Metric, amount: int)

  datatype Breach = Breach(metric: Metric, used: int, limit: int)

  datatype Headroom = Headroom(tokens: int, calls: int, jobs: int, cpuSecs: real, resetsAt: Option<int>)

  datatype Totals = Totals(tokens: int, calls: int, jobs: int, cpuSecs: real)

  const DAY: int := 86_400_000_000_000

  // ----- What the budget is meant to track -----

  predicate FreshAt(e: Entry, now: int) {
    e.at >= now - DAY
  }

  function FreshSince(now: int): Entry -> bool {
    (e: Entry) => FreshAt(e, now)
  }

  /** Use of a metric in the 24 hours up to now, over everything ever recorded. */
  function Used(history: seq<Entry>, m: Metric, now: int): int {
    if history == [] then 0
    else
      var e := history[|history| - 1];
      Used(history[..|history| - 1], m, now) + if e.metric == m && FreshAt(e, now) then e.amount else 0
  }

  function LimitOf(cfg: Config, m: Metric): real {
    match m
    case VendorTokens => cfg.tokens as real
    case VendorCalls => cfg.calls as real
    case LocalJobs => cfg.jobs as real
    case LocalCPUSecs => cfg.cpuSecs
    case Other(_) => 0.0
  }

  predicate Exceeds(cfg: Config, m: Metric, used: int) {
    LimitOf(cfg, m) > 0.0 && used as real > LimitOf(cfg, m)
  }

  ghost predicate OverBudget(cfg: Config, history: seq<Entry>, now: int) {
    exists m :: Exceeds(cfg, m, Used(history, m, now))
  }

  /** Conversion of a float to an integer drops the fraction. */
  function Truncate(x: real): int {
    if x >= 0.0 then x.Floor else -(-x).Floor
  }

  function Rank(m: Metric): nat {
    match m
    case VendorTokens => 0
    case VendorCalls => 1
    case LocalJobs => 2
    case LocalCPUSecs => 3
    case Other(_) => 4
  }

  /** The breach to report at a time: none if every limit holds, else the first one exceeded. */
  ghost predicate ReportsBreach(cfg: Config, history: seq<Entry>, now: int, b: Option<Breach>) {
    match b
    case None => forall m :: !Exceeds(cfg, m, Used(history, m, now))
    case Some(Breach(metric, used, limit)) =>
      && Exceeds(cfg, metric, Used(history, metric, now))
      && used == Used(history, metric, now) && limit == Truncate(LimitOf(cfg, metric))
      && forall m :: Rank(m) < Rank(metric) ==> !Exceeds(cfg, m, Used(history, m, now))
  }

  // ----- Eviction from the front, and when that is enough -----

  function Evicted(s: seq<Entry>, now: int): seq<Entry> {
    if s != [] && !FreshAt(s[0], now) then Evicted(s[1..], now) else s
  }

  /** No stale entry sits behind a fresh one. */
  ghost predicate StaleFirst(s: seq<Entry>, now: int) {
    forall i, j :: 0 <= i < j < |s| && FreshAt(s[i], now) ==> FreshAt(s[j], now)
  }

  ghost predicate Chronological(s: seq<Entry>) {
    forall i, j :: 0 <= i < j < |s| ==> s[i].at <= s[j].at
  }

  /** Cutting at the first fresh entry removes exactly the stale ones if and only if those come
      first. A clock that steps back breaks that; an ordered history never does. */
  lemma {:induction false} EvictedIsFilterIff(s: seq<Entry>, now: int)
    ensures Evicted(s, now) == Filter(s, FreshSince(now)) <==> StaleFirst(s, now)
  {
    if s != [] {
      if FreshAt(s[0], now) {
        if StaleFirst(s, now) {
          FilterAll(s, FreshSince(now));
        } else {
          var i, j :| 0 <= i < j < |s| && FreshAt(s[i], now) && !FreshAt(s[j], now);
          FilterMember(s, FreshSince(now), s[j]);
          assert s[j] in s;
        }
      } else {
        EvictedIsFilterIff(s[1..], now);
        StaleFirstTail(s, now);
      }
    }
  }

  lemma StaleFirstTail(s: seq<Entry>, now: int)
    requires s != [] && !FreshAt(s[0], now)
    ensures StaleFirst(s, now) <==> StaleFirst(s[1..], now)
  {
    if StaleFirst(s[1..], now) {
      forall i, j | 0 <= i < j < |s| && FreshAt(s[i], now) ensures FreshAt(s[j], now) {
        assert s[1..][i - 1] == s[i] && s[1..][j - 1] == s[j];
      }
    }
  }

  /** Pruning twice is pruning once, at the later time. */
  lemma {:induction false} FilterLater(s: seq<Entry>, pruned: int, now: int)
    requires pruned <= now
    ensures Filter(Filter(s, FreshSince(pruned)), FreshSince(now)) == Filter(s, FreshSince(now))
  {
    if s != [] { FilterLater(s[1..], pruned, now); }
  }

  lemma FilterChronological(s: seq<Entry>, now: int)
    requires Chronological(s)
    ensures Chronological(Filter(s, FreshSince(now)))
  {
    var f := Filter(s, FreshSince(now));
    forall i, j | 0 <= i < j < |f| ensures f[i].at <= f[j].at { FilterIndexIncreasing(s, FreshSince(now), i, j); }
  }

  function Sum(s: seq<Entry>, m: Metric): int {
    if s == [] then 0
    else Sum(s[..|s| - 1], m) + if s[|s| - 1].metric == m then s[|s| - 1].amount else 0
  }

  /** What was recorded for a metric in the 86,400 seconds up to now, both ends included. */
  function DayUse(history: seq<Entry>, m: Metric, now: int): int {
    Sum(Filter(history, (e: Entry) => e.at + 86_400 * 1_000_000_000 >= now), m)
  }

  lemma UsedIsDayUse(history: seq<Entry>, m: Metric, now: int)
    ensures Used(history, m, now) == DayUse(history, m, now)
  {
    WindowSum(history, m, now);
    SameFilter(history, FreshSince(now), (e: Entry) => e.at + 86_400 * 1_000_000_000 >= now);
  }

  lemma SameFilter(s: seq<Entry>, p: Entry -> bool, q: Entry -> bool)
    requires forall e :: p(e) <==> q(e)
    ensures Filter(s, p) == Filter(s, q)
  {
    if s != [] { SameFilter(s[1..], p, q); }
  }

  /** Summing the pruned window gives the true 24-hour use. */
  lemma {:induction false} WindowSum(history: seq<Entry>, m: Metric, now: int)
    ensures Sum(Filter(history, FreshSince(now)), m) == Used(history, m, now)
  {
    if history != [] {
      var n := |history| - 1;
      var before, last := history[..n], history[n];
      assert history == before + [last];
      WindowSum(before, m, now);
      FilterAppend(before, [last], FreshSince(now));
      var f := Filter(before, FreshSince(now));
      if FreshAt(last, now) {
        assert Filter(history, FreshSince(now)) == f + [last];
        assert (f + [last])[..|f|] == f;
      } else {
        assert Filter(history, FreshSince(now)) == f;
      }
    }
  }

  /** The pruned window stays whole up to and including ResetsAt, and no longer. */
  lemma WholeUntilReset(history: seq<Entry>, now: int, later: int)
    requires Chronological(history) && now <= later
    requires Filter(history, FreshSince(now)) != []
    ensures Filter(history, FreshSince(later)) == Filter(history, FreshSince(now))
      <==> later <= Filter(history, FreshSince(now))[0].at + DAY
  {
    var window := Filter(history, FreshSince(now));
    FilterLater(history, now, later);
    FilterChronological(history, now);
    if later <= window[0].at + DAY {
      FilterAll(window, FreshSince(later));
    } else {
      FilterMember(window, FreshSince(later), window[0]);
    }
  }

  class Budget {
    const cfg: Config
    var window: seq<Entry>
    var tripped: bool
    /** Everything recorded, the latest clock reading, and the reading of the last Record. */
    ghost var history: seq<Entry>
    ghost var latest: int
    ghost var recordedAt: int

    constructor (cfg: Config, ghost start: int)
      ensures Valid() && this.cfg == cfg && history == [] && latest == start && !tripped
    {
      this.cfg, window, tripped := cfg, [], false;
      history, latest, recordedAt := [], start, start;
    }

    /** The window is the history pruned to the last 24 hours; the breaker is open exactly when
        some limit was exceeded at the last Record. */
    ghost predicate Valid()
      reads this
    {
      && Chronological(history) && (forall i :: 0 <= i < |history| ==> history[i].at <= recordedAt)
      && recordedAt <= latest
      && window == Filter(history, FreshSince(latest))
      && (tripped <==> OverBudget(cfg, history, recordedAt))
    }

    method Evict(now: int)
      modifies this`window
      ensures window == Evicted(old(window), now)
    {
      var i := 0;
      while i < |window| && window[i].at < now - DAY
        invariant 0 <= i <= |window|
        invariant window == old(window)
        invariant Evicted(window[i..], now) == Evicted(window, now)
      {
        i := i + 1;
      }
      window := window[i..];
    }

    method WindowTotals() returns (t: Totals)
      ensures t == Totals(Sum(window, VendorTokens), Sum(window, VendorCalls), Sum(window, LocalJobs),
                          Sum(window, LocalCPUSecs) as real)
    {
      t := Totals(0, 0, 0, 0.0);
      for i := 0 to |window|
        invariant t.tokens == Sum(window[..i], VendorTokens) && t.calls == Sum(window[..i], VendorCalls)
        invariant t.jobs == Sum(window[..i], LocalJobs) && t.cpuSecs == Sum(window[..i], LocalCPUSecs) as real
      {
        var e := window[i];
        assert window[..i + 1][..i] == window[..i];
        match e.metric {
          case VendorTokens => { t := t.(tokens := t.tokens + e.amount); }
          case VendorCalls => { t := t.(calls := t.calls + e.amount); }
          case LocalJobs => { t := t.(jobs := t.jobs + e.amount); }
          case LocalCPUSecs => { t := t.(cpuSecs := t.cpuSecs + e.amount as real); }
          case Other(_) => { }
        }
      }
      assert window[..|window|] == window;
    }

    method CheckLimits(t: Totals, ghost now: int) returns (b: Option<Breach>)
      requires t == Totals(Used(history, VendorTokens, now), Used(history, VendorCalls, now),
                           Used(history, LocalJobs, now), Used(history, LocalCPUSecs, now) as real)
      ensures ReportsBreach(cfg, history, now, b)
    {
      if cfg.tokens > 0 && t.tokens > cfg.tokens {
        return Some(Breach(VendorTokens, t.tokens, cfg.tokens));
      }
      if cfg.calls > 0 && t.calls > cfg.calls {
        return Some(Breach(VendorCalls, t.calls, cfg.calls));
      }
      if cfg.jobs > 0 && t.jobs > cfg.jobs {
        return Some(Breach(LocalJobs, t.jobs, cfg.jobs));
      }
      if cfg.cpuSecs > 0.0 && t.cpuSecs > cfg.cpuSecs {
        return Some(Breach(LocalCPUSecs, Truncate(t.cpuSecs), Truncate(cfg.cpuSecs)));
      }
      b := None;
    }

    /** Adds to the window and reports a breach exactly when the true use of the last 24 hours
        exceeds a limit, the breaker following. The clock must not step back. */
    method Record(m: Metric, amount: int, now: int) returns (b: Option<Breach>)
      requires Valid() && latest <= now
      modifies this
      ensures Valid() && history == old(history) + [Entry(now, m, amount)] && latest == now
      ensures ReportsBreach(cfg, history, now, b)
      ensures tripped <==> b.Some?
      ensures forall k :: Used(history, k, now) == DayUse(history, k, now)
    {
      var e := Entry(now, m, amount);
      ghost var h := history;
      history, recordedAt := history + [e], now;
      ChronologicalAppend(h, e);
      PruneAppend(h, window, latest, now, e);
      window := window + [e];
      latest := now;
      Evict(now);
      var t := WindowTotals();
      forall k ensures Sum(window, k) == Used(history, k, now) { WindowSum(history, k, now); }
      b := CheckLimits(t, now);
      tripped := b.Some?;
      forall k ensures Used(history, k, now) == DayUse(history, k, now) { UsedIsDayUse(history, k, now); }
    }

    /** What is left of each limit, and when the oldest entry in the window expires. The breaker
        is not touched: it stays as the last Record left it even if the window has rolled. */
    method RemainingHeadroom(now: int) returns (r: Headroom)
      requires Valid() && latest <= now
      modifies this`window, this`latest
      ensures Valid() && latest == now
      ensures r.tokens == Max(0, cfg.tokens - Used(history, VendorTokens, now))
      ensures r.calls == Max(0, cfg.calls - Used(history, VendorCalls, now))
      ensures r.jobs == Max(0, cfg.jobs - Used(history, LocalJobs, now))
      ensures r.cpuSecs == MaxReal(0.0, cfg.cpuSecs - Used(history, LocalCPUSecs, now) as real)
      ensures r.resetsAt == if window == [] then None else Some(window[0].at + 86_400 * 1_000_000_000)
    {
      Prune(history, window, latest, now);
      latest := now;
      Evict(now);
      var t := WindowTotals();
      forall k ensures Sum(window, k) == Used(history, k, now) { WindowSum(history, k, now); }
      r := Headroom(Max(0, cfg.tokens - t.tokens), Max(0, cfg.calls - t.calls), Max(0, cfg.jobs - t.jobs),
                    MaxReal(0.0, cfg.cpuSecs - t.cpuSecs), if |window| > 0 then Some(window[0].at + DAY) else None);
    }

    method IsTripped() returns (open: bool)
      requires Valid()
      ensures open <==> OverBudget(cfg, history, recordedAt)
    {
      open := tripped;
    }
  }

  function MaxReal(x: real, y: real): real {
    if x < y then y else x
  }

  lemma ChronologicalAppend(h: seq<Entry>, e: Entry)
    requires Chronological(h) && forall i :: 0 <= i < |h| ==> h[i].at <= e.at
    ensures Chronological(h + [e])
  {
  }

  lemma ChronologicalStaleFirst(s: seq<Entry>, now: int)
    requires Chronological(s)
    ensures StaleFirst(s, now)
  {
  }

  /** Eviction brings a window pruned at an earlier time up to date. */
  lemma Prune(h: seq<Entry>, window: seq<Entry>, pruned: int, now: int)
    requires Chronological(h) && pruned <= now && window == Filter(h, FreshSince(pruned))
    ensures Evicted(window, now) == Filter(h, FreshSince(now))
  {
    FilterLater(h, pruned, now);
    FilterChronological(h, pruned);
    ChronologicalStaleFirst(window, now);
    EvictedIsFilterIff(window, now);
  }

  lemma PruneAppend(h: seq<Entry>, window: seq<Entry>, pruned: int, now: int, e: Entry)
    requires Chronological(h + [e]) && pruned <= now == e.at && window == Filter(h, FreshSince(pruned))
    ensures Evicted(window + [e], now) == Filter(h + [e], FreshSince(now))
  {
    FilterAppend(h, [e], FreshSince(pruned));
    assert Filter([e], FreshSince(pruned)) == [e];
    Prune(h + [e], window + [e], pruned, now);
  }
}
