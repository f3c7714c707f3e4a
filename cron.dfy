/**
 * The scheduler (Cron.php): the registered jobs keyed by their id, the run
 * order (every job with its next run time, ascending), one dispatch pass of
 * run(), and run() itself for a given number of passes.
 *
 * Time stamps are Calendar.Seconds of an instant.  The clock (PHP's time())
 * is a function from the number of earlier readings to an instant; every
 * call of time() in the source takes the next reading.
 */
module Scheduler {
  import opened Wrappers
  import opened Calendar
  import opened Fields
  import Generic
  import Super

  // ---------------------------------------------------------------------------
  // Jobs (the CronJob interface).

  /** A registered job: either implementation of CronJob. */
  datatype Job = GenericJob(genericJob: Generic.GenericCronJob) | SuperJob(superJob: Super.SuperCronJob)

  predicate JobValid(j: Job) {
    match j
    case GenericJob(g) => g.Valid()
    case SuperJob(s) => s.Valid()
  }

  function JobObject(j: Job): object {
    match j
    case GenericJob(g) => g
    case SuperJob(s) => s
  }

  /** The id the job has cached, if any. */
  function CachedId(j: Job): Option<string>
    reads JobObject(j)
  {
    match j
    case GenericJob(g) => g.id
    case SuperJob(s) => s.id
  }

  /** __toString of the job. */
  function JobText(j: Job): string {
    match j
    case GenericJob(g) => g.ToString()
    case SuperJob(s) => s.ToString()
  }

  /** What getId returns: the cached id while it is truthy, md5 of __toString otherwise. */
  function IdOf(cached: Option<string>, text: string, md5: string -> string): string {
    if cached.Some? && Truthy(cached.value) then cached.value else md5(text)
  }

  /** What a job's getNextRunTime depends on: its parsed schedule, to the minute or to the second. */
  datatype Timing = MinuteTiming(schedule: Generic.Schedule) | SecondTiming(superSchedule: Super.SuperSchedule)

  function TimingOf(j: Job): Timing {
    match j
    case GenericJob(g) => MinuteTiming(g.Intervals())
    case SuperJob(s) => SecondTiming(s.Intervals())
  }

  predicate WellFormedTiming(tm: Timing) {
    match tm
    case MinuteTiming(s) => Generic.WellFormedSchedule(s)
    case SecondTiming(ss) => Super.WellFormedSuper(ss)
  }

  function TimingDayOfWeek(tm: Timing): Field {
    match tm
    case MinuteTiming(s) => s.dayOfWeek
    case SecondTiming(ss) => ss.fields.dayOfWeek
  }

  /** A valid calendar instant; time() and getNextRunTime only give these. */
  type Instant = t: DateTime | t.Valid() witness DateTime(1970, 1, 1, 0, 0, 0)

  /** The time stamp of an instant: what mktime() returns for it. */
  function Stamp(t: Instant): int {
    Seconds(t)
  }

  /**
   * The time stamp getNextRunTime($time) returns for a job with this timing;
   * None when the search would restart more than Generic.MaxRestarts times.
   */
  function NextRunStamp(tm: Timing, t: DateTime): (r: Option<int>)
    requires WellFormedTiming(tm) && t.Valid()
    ensures TimingDayOfWeek(tm).Wildcard? ==> r.Some?
  {
    var next := match tm
      case MinuteTiming(s) => Generic.NextRunTime(s, t, Generic.MaxRestarts)
      case SecondTiming(ss) => Super.NextRunTime(ss, t, Generic.MaxRestarts);
    if next.Some? then Some(Stamp(next.value)) else None
  }

  method GetId(j: Job, md5: string -> string) returns (id: string)
    modifies JobObject(j)
    ensures id == IdOf(old(CachedId(j)), JobText(j), md5)
    ensures CachedId(j) == Some(id)
  {
    match j
    case GenericJob(g) =>
      id := g.GetId(md5);
    case SuperJob(s) =>
      id := s.GetId(md5);
  }

  method JobNextRunTime(j: Job, t: DateTime) returns (r: Option<int>)
    requires JobValid(j) && t.Valid()
    ensures r == NextRunStamp(TimingOf(j), t)
  {
    var next: Option<DateTime>;
    match j {
      case GenericJob(g) =>
        next := g.GetNextRunTime(t);
      case SuperJob(s) =>
        next := s.GetNextRunTime(t);
    }
    r := if next.Some? then Some(Stamp(next.value)) else None;
  }

  // ---------------------------------------------------------------------------
  // The run order and asort.

  /** One element of the run order: a job id and its next run time. */
  datatype Entry = Entry(id: string, time: int)

  function IdsOf(order: seq<Entry>): (r: seq<string>)
    ensures |r| == |order|
    ensures forall k :: 0 <= k < |r| ==> r[k] == order[k].id
  {
    seq(|order|, k requires 0 <= k < |order| => order[k].id)
  }

  lemma IdsOfCons(e: Entry, order: seq<Entry>)
    ensures IdsOf([e] + order) == [e.id] + IdsOf(order)
  {
  }

  predicate Sorted(order: seq<Entry>) {
    forall i, j :: 0 <= i < j < |order| ==> order[i].time <= order[j].time
  }

  predicate Distinct(s: seq<string>) {
    forall i, j :: 0 <= i < j < |s| ==> s[i] != s[j]
  }

  /** Puts e in front of the first entry that is not earlier than e. */
  function Insert(e: Entry, order: seq<Entry>): (r: seq<Entry>)
    ensures multiset(r) == multiset(order) + multiset{e}
  {
    if order == [] || e.time <= order[0].time then [e] + order
    else
      assert order == [order[0]] + order[1..];
      [order[0]] + Insert(e, order[1..])
  }

  /** Inserting into a sorted order keeps it sorted. */
  lemma {:induction false} InsertSorted(e: Entry, order: seq<Entry>)
    requires Sorted(order)
    ensures Sorted(Insert(e, order))
  {
    if order != [] && e.time > order[0].time {
      var rest := Insert(e, order[1..]);
      InsertSorted(e, order[1..]);
      var r := [order[0]] + rest;
      forall i, j | 0 <= i < j < |r| ensures r[i].time <= r[j].time {
        if i == 0 {
          assert r[j] in multiset(order[1..]) + multiset{e} by {
            assert r[j] == rest[j - 1];
          }
        } else {
          assert r[i] == rest[i - 1] && r[j] == rest[j - 1];
        }
      }
    }
  }

  /** The ids of an order, as a bag (IdBagIds: the multiset of IdsOf). */
  function IdBag(order: seq<Entry>): multiset<string> {
    if order == [] then multiset{} else multiset{order[0].id} + IdBag(order[1..])
  }

  lemma {:induction false} IdBagIds(order: seq<Entry>)
    ensures IdBag(order) == multiset(IdsOf(order))
  {
    if order != [] {
      IdBagIds(order[1..]);
      assert order == [order[0]] + order[1..];
      IdsOfCons(order[0], order[1..]);
    }
  }

  /** Inserting an entry adds its id to the ids. */
  lemma {:induction false} InsertIds(e: Entry, order: seq<Entry>)
    ensures IdBag(Insert(e, order)) == IdBag(order) + multiset{e.id}
  {
    if order == [] || e.time <= order[0].time {
      assert ([e] + order)[1..] == order;
    } else {
      var rest := Insert(e, order[1..]);
      InsertIds(e, order[1..]);
      assert ([order[0]] + rest)[1..] == rest;
    }
  }

  /** asort($runOrder): the same entries, by ascending time (ties in no promised order). */
  function SortByTime(order: seq<Entry>): (r: seq<Entry>)
    ensures multiset(r) == multiset(order)
  {
    if order == [] then []
    else
      assert order == [order[0]] + order[1..];
      Insert(order[0], SortByTime(order[1..]))
  }

  /** asort leaves the order ascending. */
  lemma {:induction false} SortByTimeSorted(order: seq<Entry>)
    ensures Sorted(SortByTime(order))
  {
    if order != [] {
      SortByTimeSorted(order[1..]);
      InsertSorted(order[0], SortByTime(order[1..]));
    }
  }

  /** asort keeps the ids. */
  lemma {:induction false} SortByTimeIds(order: seq<Entry>)
    ensures IdBag(SortByTime(order)) == IdBag(order)
  {
    if order != [] {
      SortByTimeIds(order[1..]);
      InsertIds(order[0], SortByTime(order[1..]));
    }
  }

  // ---------------------------------------------------------------------------
  // One pass.

  /** The number of leading entries that are due at time t (the walk stops at the first later one). */
  function DueCount(order: seq<Entry>, t: int): (n: nat)
    ensures n <= |order|
    ensures forall k :: 0 <= k < n ==> order[k].time <= t
    ensures n < |order| ==> order[n].time > t
  {
    if order == [] || order[0].time > t then 0 else 1 + DueCount(order[1..], t)
  }

  /** In a sorted order the due entries are exactly those not later than t. */
  lemma DueExactly(order: seq<Entry>, t: int)
    requires Sorted(order)
    ensures forall k :: 0 <= k < |order| ==> (k < DueCount(order, t) <==> order[k].time <= t)
  {
    var n := DueCount(order, t);
    forall k | 0 <= k < |order| ensures k < n <==> order[k].time <= t {
      if n < k {
        assert order[n].time <= order[k].time;
      }
    }
  }

  /** The order after the first |next| entries got their recomputed run times, in place. */
  function Reschedule(order: seq<Entry>, next: seq<int>): (r: seq<Entry>)
    requires |next| <= |order|
    ensures |r| == |order|
    ensures forall k :: 0 <= k < |order| ==> r[k] == if k < |next| then Entry(order[k].id, next[k]) else order[k]
  {
    seq(|order|, k requires 0 <= k < |order| => if k < |next| then Entry(order[k].id, next[k]) else order[k])
  }

  /** Recomputing run times keeps every entry's id where it was. */
  lemma RescheduleIds(order: seq<Entry>, next: seq<int>)
    requires |next| <= |order|
    ensures IdsOf(Reschedule(order, next)) == IdsOf(order)
  {
  }

  /** Every entry names a registered job. */
  predicate Registered(jobs: map<string, Job>, order: seq<Entry>) {
    forall k :: 0 <= k < |order| ==> order[k].id in jobs
  }

  /** An order with the same ids as a list of registered ids is registered. */
  lemma RegisteredSameIds(jobs: map<string, Job>, ids: seq<string>, order: seq<Entry>)
    requires forall k :: 0 <= k < |ids| ==> ids[k] in jobs
    requires IdBag(order) == multiset(ids)
    ensures Registered(jobs, order)
  {
    IdBagIds(order);
    forall k | 0 <= k < |order| ensures order[k].id in jobs {
      assert IdsOf(order)[k] in multiset(ids);
    }
  }

  /** Every registered job is well formed. */
  predicate JobsValid(jobs: map<string, Job>) {
    forall id :: id in jobs ==> JobValid(jobs[id])
  }


  /**
   * The run time recomputed, by runTime, for the job of the k-th entry: the
   * k-th job run in a pass takes clock reading first + k.
   */
  function RunTimeAt(jobs: map<string, Job>, runTime: (Timing, DateTime) -> Option<int>, order: seq<Entry>,
                     clock: nat -> Instant, first: nat, k: nat): Option<int>
    requires Registered(jobs, order) && k < |order|
  {
    runTime(TimingOf(jobs[order[k].id]), clock(first + k))
  }

  /**
   * A pass from clock reading r over the order cannot finish: the run time
   * search of some job it runs, from that job's clock reading, restarts
   * beyond the bound.
   */
  predicate PassFails(jobs: map<string, Job>, runTime: (Timing, DateTime) -> Option<int>, clock: nat -> Instant,
                      order: seq<Entry>, r: nat)
  {
    && Registered(jobs, order)
    && var first := r + 1;
       exists k :: 0 <= k < DueCount(order, Stamp(clock(r))) && RunTimeAt(jobs, runTime, order, clock, first, k).None?
  }

  /**
   * What getRunOrder(now) returns for these jobs: every id once, each with its
   * next run time from now, ascending.
   */
  predicate RunOrderAt(jobs: map<string, Job>, ids: seq<string>, runTime: (Timing, DateTime) -> Option<int>,
                       now: DateTime, order: seq<Entry>)
  {
    && Sorted(order) && multiset(IdsOf(order)) == multiset(ids)
    && forall e :: e in order ==> e.id in jobs && runTime(TimingOf(jobs[e.id]), now) == Some(e.time)
  }

  /**
   * What one pass did: the order it walked, its time, the ids it executed in
   * that order, their recomputed run times, the seconds it slept and the order
   * it leaves for the next pass.
   */
  datatype Pass = Pass(start: seq<Entry>, time: int, executed: seq<string>, next: seq<int>, sleep: int,
                       order: seq<Entry>)

  /**
   * A pass over a sorted order ran every due job and nothing else, gave each
   * of them one recomputed run time, and left the same jobs in order.
   */
  predicate Dispatched(p: Pass) {
    && |p.start| > 0 && Sorted(p.start) && Sorted(p.order)
    && IdBag(p.order) == IdBag(p.start)
    && |p.executed| <= |p.start|
    && p.executed == IdsOf(p.start[..|p.executed|])
    && (forall k :: 0 <= k < |p.start| ==> (k < |p.executed| <==> p.start[k].time <= p.time))
    && (p.sleep != 0 <==> |p.executed| == 0)
    && (p.sleep != 0 ==> p.sleep > 0 && p.time + p.sleep == p.start[0].time)
    && |p.next| == |p.executed|
  }

  /**
   * The order a pass left: the one it started from when it slept, else that
   * order with the recomputed run times, sorted again.
   */
  predicate Resorted(p: Pass) {
    |p.next| <= |p.start| && p.order == if p.sleep != 0 then p.start else SortByTime(Reschedule(p.start, p.next))
  }

  /** Every pass of the list left its order as Resorted says. */
  predicate AllResorted(passes: seq<Pass>)
    decreases |passes|
  {
    passes != [] ==> AllResorted(passes[..|passes| - 1]) && Resorted(passes[|passes| - 1])
  }

  lemma {:induction false} ResortedAt(passes: seq<Pass>, p: nat)
    requires AllResorted(passes) && p < |passes|
    ensures Resorted(passes[p])
    decreases |passes|
  {
    var earlier := passes[..|passes| - 1];
    if p < |earlier| {
      ResortedAt(earlier, p);
      assert earlier[p] == passes[p];
    }
  }

  /**
   * The pass took clock reading r for its time, and the k-th job it ran got
   * its next run time, by runTime, from reading r + 1 + k.
   */
  predicate Clocked(jobs: map<string, Job>, runTime: (Timing, DateTime) -> Option<int>, clock: nat -> Instant,
                    r: nat, p: Pass)
  {
    && Registered(jobs, p.start) && |p.next| <= |p.start|
    && p.time == Stamp(clock(r))
    && forall k :: 0 <= k < |p.next| ==> RunTimeAt(jobs, runTime, p.start, clock, r + 1, k) == Some(p.next[k])
  }

  /** The clock reading after the passes, the first of which took reading first. */
  function ReadingAfter(passes: seq<Pass>, first: nat): nat
    decreases |passes|
  {
    if passes == [] then first
    else ReadingAfter(passes[..|passes| - 1], first) + 1 + |passes[|passes| - 1].next|
  }

  /** Each pass read the clock right after the readings of the passes before it. */
  predicate ClockedChain(jobs: map<string, Job>, runTime: (Timing, DateTime) -> Option<int>, clock: nat -> Instant,
                         passes: seq<Pass>, first: nat)
    decreases |passes|
  {
    if passes == [] then true
    else
      var earlier := passes[..|passes| - 1];
      && ClockedChain(jobs, runTime, clock, earlier, first)
      && Clocked(jobs, runTime, clock, ReadingAfter(earlier, first), passes[|passes| - 1])
  }

  /** One more pass, clocked from the next reading, keeps the chain. */
  lemma ClockedSnoc(jobs: map<string, Job>, runTime: (Timing, DateTime) -> Option<int>, clock: nat -> Instant,
                    passes: seq<Pass>, pass: Pass, first: nat)
    requires ClockedChain(jobs, runTime, clock, passes, first)
    requires Clocked(jobs, runTime, clock, ReadingAfter(passes, first), pass)
    ensures ClockedChain(jobs, runTime, clock, passes + [pass], first)
    ensures ReadingAfter(passes + [pass], first) == ReadingAfter(passes, first) + 1 + |pass.next|
  {
    assert (passes + [pass])[..|passes|] == passes;
  }

  /** One more dispatched and clocked pass, over the order the last one left, extends both chains. */
  lemma PassSnoc(jobs: map<string, Job>, runTime: (Timing, DateTime) -> Option<int>, clock: nat -> Instant,
                 passes: seq<Pass>, pass: Pass, order: seq<Entry>, first: nat)
    requires Chained(passes, order) && ClockedChain(jobs, runTime, clock, passes, first)
    requires Dispatched(pass) && Clocked(jobs, runTime, clock, ReadingAfter(passes, first), pass)
    requires pass.start == LastOrder(passes, order)
    ensures Chained(passes + [pass], order) && ClockedChain(jobs, runTime, clock, passes + [pass], first)
    ensures ReadingAfter(passes + [pass], first) == ReadingAfter(passes, first) + 1 + |pass.next|
    ensures Sorted(pass.order) && |pass.order| > 0 && IdBag(pass.order) == IdBag(order)
    ensures AllResorted(passes) && Resorted(pass) ==> AllResorted(passes + [pass])
  {
    ChainedSnoc(passes, pass, order);
    ClockedSnoc(jobs, runTime, clock, passes, pass, first);
    var chain := passes + [pass];
    assert chain[..|chain| - 1] == passes;
  }

  /** The clocked chain, pass by pass: pass p read the clock after the readings of passes[..p]. */
  lemma {:induction false} ClockedAt(jobs: map<string, Job>, runTime: (Timing, DateTime) -> Option<int>,
                                     clock: nat -> Instant, passes: seq<Pass>, first: nat, p: nat)
    requires ClockedChain(jobs, runTime, clock, passes, first) && p < |passes|
    ensures Clocked(jobs, runTime, clock, ReadingAfter(passes[..p], first), passes[p])
    decreases |passes|
  {
    var earlier := passes[..|passes| - 1];
    if p < |earlier| {
      ClockedAt(jobs, runTime, clock, earlier, first, p);
      assert earlier[..p] == passes[..p];
      assert earlier[p] == passes[p];
    } else {
      assert passes[..p] == earlier;
    }
  }

  /**
   * Over a sorted, non-empty order a pass as run() makes it executes exactly the
   * entries that are due, sleeps exactly until the earliest run time when none
   * is, and leaves the same jobs, sorted.
   */
  lemma {:induction false} SortedPassDispatches(p: Pass)
    requires Sorted(p.start) && |p.start| > 0
    requires var n := DueCount(p.start, p.time);
             && p.executed == IdsOf(p.start[..n]) && |p.next| == n
             && p.sleep == (if n == 0 && |p.start| > 0 then p.start[0].time - p.time else 0)
             && p.order == if p.sleep != 0 then p.start else SortByTime(Reschedule(p.start, p.next))
    ensures Dispatched(p)
  {
    DueExactly(p.start, p.time);
    if p.sleep == 0 {
      SortByTimeSorted(Reschedule(p.start, p.next));
      SortByTimeIds(Reschedule(p.start, p.next));
      RescheduleIds(p.start, p.next);
      IdBagIds(Reschedule(p.start, p.next));
      IdBagIds(p.start);
    }
  }

  /** The order the passes leave: the last one's, or the starting order when there is none. */
  function LastOrder(passes: seq<Pass>, order: seq<Entry>): seq<Entry> {
    if passes == [] then order else passes[|passes| - 1].order
  }

  /**
   * Passes as run() makes them from the order: each dispatched the jobs of
   * the order, and each started from the order the previous one left.
   */
  predicate Chained(passes: seq<Pass>, order: seq<Entry>)
    decreases |passes|
  {
    if passes == [] then true
    else
      var earlier := passes[..|passes| - 1];
      var last := passes[|passes| - 1];
      && Chained(earlier, order)
      && Dispatched(last) && IdBag(last.start) == IdBag(order)
      && last.start == if earlier == [] then order else earlier[|earlier| - 1].order
  }

  /** One more pass, over the order the last one left, keeps the chain. */
  lemma ChainedSnoc(passes: seq<Pass>, pass: Pass, order: seq<Entry>)
    requires Chained(passes, order) && Dispatched(pass)
    requires pass.start == LastOrder(passes, order)
    ensures Chained(passes + [pass], order)
  {
    assert (passes + [pass])[..|passes|] == passes;
    if passes != [] {
      var last := passes[|passes| - 1];
      assert IdBag(last.order) == IdBag(last.start);
    }
  }

  /** The chain, pass by pass: the p-th pass dispatched the order's jobs, from the order the one before left. */
  /** Every prefix of a chain is a chain. */
  lemma {:induction false} ChainedPrefix(passes: seq<Pass>, order: seq<Entry>, n: nat)
    requires Chained(passes, order) && n <= |passes|
    ensures Chained(passes[..n], order)
    decreases |passes|
  {
    if n < |passes| {
      var earlier := passes[..|passes| - 1];
      ChainedPrefix(earlier, order, n);
      assert earlier[..n] == passes[..n];
    } else {
      assert passes[..n] == passes;
    }
  }

  /** The last pass of a chain dispatched the order's jobs, from the order the one before left. */
  lemma ChainedLast(passes: seq<Pass>, order: seq<Entry>)
    requires Chained(passes, order) && passes != []
    ensures var p := |passes| - 1;
            && Dispatched(passes[p]) && IdBag(passes[p].start) == IdBag(order)
            && passes[p].start == if p == 0 then order else passes[p - 1].order
  {
    var earlier := passes[..|passes| - 1];
    if |passes| > 1 {
      assert earlier[|earlier| - 1] == passes[|passes| - 2];
    }
  }

  lemma ChainedAt(passes: seq<Pass>, order: seq<Entry>, p: nat)
    requires Chained(passes, order) && p < |passes|
    ensures Dispatched(passes[p]) && IdBag(passes[p].start) == IdBag(order)
    ensures passes[p].start == if p == 0 then order else passes[p - 1].order
  {
    ChainedPrefix(passes, order, p + 1);
    var prefix := passes[..p + 1];
    ChainedLast(prefix, order);
    assert prefix[p] == passes[p];
    if p > 0 {
      assert prefix[p - 1] == passes[p - 1];
    }
  }

  /** Every pass of a chain dispatched the order's jobs and started where the previous one stopped. */
  lemma {:induction false} ChainedAll(passes: seq<Pass>, order: seq<Entry>)
    requires Chained(passes, order)
    ensures forall p :: 0 <= p < |passes| ==>
              Dispatched(passes[p]) && multiset(IdsOf(passes[p].start)) == multiset(IdsOf(order))
    ensures forall p :: 0 < p < |passes| ==> passes[p].start == passes[p - 1].order
    ensures passes != [] ==> passes[0].start == order
  {
    IdBagIds(order);
    forall p | 0 <= p < |passes|
      ensures Dispatched(passes[p]) && multiset(IdsOf(passes[p].start)) == multiset(IdsOf(order))
      ensures p > 0 ==> passes[p].start == passes[p - 1].order
    {
      ChainedAt(passes, order, p);
      IdBagIds(passes[p].start);
    }
    if passes != [] {
      ChainedAt(passes, order, 0);
    }
  }

  /** Every pass of a clocked chain read the clock after the passes before it, and left its order re-sorted. */
  lemma ClockedAll(jobs: map<string, Job>, runTime: (Timing, DateTime) -> Option<int>, clock: nat -> Instant,
                   passes: seq<Pass>, first: nat)
    requires ClockedChain(jobs, runTime, clock, passes, first) && AllResorted(passes)
    ensures forall p :: 0 <= p < |passes| ==> Clocked(jobs, runTime, clock, ReadingAfter(passes[..p], first), passes[p])
    ensures forall p :: 0 <= p < |passes| ==> Resorted(passes[p])
  {
    forall p | 0 <= p < |passes|
      ensures Clocked(jobs, runTime, clock, ReadingAfter(passes[..p], first), passes[p]) && Resorted(passes[p])
    {
      ClockedAt(jobs, runTime, clock, passes, first, p);
      ResortedAt(passes, p);
    }
  }

  // ---------------------------------------------------------------------------
  // The scheduler.

  class Cron {
    /** $jobs: the registered jobs by id. */
    var jobs: map<string, Job>
    /** The keys of $jobs in insertion order (a PHP array keeps it). */
    var ids: seq<string>
    /** getNextRunTime($time) as a time stamp, by a job's timing (Valid ties it to NextRunStamp). */
    const nextRunTime: (Timing, DateTime) -> Option<int>

    ghost predicate Valid()
      reads this
    {
      && Distinct(ids)
      && (forall id :: id in jobs ==> id in ids) && (forall id :: id in ids ==> id in jobs)
      && JobsValid(jobs)
      && (forall tm: Timing, t: DateTime {:trigger NextRunStamp(tm, t)} :: WellFormedTiming(tm) && t.Valid() ==>
            nextRunTime(tm, t) == NextRunStamp(tm, t))
    }

    /** __construct: no jobs. */
    constructor ()
      ensures Valid() && jobs == map[] && ids == []
    {
      jobs := map[];
      ids := [];
      nextRunTime := (tm: Timing, t: DateTime) => if WellFormedTiming(tm) && t.Valid() then NextRunStamp(tm, t) else None;
    }

    /** $job->getNextRunTime($time). */
    method GetNextRunTime(j: Job, t: DateTime) returns (r: Option<int>)
      requires Valid() && JobValid(j) && t.Valid()
      ensures r == nextRunTime(TimingOf(j), t)
    {
      r := JobNextRunTime(j, t);
    }

    /**
     * registerCronJob: the job's id (getId) must not be in use; the job is then
     * stored under it and the id returned.
     */
    method RegisterCronJob(job: Job, md5: string -> string) returns (r: Result<string, CronError>)
      requires Valid() && JobValid(job)
      modifies this, JobObject(job)
      ensures Valid()
      ensures var id := IdOf(old(CachedId(job)), JobText(job), md5);
              && (id in old(jobs) ==> r == Failure(IdInUse) && jobs == old(jobs) && ids == old(ids))
              && (id !in old(jobs) ==> r == Success(id) && jobs == old(jobs)[id := job] && ids == old(ids) + [id])
              && CachedId(job) == Some(id)
    {
      var id := GetId(job, md5);
      if id in jobs {
        return Failure(IdInUse);
      }
      jobs := jobs[id := job];
      ids := ids + [id];
      return Success(id);
    }

    /**
     * registerJob: a GenericCronJob built from the arguments (its errors are
     * thrown first), then registerCronJob.
     */
    method RegisterJob(callback: Generic.Callback, minute: Option<string>, hour: Option<string>, day: Option<string>,
                       month: Option<string>, dayOfWeek: Option<string>, md5: string -> string)
      returns (r: Result<string, CronError>)
      requires Valid()
      modifies this
      ensures Valid()
      ensures !Generic.ValidCallback(callback) ==> r == Failure(InvalidCallback) && unchanged(this)
      ensures Generic.ValidCallback(callback) && Generic.ScheduleOf(minute, hour, day, month, dayOfWeek).Failure? ==>
                r == Failure(Generic.ScheduleOf(minute, hour, day, month, dayOfWeek).error) && unchanged(this)
      ensures Generic.ValidCallback(callback) && Generic.ScheduleOf(minute, hour, day, month, dayOfWeek).Success? ==>
                var id := md5(Generic.CallbackText(callback) + " (" +
                              Generic.IntervalDefinition(minute, hour, day, month, dayOfWeek) + ")");
                && (id in old(jobs) ==> r == Failure(IdInUse) && jobs == old(jobs) && ids == old(ids))
                && (id !in old(jobs) ==>
                      && r == Success(id) && ids == old(ids) + [id] && id in jobs
                      && jobs == old(jobs)[id := jobs[id]]
                      && jobs[id].GenericJob? && fresh(jobs[id].genericJob)
                      && jobs[id].genericJob.callback == callback
                      && jobs[id].genericJob.Intervals() == Generic.ScheduleOf(minute, hour, day, month, dayOfWeek).value)
    {
      var job := Generic.GenericCronJob.Create(callback, minute, hour, day, month, dayOfWeek);
      if job.Failure? {
        return Failure(job.error);
      }
      r := RegisterCronJob(GenericJob(job.value), md5);
    }

    /** removeJob: false when the id is not registered, otherwise the entry is dropped and true returned. */
    method RemoveJob(id: string) returns (removed: bool)
      requires Valid()
      modifies this
      ensures Valid()
      ensures id !in old(jobs) ==> !removed && jobs == old(jobs) && ids == old(ids)
      ensures id in old(jobs) ==> removed && jobs == old(jobs) - {id} && ids == Without(old(ids), id)
    {
      if id !in jobs {
        return false;
      }
      jobs := jobs - {id};
      ids := Without(ids, id);
      return true;
    }

    /**
     * getRunOrder($time): every registered job once, with its next run time
     * from the given time, ascending.  None when some job's search would
     * restart beyond the bound.
     */
    method GetRunOrder(now: DateTime) returns (r: Option<seq<Entry>>)
      requires Valid() && now.Valid()
      ensures r.None? <==> exists id :: id in jobs && nextRunTime(TimingOf(jobs[id]), now).None?
      ensures r.Some? ==> Sorted(r.value) && multiset(IdsOf(r.value)) == multiset(ids)
      ensures r.Some? ==> forall e :: e in r.value ==> e.id in jobs && nextRunTime(TimingOf(jobs[e.id]), now) == Some(e.time)
    {
      var runOrder := NextRunTimes(now);
      if runOrder.None? {
        return None;
      }
      SortByTimeSorted(runOrder.value);
      SortByTimeIds(runOrder.value);
      IdBagIds(runOrder.value);
      r := Some(SortByTime(runOrder.value));
      IdBagIds(r.value);
      assert forall e :: e in r.value ==> e in multiset(runOrder.value);
    }

    /** The foreach of getRunOrder: each job's next run time, in the order of $jobs. */
    method NextRunTimes(now: DateTime) returns (r: Option<seq<Entry>>)
      requires Valid() && now.Valid()
      ensures r.None? <==> exists id :: id in jobs && nextRunTime(TimingOf(jobs[id]), now).None?
      ensures r.Some? ==> IdsOf(r.value) == ids
      ensures r.Some? ==> forall e :: e in r.value ==> e.id in jobs && nextRunTime(TimingOf(jobs[e.id]), now) == Some(e.time)
    {
      var runOrder: seq<Entry> := [];
      var i := 0;
      while i < |ids|
        invariant 0 <= i <= |ids|
        invariant IdsOf(runOrder) == ids[..i]
        invariant forall e :: e in runOrder ==> e.id in jobs && nextRunTime(TimingOf(jobs[e.id]), now) == Some(e.time)
      {
        var next := GetNextRunTime(jobs[ids[i]], now);
        if next.None? {
          return None;
        }
        assert IdsOf(runOrder + [Entry(ids[i], next.value)]) == ids[..i + 1];
        runOrder := runOrder + [Entry(ids[i], next.value)];
        i := i + 1;
      }
      assert ids[..i] == ids;
      r := Some(runOrder);
    }

    /**
     * One pass of run()'s loop over $runOrder: reads the clock, then walks the
     * order (WalkOrder) and, when it did not sleep, sorts it again.  None when
     * a recomputation would restart beyond the bound.
     */
    method RunPass(order: seq<Entry>, clock: nat -> Instant, reading: nat) returns (r: Option<Pass>, readings: nat)
      requires Valid() && Registered(jobs, order)
      ensures var time := Stamp(clock(reading));
              var n := DueCount(order, time);
              var first := reading + 1;
              && (r.None? <==> exists k :: 0 <= k < n && RunTimeAt(jobs, nextRunTime, order, clock, first, k).None?)
              && (r.Some? ==>
                    && r.value.start == order && r.value.time == time && readings == first + n
                    && r.value.executed == IdsOf(order[..n]) && |r.value.next| == n
                    && (forall k :: 0 <= k < n ==> RunTimeAt(jobs, nextRunTime, order, clock, first, k) == Some(r.value.next[k]))
                    && r.value.sleep == (if n == 0 && |order| > 0 then order[0].time - time else 0)
                    && r.value.order == if r.value.sleep != 0 then order else SortByTime(Reschedule(order, r.value.next)))
      ensures r.Some? && Sorted(order) && |order| > 0 ==> Dispatched(r.value)
      ensures r.Some? ==> Clocked(jobs, nextRunTime, clock, reading, r.value) && Resorted(r.value)
    {
      var time := Stamp(clock(reading));
      var failed, next, sleepTime;
      failed, next, sleepTime, readings := WalkOrder(order, time, clock, reading + 1);
      if failed {
        return None, readings;
      }
      // $runOrder[$jobId] = ... for each job run (foreach walks a copy, so all at once here)
      var runOrder := Reschedule(order, next);
      if sleepTime == 0 {
        runOrder := SortByTime(runOrder);
      }
      r := Some(Pass(order, time, IdsOf(order[..|next|]), next, sleepTime, runOrder));
      if Sorted(order) && |order| > 0 {
        SortedPassDispatches(r.value);
      }
    }

    /**
     * The foreach of a pass at time stamp time: at the first entry later than
     * time it stops, noting the wait when nothing ran; every earlier entry's
     * callback is invoked (any exception is caught) and its run time
     * recomputed from a fresh clock reading, the first one numbered first.
     */
    method WalkOrder(order: seq<Entry>, time: int, clock: nat -> Instant, first: nat)
      returns (failed: bool, next: seq<int>, sleepTime: int, readings: nat)
      requires Valid() && Registered(jobs, order)
      ensures var n := DueCount(order, time);
              && (failed <==> exists k :: 0 <= k < n && RunTimeAt(jobs, nextRunTime, order, clock, first, k).None?)
              && (!failed ==>
                    && readings == first + n && |next| == n
                    && (forall k :: 0 <= k < n ==> RunTimeAt(jobs, nextRunTime, order, clock, first, k) == Some(next[k]))
                    && sleepTime == (if n == 0 && |order| > 0 then order[0].time - time else 0))
    {
      ghost var n := DueCount(order, time);
      readings := first;
      sleepTime := 0;
      failed := false;
      next := [];
      var executed := false;
      var i := 0;
      while i < |order|
        invariant 0 <= i <= n
        invariant readings == first + i
        invariant executed <==> i > 0
        invariant |next| == i
        invariant forall k :: 0 <= k < i ==> RunTimeAt(jobs, nextRunTime, order, clock, first, k) == Some(next[k])
        invariant sleepTime == 0
      {
        if order[i].time > time {
          if !executed {
            sleepTime := order[i].time - time;
          }
          break;
        }
        executed := true;
        var nextTime := nextRunTime(TimingOf(jobs[order[i].id]), clock(readings));
        assert nextTime == RunTimeAt(jobs, nextRunTime, order, clock, first, i);
        readings := readings + 1;
        if nextTime.None? {
          failed := true;
          return;
        }
        next := next + [nextTime.value];
        i := i + 1;
      }
    }

    /**
     * run($loop): returns at once when no job is registered; otherwise builds
     * the run order from a first clock reading and makes $loop passes, each
     * over the order the previous one left.  $loop = 0 runs until the process
     * is stopped: here for 1 + lifetime passes.  completed is false when a
     * run time search would restart beyond the bound.
     */
    method Run(loop: nat, lifetime: nat, clock: nat -> Instant) returns (passes: seq<Pass>, completed: bool)
      requires Valid()
      ensures jobs == map[] ==> passes == [] && completed
      ensures jobs != map[] && completed ==> |passes| == if loop > 0 then loop else lifetime + 1
      ensures forall p :: 0 <= p < |passes| ==>
                Dispatched(passes[p]) && multiset(IdsOf(passes[p].start)) == multiset(ids)
      ensures forall p :: 0 < p < |passes| ==> passes[p].start == passes[p - 1].order
      ensures forall p :: 0 <= p < |passes| ==> Resorted(passes[p])
      ensures |passes| > 0 ==> RunOrderAt(jobs, ids, nextRunTime, clock(0), passes[0].start)
      ensures forall p :: 0 <= p < |passes| ==> Clocked(jobs, nextRunTime, clock, ReadingAfter(passes[..p], 1), passes[p])
      ensures !completed ==> jobs != map[] && |passes| < if loop > 0 then loop else lifetime + 1
      ensures !completed && passes != [] ==>
                PassFails(jobs, nextRunTime, clock, passes[|passes| - 1].order, ReadingAfter(passes, 1))
      ensures !completed && passes == [] ==>
                || (exists id :: id in jobs && nextRunTime(TimingOf(jobs[id]), clock(0)).None?)
                || (exists order :: RunOrderAt(jobs, ids, nextRunTime, clock(0), order) && PassFails(jobs, nextRunTime, clock, order, 1))
    {
      passes := [];
      completed := true;
      if jobs == map[] {
        return;
      }
      var runOrder := GetRunOrder(clock(0));
      if runOrder.None? {
        completed := false;
        return;
      }
      assert RunOrderAt(jobs, ids, nextRunTime, clock(0), runOrder.value);
      passes, completed := RunFrom(runOrder.value, if loop > 0 then loop else lifetime + 1, clock);
    }

    /** The passes of run() over the run order built from the first clock reading. */
    method RunFrom(order: seq<Entry>, count: nat, clock: nat -> Instant) returns (passes: seq<Pass>, completed: bool)
      requires Valid() && jobs != map[] && RunOrderAt(jobs, ids, nextRunTime, clock(0), order) && count > 0
      ensures completed ==> |passes| == count
      ensures forall p :: 0 <= p < |passes| ==>
                Dispatched(passes[p]) && multiset(IdsOf(passes[p].start)) == multiset(ids)
      ensures forall p :: 0 < p < |passes| ==> passes[p].start == passes[p - 1].order
      ensures forall p :: 0 <= p < |passes| ==> Resorted(passes[p])
      ensures |passes| > 0 ==> RunOrderAt(jobs, ids, nextRunTime, clock(0), passes[0].start)
      ensures forall p :: 0 <= p < |passes| ==> Clocked(jobs, nextRunTime, clock, ReadingAfter(passes[..p], 1), passes[p])
      ensures !completed ==> |passes| < count
      ensures !completed && passes != [] ==>
                PassFails(jobs, nextRunTime, clock, passes[|passes| - 1].order, ReadingAfter(passes, 1))
      ensures !completed && passes == [] ==> PassFails(jobs, nextRunTime, clock, order, 1)
    {
      var id :| id in jobs;
      assert id in ids && id in multiset(IdsOf(order));
      IdBagIds(order);
      RegisteredSameIds(jobs, ids, order);
      passes, completed := RunPasses(order, count, clock, 1);
      ChainedAll(passes, order);
      ClockedAll(jobs, nextRunTime, clock, passes, 1);
    }

    /**
     * The do-while of run(): count passes (count >= 1), each over the order
     * the previous one left, the first from clock reading `reading`.
     */
    method RunPasses(order: seq<Entry>, count: nat, clock: nat -> Instant, reading: nat)
      returns (passes: seq<Pass>, completed: bool)
      requires Valid()
      requires Sorted(order) && |order| > 0 && Registered(jobs, order) && count > 0
      ensures completed ==> |passes| == count
      ensures Chained(passes, order)
      ensures ClockedChain(jobs, nextRunTime, clock, passes, reading)
      ensures AllResorted(passes)
      ensures !completed ==>
                && |passes| < count
                && PassFails(jobs, nextRunTime, clock, LastOrder(passes, order),
                             ReadingAfter(passes, reading))
    {
      passes := [];
      completed := true;
      var runOrder := order;
      var readings := reading;
      var index := 1;
      while index <= count
        invariant 1 <= index <= count + 1 && |passes| == index - 1
        invariant Sorted(runOrder) && |runOrder| > 0 && IdBag(runOrder) == IdBag(order)
        invariant Chained(passes, order)
        invariant runOrder == LastOrder(passes, order)
        invariant ClockedChain(jobs, nextRunTime, clock, passes, reading) && readings == ReadingAfter(passes, reading)
        invariant AllResorted(passes)
      {
        var pass, after := ChainPass(order, passes, runOrder, clock, reading, readings);
        if pass.None? {
          completed := false;
          return;
        }
        readings := after;
        passes := passes + [pass.value];
        runOrder := pass.value.order;
        index := index + 1;
      }
    }

    /** One pass of the do-while, over the order the last pass left, added to both chains. */
    method ChainPass(order: seq<Entry>, passes: seq<Pass>, runOrder: seq<Entry>, clock: nat -> Instant,
                     first: nat, reading: nat)
      returns (pass: Option<Pass>, readings: nat)
      requires Valid() && Registered(jobs, order)
      requires Chained(passes, order) && ClockedChain(jobs, nextRunTime, clock, passes, first)
      requires reading == ReadingAfter(passes, first)
      requires runOrder == LastOrder(passes, order)
      requires Sorted(runOrder) && |runOrder| > 0 && IdBag(runOrder) == IdBag(order)
      ensures pass.Some? ==>
                && Chained(passes + [pass.value], order)
                && ClockedChain(jobs, nextRunTime, clock, passes + [pass.value], first)
                && readings == ReadingAfter(passes + [pass.value], first)
                && Sorted(pass.value.order) && |pass.value.order| > 0 && IdBag(pass.value.order) == IdBag(order)
                && (AllResorted(passes) ==> AllResorted(passes + [pass.value]))
      ensures pass.None? ==> PassFails(jobs, nextRunTime, clock, runOrder, reading)
    {
      IdBagIds(order);
      RegisteredSameIds(jobs, IdsOf(order), runOrder);
      pass, readings := RunPass(runOrder, clock, reading);
      if pass.Some? {
        PassSnoc(jobs, nextRunTime, clock, passes, pass.value, order, first);
      }
    }
  }
}
