/** NandLifeController: the daily and lifetime swap-out quotas. */
module NandLife {
  import opened RegistryTypes

  const TIMER_PERIOD_MIN := 15
  const MINS_PER_DAY := 24 * 60

  /** The counters, the quotas in KB, the kernel's swap-out switch, and the
      persisted "permanently closed" mark. */
  datatype Nand = Nand(
    daily: nat, total: nat,
    last: nat, minsToday: nat, today: nat, minsSinceBirth: nat, sinceBirth: nat,
    enabled: bool, closed: bool)

  /** What the outside answers during one tick: the kernel's counter, whether the
      parameters could be saved, whether writes to the switch take effect, and
      whether the mark could be persisted. */
  datatype Outside = Outside(reading: Option<nat>, saved: bool, switched: bool, persisted: bool)

  function Closed(n: Nand, o: Outside): Nand { if o.switched then n.(enabled := false) else n }
  function Opened(n: Nand, o: Outside): Nand { if o.switched then n.(enabled := true) else n }

  function ClosedForGood(n: Nand, o: Outside): Nand {
    var m := Closed(n, o);
    if o.persisted then m.(closed := true) else m
  }

  /** The counters after a reading that is not below the last one. */
  function Counted(n: Nand, now: nat): Nand
    requires now >= n.last
  {
    n.(last := now, today := n.today + (now - n.last), sinceBirth := n.sinceBirth + (now - n.last))
  }

  /** What a tick does once the counters are up to date. */
  function Judged(n: Nand, o: Outside): Nand {
    var a := if n.today >= n.daily then Closed(n, o) else n;
    var b := if a.minsToday >= MINS_PER_DAY then
               var c := a.(minsToday := 0, today := 0);
               if c.sinceBirth < c.total then Opened(c, o) else c
             else a;
    var d := if !o.saved then Closed(b, o) else b;
    if d.sinceBirth >= d.total then ClosedForGood(d, o) else d
  }

  /** CheckSwapOut. */
  function Tick(n: Nand, o: Outside): Nand {
    if n.closed then Closed(n, o)
    else
      var a := n.(minsToday := n.minsToday + TIMER_PERIOD_MIN, minsSinceBirth := n.minsSinceBirth + TIMER_PERIOD_MIN);
      if o.reading.None? || o.reading.value < a.last then Closed(a, o)
      else Judged(Counted(a, o.reading.value), o)
  }

  /** Swap-out is on only below both quotas and when it is not closed for good. */
  predicate Safe(n: Nand) {
    n.enabled ==> n.today < n.daily && n.sinceBirth < n.total && !n.closed
  }

  /** The tick that opens swap-out for a new day. */
  predicate OpensNewDay(n: Nand, o: Outside) {
    && !n.closed && o.reading.Some? && o.reading.value >= n.last && o.saved
    && n.minsToday + TIMER_PERIOD_MIN >= MINS_PER_DAY
    && n.sinceBirth + (o.reading.value - n.last) < n.total
  }

  /** A tick ends so unless the daily quota is zero and a new day begins: the
      new day opens swap-out without looking at the daily quota. */
  lemma TickSafe(n: Nand, o: Outside)
    requires o.switched
    ensures Safe(Tick(n, o)) <==> !(n.daily == 0 && OpensNewDay(n, o))
  {
    hide Judged;
    if !n.closed && o.reading.Some? && o.reading.value >= n.last {
      var a := n.(minsToday := n.minsToday + TIMER_PERIOD_MIN, minsSinceBirth := n.minsSinceBirth + TIMER_PERIOD_MIN);
      JudgedSafe(Counted(a, o.reading.value), o);
    }
  }

  lemma JudgedSafe(n: Nand, o: Outside)
    requires !n.closed && o.switched
    ensures Safe(Judged(n, o)) <==>
            !(n.daily == 0 && n.minsToday >= MINS_PER_DAY && n.sinceBirth < n.total && o.saved)
  {
  }

  /** The counter could be read and did not run backwards. */
  predicate Readable(n: Nand, o: Outside) { !n.closed && o.reading.Some? && o.reading.value >= n.last }

  /** What one tick decides, in numbers: swap-out is on after it exactly when the
      counter and the parameters went through, the lifetime total is below its
      quota, and either a day is over or it was on and today's total is below
      the daily quota. It is closed for good when the lifetime total reached its
      quota. A kernel that ignores the switch keeps it. */
  lemma TickDecides(n: Nand, o: Outside)
    ensures var m := Tick(n, o);
      var increase := if Readable(n, o) then o.reading.value - n.last else 0;
      var dayOver := n.minsToday + 15 >= 1440;
      && (m.enabled <==>
            if !o.switched then n.enabled
            else Readable(n, o) && o.saved && n.sinceBirth + increase < n.total
                 && (dayOver || (n.enabled && n.today + increase < n.daily)))
      && (m.closed <==> n.closed || (Readable(n, o) && n.sinceBirth + increase >= n.total && o.persisted))
      && m.sinceBirth == n.sinceBirth + increase && m.last == n.last + increase
      && m.today == (if Readable(n, o) && dayOver then 0 else n.today + increase)
      && m.minsToday == (if n.closed then n.minsToday else if Readable(n, o) && dayOver then 0 else n.minsToday + 15)
      && m.minsSinceBirth == (if n.closed then n.minsSinceBirth else n.minsSinceBirth + 15)
      && m.daily == n.daily && m.total == n.total
  {
    hide Judged;
    if Readable(n, o) {
      var a := n.(minsToday := n.minsToday + TIMER_PERIOD_MIN, minsSinceBirth := n.minsSinceBirth + TIMER_PERIOD_MIN);
      JudgedDecides(Counted(a, o.reading.value), o);
    }
  }

  lemma JudgedDecides(n: Nand, o: Outside)
    requires !n.closed
    ensures var m := Judged(n, o);
      && (m.enabled <==>
            if !o.switched then n.enabled
            else o.saved && n.sinceBirth < n.total && (n.minsToday >= 1440 || (n.enabled && n.today < n.daily)))
      && (m.closed <==> n.sinceBirth >= n.total && o.persisted)
      && m.today == (if n.minsToday >= 1440 then 0 else n.today)
      && m.minsToday == (if n.minsToday >= 1440 then 0 else n.minsToday)
      && m == n.(enabled := m.enabled, closed := m.closed, today := m.today, minsToday := m.minsToday)
  {
  }

  /** Ticks: the quotas stand, a total grows by exactly what the kernel counter
      grew, and a closed controller stays closed and off. */
  lemma TickConserves(n: Nand, o: Outside)
    ensures var m := Tick(n, o);
      && m.daily == n.daily && m.total == n.total
      && m.sinceBirth - m.last == n.sinceBirth - n.last
      && m.sinceBirth >= n.sinceBirth
      && (n.closed ==> m.closed && m.sinceBirth == n.sinceBirth)
      && (n.closed && o.switched ==> !m.enabled)
  {
  }

  // ----- Init

  datatype Started = Started(n: Nand, ticking: bool, ok: bool)

  /** Init from the configured quotas in MB, the saved counters and the first
      reading. ready tells whether there is an event handler and a valid
      configuration, loaded whether the saved counters could be read. */
  function Init(dailyMB: nat, totalMB: nat, n: Nand, ready: bool, loaded: bool, o: Outside): Started {
    if !ready then Started(Closed(n, o), false, false)
    else if dailyMB == 0 && totalMB == 0 then
      Started(Opened(if o.persisted then n.(closed := false) else n, o), false, true)
    else
      var a := n.(daily := dailyMB * 1024, total := totalMB * 1024);
      if !loaded || a.closed || o.reading.None? then Started(Closed(a, o), false, false)
      else
        var b := a.(last := o.reading.value);
        if b.sinceBirth >= b.total then Started(ClosedForGood(b, o), true, false)
        else if b.today >= b.daily then Started(Closed(b, o), true, false)
        else Started(Opened(b, o), true, true)
  }

  lemma InitSafe(dailyMB: nat, totalMB: nat, n: Nand, ready: bool, loaded: bool, o: Outside)
    requires o.switched && (dailyMB > 0 || totalMB > 0)
    ensures var s := Init(dailyMB, totalMB, n, ready, loaded, o);
      && Safe(s.n)
      && (s.ok <==> s.n.enabled)
      && (s.ok <==> ready && loaded && !n.closed && o.reading.Some? && n.today < dailyMB * 1024 && n.sinceBirth < totalMB * 1024)
  {
  }

  /** Start-up in numbers. Without quotas swap-out is on and not closed for good;
      with them the quotas are a KB for each of 1024 per MB, the counters stay
      as they were saved, and the last reading is the current one. */
  lemma InitSets(dailyMB: nat, totalMB: nat, n: Nand, ready: bool, loaded: bool, o: Outside)
    requires o.switched
    ensures var s := Init(dailyMB, totalMB, n, ready, loaded, o);
      && s.n.today == n.today && s.n.sinceBirth == n.sinceBirth
      && s.n.minsToday == n.minsToday && s.n.minsSinceBirth == n.minsSinceBirth
      && (!ready ==> !s.n.enabled && !s.ok && !s.ticking)
      && (ready && dailyMB == 0 && totalMB == 0 ==> s.n.enabled && s.ok && !s.ticking && (o.persisted ==> !s.n.closed))
      && (ready && (dailyMB > 0 || totalMB > 0) ==>
            && s.n.daily == dailyMB * 1024 && s.n.total == totalMB * 1024
            && (s.ticking <==> loaded && !n.closed && o.reading.Some?)
            && (s.ticking ==> s.n.last == o.reading.value)
            && (s.n.closed <==> n.closed || (s.ticking && n.sinceBirth >= totalMB * 1024 && o.persisted)))
  {
  }

  // ----- runs

  /** The controller at the tick boundaries, from a start that ticks on. */
  predicate NandRun(ns: seq<Nand>, os: seq<Outside>) {
    && |ns| == |os| + 1
    && forall i {:trigger os[i]} :: 0 <= i < |os| ==> ns[i + 1] == Tick(ns[i], os[i])
  }

  /** At every tick boundary swap-out is on only below both quotas and when it
      was not closed for good, if and only if the daily quota is positive or no
      tick opens a new day. */
  lemma RunSafe(ns: seq<Nand>, os: seq<Outside>)
    requires NandRun(ns, os) && |ns| == |os| + 1 && Safe(ns[0]) && forall k :: 0 <= k < |os| ==> os[k].switched
    ensures (forall i :: 0 <= i < |ns| ==> Safe(ns[i])) <==>
            (ns[0].daily > 0 || forall k :: 0 <= k < |os| ==> !OpensNewDay(ns[k], os[k]))
  {
    hide Safe, OpensNewDay, NandRun;
    if i :| 0 <= i < |ns| && !Safe(ns[i]) {
      SafeAfter(ns, os, i);
      var k := i - 1;
      assert 0 <= k < |os| && OpensNewDay(ns[k], os[k]);
    } else {
      forall k | 0 <= k < |os|
        ensures ns[0].daily > 0 || !OpensNewDay(ns[k], os[k])
      {
        SafeAfter(ns, os, k + 1);
        assert Safe(ns[k + 1]);
      }
    }
  }

  lemma SafeAfter(ns: seq<Nand>, os: seq<Outside>, i: nat)
    requires NandRun(ns, os) && 0 < i < |ns| && os[i - 1].switched
    ensures Safe(ns[i]) <==> ns[0].daily > 0 || !OpensNewDay(ns[i - 1], os[i - 1])
  {
    hide Safe, OpensNewDay, Tick;
    RunConserves(ns, os, 0, i - 1);
    TickSafe(ns[i - 1], os[i - 1]);
    assert ns[(i - 1) + 1] == Tick(ns[i - 1], os[i - 1]);
  }

  /** The zero daily quota that start-up accepts beside a positive total: the
      first tick that completes a saved day switches swap-out on. */
  lemma ZeroQuotaOpens(totalMB: nat, n: Nand, o: Outside)
    requires totalMB > 0 && !n.closed && o.switched && o.saved && o.reading.Some?
    requires n.minsToday == MINS_PER_DAY - TIMER_PERIOD_MIN && n.sinceBirth < totalMB * 1024
    ensures var s := Init(0, totalMB, n, true, true, o);
      s.ticking && !s.n.enabled && Safe(s.n) && Tick(s.n, o).enabled && !Safe(Tick(s.n, o))
  {
  }

  /** The lifetime total minus the last reading never changes, failed reads and
      failed writes included; closure is for ever. */
  lemma {:induction false} RunConserves(ns: seq<Nand>, os: seq<Outside>, i: nat, j: nat)
    requires NandRun(ns, os) && i <= j < |ns|
    ensures ns[j].sinceBirth - ns[j].last == ns[i].sinceBirth - ns[i].last
    ensures ns[j].daily == ns[i].daily && ns[j].total == ns[i].total
    ensures ns[i].closed ==> ns[j].closed && ns[j].sinceBirth == ns[i].sinceBirth
    decreases j
  {
    if i < j {
      RunConserves(ns, os, i, j - 1);
      TickConserves(ns[j - 1], os[j - 1]);
    }
  }

  /** A kernel that swaps out at most r KB a period, only while the switch is
      on; count[i] is its true counter at tick boundary i, and every successful
      reading reports it. */
  predicate Kernel(ns: seq<Nand>, os: seq<Outside>, count: seq<nat>, r: nat) {
    && |count| == |ns| == |os| + 1 && count[0] == ns[0].last
    && forall i {:trigger os[i]} :: 0 <= i < |os| ==>
         && count[i] <= count[i + 1] <= count[i] + (if ns[i].enabled then r else 0)
         && (os[i].reading.Some? ==> os[i].reading.value == count[i + 1])
  }

  /** What has been swapped out since birth, counted or not. */
  function TrueTotal(n: Nand, count: nat): int { n.sinceBirth + count - n.last }

  predicate BelowTotal(n: Nand) { n.enabled ==> n.sinceBirth < n.total }

  lemma TickKeepsUp(n: Nand, o: Outside, before: nat, after: nat, r: nat)
    requires BelowTotal(n) && o.switched
    requires n.last <= before <= after <= before + (if n.enabled then r else 0)
    requires o.reading.Some? ==> o.reading.value == after
    requires n.enabled ==> before == n.last
    requires TrueTotal(n, before) < n.total + r
    ensures var m := Tick(n, o);
      && BelowTotal(m) && m.last <= after && TrueTotal(m, after) < m.total + r && (m.enabled ==> after == m.last)
  {
  }

  /** The lifetime total, including what no reading has reported yet, never
      reaches the quota plus one period's worth. */
  lemma {:induction false} LifetimeBounded(ns: seq<Nand>, os: seq<Outside>, count: seq<nat>, r: nat, i: nat)
    requires NandRun(ns, os) && Kernel(ns, os, count, r) && i < |ns|
    requires ns[0].sinceBirth < ns[0].total
    requires forall k :: 0 <= k < |os| ==> os[k].switched
    ensures ns[i].last <= count[i] && TrueTotal(ns[i], count[i]) < ns[0].total + r
    ensures BelowTotal(ns[i]) && (ns[i].enabled ==> count[i] == ns[i].last)
  {
    RunConserves(ns, os, 0, i);
    if i > 0 {
      LifetimeBounded(ns, os, count, r, i - 1);
      RunConserves(ns, os, 0, i - 1);
      TickKeepsUp(ns[i - 1], os[i - 1], count[i - 1], count[i], r);
    }
  }

  // ----- the object

  class NandLifeController {
    var dailyQuota: nat
    var totalQuota: nat
    var lastSwapOut: nat
    var minsToday: nat
    var swapOutToday: nat
    var minsSinceBirth: nat
    var swapOutSinceBirth: nat
    /** The kernel's switch and the persisted mark. */
    var enabled: bool
    var closed: bool

    constructor (n: Nand)
      ensures Value() == n
    {
      dailyQuota, totalQuota, lastSwapOut := n.daily, n.total, n.last;
      minsToday, swapOutToday, minsSinceBirth, swapOutSinceBirth := n.minsToday, n.today, n.minsSinceBirth, n.sinceBirth;
      enabled, closed := n.enabled, n.closed;
    }

    function Value(): Nand
      reads this
    {
      Nand(dailyQuota, totalQuota, lastSwapOut, minsToday, swapOutToday, minsSinceBirth, swapOutSinceBirth, enabled, closed)
    }

    method CloseSwapOutTemporarily(o: Outside)
      modifies this`enabled
      ensures Value() == Closed(old(Value()), o)
    {
      if o.switched {
        enabled := false;
      }
    }

    method OpenSwapOutTemporarily(o: Outside)
      modifies this`enabled
      ensures Value() == Opened(old(Value()), o)
    {
      if o.switched {
        enabled := true;
      }
    }

    method CheckReachedDailyLimit(o: Outside) returns (reached: bool)
      modifies this`enabled
      ensures reached <==> old(Value()).today >= old(Value()).daily
      ensures Value() == if reached then Closed(old(Value()), o) else old(Value())
    {
      reached := swapOutToday >= dailyQuota;
      if reached {
        CloseSwapOutTemporarily(o);
      }
    }

    method CheckReachedTotalLimit(o: Outside) returns (reached: bool)
      modifies this`enabled, this`closed
      ensures reached <==> old(Value()).sinceBirth >= old(Value()).total
      ensures Value() == if reached then ClosedForGood(old(Value()), o) else old(Value())
    {
      reached := swapOutSinceBirth >= totalQuota;
      if reached {
        CloseSwapOutTemporarily(o);
        if o.persisted {
          closed := true;
        }
      }
    }

    method Initialize(dailyMB: nat, totalMB: nat, ready: bool, loaded: bool, o: Outside) returns (ok: bool, ticking: bool)
      modifies this
      ensures Started(Value(), ticking, ok) == Init(dailyMB, totalMB, old(Value()), ready, loaded, o)
    {
      ok, ticking := false, false;
      if !ready {
        CloseSwapOutTemporarily(o);
        return;
      }
      if dailyMB == 0 && totalMB == 0 {
        if o.persisted {
          closed := false;
        }
        OpenSwapOutTemporarily(o);
        return true, false;
      }
      dailyQuota, totalQuota := dailyMB * 1024, totalMB * 1024;
      if !loaded || closed || o.reading.None? {
        CloseSwapOutTemporarily(o);
        return;
      }
      lastSwapOut := o.reading.value;
      ticking := true;
      var reached := CheckReachedTotalLimit(o);
      if !reached {
        reached := CheckReachedDailyLimit(o);
      }
      if !reached {
        OpenSwapOutTemporarily(o);
        ok := true;
      }
    }

    method CheckSwapOut(o: Outside)
      modifies this
      ensures Value() == Tick(old(Value()), o)
    {
      hide Judged;
      if closed {
        CloseSwapOutTemporarily(o);
        return;
      }
      minsToday := minsToday + TIMER_PERIOD_MIN;
      minsSinceBirth := minsSinceBirth + TIMER_PERIOD_MIN;
      if o.reading.None? {
        CloseSwapOutTemporarily(o);
        return;
      }
      var now := o.reading.value;
      if now < lastSwapOut {
        CloseSwapOutTemporarily(o);
        return;
      }
      var increased := now - lastSwapOut;
      lastSwapOut := now;
      swapOutToday := swapOutToday + increased;
      swapOutSinceBirth := swapOutSinceBirth + increased;
      Judge(o);
    }

    /** The second half of CheckSwapOut. */
    method Judge(o: Outside)
      modifies this
      ensures Value() == Judged(old(Value()), o)
    {
      var reached := CheckReachedDailyLimit(o);
      if minsToday >= MINS_PER_DAY {
        minsToday, swapOutToday := 0, 0;
        if swapOutSinceBirth < totalQuota {
          OpenSwapOutTemporarily(o);
        }
      }
      if !o.saved {
        CloseSwapOutTemporarily(o);
      }
      reached := CheckReachedTotalLimit(o);
    }
  }
}
