/** Slot arithmetic of the scheduled worker (packages/shared/src/worker-schedule.ts), in
    milliseconds, with the fixed offset of seven hours that Phoenix keeps all year. */
module WorkerSchedule {
  import opened Common

  const HOUR_MS: int := 3_600_000
  const OFFSET_HOURS: int := 7
  const ADMISSION_MINUTES: int := 5

  datatype ScheduleError = InvalidInterval

  /** A slot key: a local day and hour, one to one with the text the backend writes. */
  datatype Slot = Slot(day: int, hour: int)

  datatype Clock = Clock(day: int, hour: int, minute: int)

  predicate Supported(interval: int) { interval == 1 || interval == 2 || interval == 4 }

  /** Day, hour and minute on the local wall clock; division rounds down, before 1970 too. */
  function PhoenixClock(at: int): Clock {
    var local := at - OFFSET_HOURS * HOUR_MS;
    Clock(local / (24 * HOUR_MS), (local / HOUR_MS) % 24, (local / 60_000) % 60)
  }

  /** Outside the quiet hours, and a multiple of the interval away from 06:00. */
  predicate SlotHour(hour: int, interval: int)
    requires Supported(interval)
  {
    !(2 <= hour < 6) && ((hour + 24 - 6) % 24) % interval == 0
  }

  function ScheduledSlot(at: int, interval: int): Result<Option<Slot>, ScheduleError> {
    if !Supported(interval) then Err(InvalidInterval)
    else
      var c := PhoenixClock(at);
      if c.minute < ADMISSION_MINUTES && SlotHour(c.hour, interval) then Ok(Some(Slot(c.day, c.hour))) else Ok(None)
  }

  // ----- Whole hours -----

  /** The local hour of the n-th hour since the epoch. */
  function HourOf(n: int): int { (n - OFFSET_HOURS) % 24 }

  predicate IsSlot(n: int, interval: int)
    requires Supported(interval)
  {
    SlotHour(HourOf(n), interval)
  }

  lemma DivideTwice(x: int)
    ensures x / HOUR_MS == (x / 60_000) / 60 && x / (24 * HOUR_MS) == (x / HOUR_MS) / 24
  {
  }

  /** Within the n-th hour only the minute varies. */
  lemma ClockInHour(n: int, ms: int)
    requires 0 <= ms < HOUR_MS
    ensures PhoenixClock(n * HOUR_MS + ms) == Clock((n - OFFSET_HOURS) / 24, HourOf(n), ms / 60_000)
  {
    var local := (n - OFFSET_HOURS) * HOUR_MS + ms;
    assert local == n * HOUR_MS + ms - OFFSET_HOURS * HOUR_MS;
    assert local / HOUR_MS == n - OFFSET_HOURS;
    DivideTwice(local);
    assert local / 60_000 == (n - OFFSET_HOURS) * 60 + ms / 60_000;
  }

  /** An instant is admitted exactly in the first five minutes of a slot hour, under that
      hour's key. */
  lemma AdmittedInFirstMinutes(n: int, ms: int, interval: int)
    requires 0 <= ms < HOUR_MS && Supported(interval)
    ensures ScheduledSlot(n * HOUR_MS + ms, interval)
      == if ms < ADMISSION_MINUTES * 60_000 && IsSlot(n, interval) then
           Ok(Some(Slot((n - OFFSET_HOURS) / 24, HourOf(n))))
         else
           Ok(None)
  {
    ClockInHour(n, ms);
    assert ms / 60_000 < ADMISSION_MINUTES <==> ms < ADMISSION_MINUTES * 60_000;
  }

  /** Two hours never share a key. */
  lemma KeysTellHoursApart(n: int, m: int)
    requires (n - OFFSET_HOURS) / 24 == (m - OFFSET_HOURS) / 24 && HourOf(n) == HourOf(m)
    ensures n == m
  {
  }

  /** Hours from a local hour to the next slot. */
  function Gap(hour: int, interval: int): int
    requires 0 <= hour < 24 && Supported(interval)
  {
    if interval == 1 then if 1 <= hour < 6 then 6 - hour else 1
    else if interval == 2 then if hour < 6 then 6 - hour else if hour % 2 == 0 then 2 else 1
    else if hour < 6 then 6 - hour
    else if hour < 10 then 10 - hour
    else if hour < 14 then 14 - hour
    else if hour < 18 then 18 - hour
    else if hour < 22 then 22 - hour
    else 30 - hour
  }

  function LongestGap(interval: int): int {
    if interval == 1 then 5 else if interval == 2 then 6 else 8
  }

  function Later(hour: int, k: int): int { (hour + k) % 24 }

  lemma LaterWraps(hour: int, k: int)
    requires 0 <= hour < 24 && 0 <= k <= 24
    ensures Later(hour, k) == if hour + k < 24 then hour + k else hour + k - 24
  {
  }

  /** The hours each interval allows, listed. */
  predicate Allowed(h: int, interval: int) {
    if interval == 1 then h < 2 || h >= 6
    else if interval == 2 then h % 2 == 0 && (h < 2 || h >= 6)
    else h == 6 || h == 10 || h == 14 || h == 18 || h == 22
  }

  lemma SlotHoursAreAllowed(h: int, interval: int)
    requires 0 <= h < 24 && Supported(interval)
    ensures SlotHour(h, interval) <==> Allowed(h, interval)
  {
    assert (h + 24 - 6) % 24 == if h < 6 then h + 18 else h - 6;
  }

  /** The slot of an instant, read off the clock: in the first five minutes of an hour that the interval
      allows, seven hours behind. */
  lemma SlotByTheClock(at: int, interval: int)
    ensures var hours := at / 3_600_000 - 7;
      && (ScheduledSlot(at, interval).Err? <==> interval !in {1, 2, 4})
      && (interval in {1, 2, 4} ==>
            ScheduledSlot(at, interval)
            == Ok(if at % 3_600_000 < 300_000 && Allowed(hours % 24, interval) then Some(Slot(hours / 24, hours % 24))
                  else None))
  {
    var n, ms := at / HOUR_MS, at % HOUR_MS;
    assert at == n * HOUR_MS + ms;
    if Supported(interval) {
      AdmittedInFirstMinutes(n, ms, interval);
      SlotHoursAreAllowed(HourOf(n), interval);
    }
  }

  lemma GapIsAllowed(hour: int, interval: int, later: int)
    requires 0 <= hour < 24 && Supported(interval)
    requires later == hour + Gap(hour, interval) - (if hour + Gap(hour, interval) < 24 then 0 else 24)
    ensures 1 <= Gap(hour, interval) <= LongestGap(interval) && Allowed(later, interval)
  {
  }

  lemma NoneAllowedInGap(hour: int, interval: int, k: int, later: int)
    requires 0 <= hour < 24 && Supported(interval) && 1 <= k < Gap(hour, interval)
    requires later == if hour + k < 24 then hour + k else hour + k - 24
    ensures !Allowed(later, interval)
  {
  }

  lemma GapReachesSlot(hour: int, interval: int)
    requires 0 <= hour < 24 && Supported(interval)
    ensures 1 <= Gap(hour, interval) <= LongestGap(interval)
    ensures SlotHour(Later(hour, Gap(hour, interval)), interval)
  {
    var later := Later(hour, Gap(hour, interval));
    LaterWraps(hour, Gap(hour, interval));
    GapIsAllowed(hour, interval, later);
    SlotHoursAreAllowed(later, interval);
  }

  lemma NoSlotInGap(hour: int, interval: int, k: int)
    requires 0 <= hour < 24 && Supported(interval) && 1 <= k < Gap(hour, interval)
    ensures !SlotHour(Later(hour, k), interval)
  {
    LaterWraps(hour, k);
    NoneAllowedInGap(hour, interval, k, Later(hour, k));
    SlotHoursAreAllowed(Later(hour, k), interval);
  }

  lemma HourAdvances(n: int, k: int)
    ensures HourOf(n + k) == Later(HourOf(n), k)
  {
  }

  /** The next slot hour after the n-th hour. */
  function NextSlotHour(n: int, interval: int): int
    requires Supported(interval)
  {
    n + Gap(HourOf(n), interval)
  }

  lemma NextIsLeast(n: int, interval: int)
    requires Supported(interval)
    ensures var next := NextSlotHour(n, interval);
      && n < next <= n + LongestGap(interval) && IsSlot(next, interval)
      && forall m :: n < m < next ==> !IsSlot(m, interval)
  {
    GapReachesSlot(HourOf(n), interval);
    var next := NextSlotHour(n, interval);
    HourAdvances(n, next - n);
    forall m | n < m < next ensures !IsSlot(m, interval) {
      HourAdvances(n, m - n);
      NoSlotInGap(HourOf(n), interval, m - n);
    }
  }

  /** The search: at most 48 whole hours, from the first one after `at`. It always finds its
      slot, never runs out, and returns the least whole hour strictly after `at` that is one. */
  method NextScheduledAt(at: int, interval: int) returns (r: Result<int, ScheduleError>)
    ensures r.Err? <==> !Supported(interval)
    ensures r.Ok? ==> r.value == NextSlotHour(at / HOUR_MS, interval) * HOUR_MS
  {
    var hour := at / HOUR_MS + 1;
    for i := 0 to 48
      invariant hour == at / HOUR_MS + 1 + i
      invariant Supported(interval) ==> forall m :: at / HOUR_MS < m < hour ==> !IsSlot(m, interval)
    {
      var slot := ScheduledSlot(hour * HOUR_MS, interval);
      if slot.Err? { return Err(slot.error); }
      AdmittedInFirstMinutes(hour, 0, interval);
      NextIsLeast(at / HOUR_MS, interval);
      if slot.value.Some? { return Ok(hour * HOUR_MS); }
      hour := hour + 1;
    }
    if Supported(interval) {
      NextIsLeast(at / HOUR_MS, interval);
      assert false;
    }
    return Err(InvalidInterval);
  }

  lemma HourBounds(at: int, m: int, gap: int)
    requires at / HOUR_MS < m <= at / HOUR_MS + gap
    ensures at < m * HOUR_MS <= at + gap * HOUR_MS && (m * HOUR_MS) % HOUR_MS == 0
  {
  }

  /** What the search returns, in terms of slots and times. */
  lemma NextIsLeastSlotAfter(at: int, interval: int)
    requires Supported(interval)
    ensures var next := NextSlotHour(at / HOUR_MS, interval) * HOUR_MS;
      && at < next <= at + LongestGap(interval) * HOUR_MS
      && next % HOUR_MS == 0 && ScheduledSlot(next, interval).value.Some?
      && !(2 <= PhoenixClock(next).hour < 6)
  {
    var n := at / HOUR_MS;
    var m := NextSlotHour(n, interval);
    NextIsLeast(n, interval);
    HourBounds(at, m, LongestGap(interval));
    AdmittedInFirstMinutes(m, 0, interval);
    ClockInHour(m, 0);
  }

  lemma NoEarlierSlot(at: int, interval: int, t: int)
    requires Supported(interval) && at < t < NextSlotHour(at / HOUR_MS, interval) * HOUR_MS && t % HOUR_MS == 0
    ensures ScheduledSlot(t, interval) == Ok(None)
  {
    NextIsLeast(at / HOUR_MS, interval);
    var m := t / HOUR_MS;
    assert t == m * HOUR_MS;
    AdmittedInFirstMinutes(m, 0, interval);
  }

  /** The k-th scheduled time after `at`. */
  function Schedule(at: int, interval: int, k: nat): int
    requires Supported(interval)
  {
    if k == 0 then at else NextSlotHour(Schedule(at, interval, k - 1) / HOUR_MS, interval) * HOUR_MS
  }

  lemma {:induction false} ScheduleAdvances(at: int, interval: int, j: nat, k: nat)
    requires Supported(interval) && j < k
    ensures Schedule(at, interval, j) < Schedule(at, interval, k)
  {
    NextIsLeastSlotAfter(Schedule(at, interval, k - 1), interval);
    if j < k - 1 {
      ScheduleAdvances(at, interval, j, k - 1);
    }
  }

  /** Successive scheduled times fall into pairwise distinct slots, so one run per slot is
      one run per scheduled time. */
  lemma {:induction false} SlotsNeverRepeat(at: int, interval: int, j: nat, k: nat)
    requires Supported(interval) && 0 < j < k
    ensures ScheduledSlot(Schedule(at, interval, j), interval).value.Some?
    ensures ScheduledSlot(Schedule(at, interval, k), interval).value.Some?
    ensures ScheduledSlot(Schedule(at, interval, j), interval) != ScheduledSlot(Schedule(at, interval, k), interval)
  {
    ScheduleAdvances(at, interval, j, k);
    NextIsLeastSlotAfter(Schedule(at, interval, j - 1), interval);
    NextIsLeastSlotAfter(Schedule(at, interval, k - 1), interval);
    var n := NextSlotHour(Schedule(at, interval, j - 1) / HOUR_MS, interval);
    var m := NextSlotHour(Schedule(at, interval, k - 1) / HOUR_MS, interval);
    AdmittedInFirstMinutes(n, 0, interval);
    AdmittedInFirstMinutes(m, 0, interval);
    if (n - OFFSET_HOURS) / 24 == (m - OFFSET_HOURS) / 24 && HourOf(n) == HourOf(m) {
      KeysTellHoursApart(n, m);
    }
  }
}
