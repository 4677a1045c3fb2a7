/** Traffic accounting: byte counters sampled every minute, their increments added to a minute table, and
    the minutes summed into hours and the hours into days. */
module Traffic {
  import opened Wrappers

  const MINUTE: int := 60_000_000_000
  const HOUR: int := 60 * MINUTE
  const DAY: int := 24 * HOUR

  /** direction: true is sent. */
  datatype Group = Group(tag: string, direction: bool)

  datatype Slot = Slot(start: int, group: Group)

  type Table = map<Slot, int>

  /** Instants are cut to whole minutes and hours; days begin at local midnight. */
  function Floor(t: int, unit: int): int
    requires unit > 0
  {
    t - t % unit
  }

  function DayStart(t: int, offset: int): int { t - (t + offset) % DAY }

  // ---- Sums

  ghost function Total(m: Table): int
    decreases |m|
  {
    if m == map[] then 0
    else
      var s :| s in m;
      m[s] + Total(m - {s})
  }

  /** The sum does not depend on the order. */
  lemma {:induction false} TotalWithout(m: Table, s: Slot)
    requires s in m
    ensures Total(m) == m[s] + Total(m - {s})
    decreases |m|
  {
    var p :| p in m && Total(m) == m[p] + Total(m - {p});
    if p != s {
      TotalWithout(m - {p}, s);
      TotalWithout(m - {s}, p);
      assert m - {p} - {s} == m - {s} - {p};
    }
  }

  lemma TotalUpdate(m: Table, s: Slot, v: int)
    ensures Total(m[s := v]) == Total(m) - (if s in m then m[s] else 0) + v
  {
    var n := m[s := v];
    TotalWithout(n, s);
    if s in m {
      TotalWithout(m, s);
      assert n - {s} == m - {s};
    } else {
      assert n - {s} == m;
    }
  }

  /** The rows of a group that start in the window. */
  function Window(m: Table, start: int, end: int, g: Group): Table {
    map s | s in m && start <= s.start < end && s.group == g :: m[s]
  }

  function Groups(m: Table, start: int, end: int): set<Group> { set s | s in m && start <= s.start < end :: s.group }

  ghost function Sum(m: Table, start: int, end: int, g: Group): Option<int> {
    if g in Groups(m, start, end) then Some(Total(Window(m, start, end, g))) else None
  }

  function Row(m: Table, start: int, g: Group): Option<int> {
    if Slot(start, g) in m then Some(m[Slot(start, g)]) else None
  }

  // ---- Rolling up

  /** One row per group that occurs in the window, replacing what was there. */
  ghost function Rollup(from: Table, to: Table, start: int, end: int): Table {
    map s | s in to.Keys + (set g | g in Groups(from, start, end) :: Slot(start, g)) ::
      if s.start == start && s.group in Groups(from, start, end) then Total(Window(from, start, end, s.group)) else to[s]
  }

  lemma RollupRow(from: Table, to: Table, start: int, end: int, at: int, g: Group)
    ensures Row(Rollup(from, to, start, end), at, g) ==
      if at == start && Sum(from, start, end, g).Some? then Sum(from, start, end, g) else Row(to, at, g)
  {
    hide Total, Window, Groups;
  }

  lemma SameTable(a: Table, b: Table)
    requires forall at: int, g: Group :: Row(a, at, g) == Row(b, at, g)
    ensures a == b
  {
    forall s: Slot ensures (s in a <==> s in b) && (s in a ==> a[s] == b[s]) {
      assert s == Slot(s.start, s.group) && Row(a, s.start, s.group) == Row(b, s.start, s.group);
    }
  }

  /** Rolling a period up again changes nothing, whatever other periods were rolled up in between. */
  lemma RollupAgain(from: Table, to: Table, start: int, end: int, other: int, otherEnd: int)
    requires other == start ==> otherEnd == end
    ensures var once := Rollup(from, to, start, end);
      Rollup(from, Rollup(from, once, other, otherEnd), start, end) == Rollup(from, once, other, otherEnd)
  {
    hide Rollup, Row;
    var once := Rollup(from, to, start, end);
    var later := Rollup(from, once, other, otherEnd);
    forall at, g ensures Row(Rollup(from, later, start, end), at, g) == Row(later, at, g) {
      RollupRow(from, later, start, end, at, g);
      RollupRow(from, once, other, otherEnd, at, g);
      RollupRow(from, to, start, end, at, g);
    }
    SameTable(Rollup(from, later, start, end), later);
  }

  // ---- One tick

  datatype Tables = Tables(minutes: Table, hours: Table, days: Table)

  /** The current period and the one before. */
  ghost function RolledHours(minutes: Table, hours: Table, now: int): Table {
    var h := Floor(now, HOUR);
    var p := Floor(now - HOUR, HOUR);
    Rollup(minutes, Rollup(minutes, hours, h, h + HOUR), p, p + HOUR)
  }

  ghost function RolledDays(hours: Table, days: Table, now: int, offset: int): Table {
    var d := DayStart(now, offset);
    Rollup(hours, Rollup(hours, days, d, d + DAY), d - DAY, d)
  }

  ghost function RunRollups(t: Tables, now: int, offset: int): Tables {
    var hours := RolledHours(t.minutes, t.hours, now);
    t.(hours := hours, days := RolledDays(hours, t.days, now, offset))
  }

  /** Every hour row is the sum of its minutes, and where there are no minutes there is no row. */
  ghost predicate HoursFit(t: Tables) {
    forall h: int, g: Group :: h % HOUR == 0 ==> Row(t.hours, h, g) == Sum(t.minutes, h, h + HOUR, g)
  }

  /** Every day row is the sum of its hours. */
  ghost predicate DaysFit(t: Tables, offset: int) {
    forall d: int, g: Group :: (d + offset) % DAY == 0 ==> Row(t.days, d, g) == Sum(t.hours, d, d + DAY, g)
  }

  /** Rows of the minute table that differ all start in this minute, and none has gone. */
  predicate SampledAt(before: Table, after: Table, minute: int) {
    && before.Keys <= after.Keys
    && forall s :: s in after && s.start != minute ==> s in before && before[s] == after[s]
  }

  lemma SumElsewhere(before: Table, after: Table, minute: int, start: int, end: int, g: Group)
    requires SampledAt(before, after, minute) && !(start <= minute < end)
    ensures Sum(after, start, end, g) == Sum(before, start, end, g)
  {
    hide Total;
    assert Window(after, start, end, g) == Window(before, start, end, g);
    forall x ensures x in Groups(after, start, end) <==> x in Groups(before, start, end) {
      if x in Groups(after, start, end) {
        var s :| s in after && start <= s.start < end && s.group == x;
        assert s in before;
      }
    }
  }

  lemma HourOf(t: int, h: int)
    requires h % HOUR == 0
    ensures h <= t < h + HOUR <==> h == Floor(t, HOUR)
    ensures h <= Floor(t, MINUTE) < h + HOUR <==> h == Floor(t, HOUR)
    ensures Floor(t, HOUR) % HOUR == 0 && Floor(t - HOUR, HOUR) == Floor(t, HOUR) - HOUR
  {
  }

  /** Whether the rollup at one instant covers the hour of another: it does from the hour before on. */
  predicate Covers(now: int, sampled: int) { Floor(now, HOUR) - HOUR <= sampled < Floor(now, HOUR) + HOUR }

  lemma CoveredHours(now: int, sampled: int)
    ensures Covers(now, sampled) <==> Floor(sampled, HOUR) in {Floor(now, HOUR), Floor(now, HOUR) - HOUR}
    ensures 0 <= now - sampled < HOUR ==> Covers(now, sampled)
  {
    HourOf(sampled, Floor(now, HOUR));
    HourOf(sampled, Floor(now, HOUR) - HOUR);
    assert Floor(now, HOUR) % HOUR == 0 && (Floor(now, HOUR) - HOUR) % HOUR == 0;
  }

  lemma RolledHourRow(minutes: Table, hours: Table, now: int, h: int, g: Group)
    ensures var f := Floor(now, HOUR);
      Row(RolledHours(minutes, hours, now), h, g) ==
        if h in {f, f - HOUR} && Sum(minutes, h, h + HOUR, g).Some? then Sum(minutes, h, h + HOUR, g) else Row(hours, h, g)
  {
    hide Rollup, Sum, Row;
    HourOf(now, Floor(now, HOUR));
    var f := Floor(now, HOUR);
    var once := Rollup(minutes, hours, f, f + HOUR);
    RollupRow(minutes, once, f - HOUR, f, h, g);
    RollupRow(minutes, hours, f, f + HOUR, h, g);
  }

  lemma RolledDayRow(hours: Table, days: Table, now: int, offset: int, d: int, g: Group)
    ensures var f := DayStart(now, offset);
      Row(RolledDays(hours, days, now, offset), d, g) ==
        if d in {f, f - DAY} && Sum(hours, d, d + DAY, g).Some? then Sum(hours, d, d + DAY, g) else Row(days, d, g)
  {
    hide Rollup, Sum, Row;
    var f := DayStart(now, offset);
    var once := Rollup(hours, days, f, f + DAY);
    RollupRow(hours, once, f - DAY, f, d, g);
    RollupRow(hours, days, f, f + DAY, d, g);
  }

  lemma SumRemains(before: Table, after: Table, start: int, end: int, g: Group)
    requires before.Keys <= after.Keys && Sum(after, start, end, g).None?
    ensures Sum(before, start, end, g).None?
  {
    forall s | s in before ensures s in after {}
    assert Groups(before, start, end) <= Groups(after, start, end);
  }

  /** After a tick whose sample was taken at one instant and whose rollup runs at another, the hours are
      right exactly when the rollup covers the sample's hour, or the sample left the sums of that hour
      as they were. */
  lemma TickKeepsHours(t: Tables, after: Table, sampled: int, now: int, offset: int)
    requires HoursFit(t) && SampledAt(t.minutes, after, Floor(sampled, MINUTE))
    ensures var h := Floor(sampled, HOUR);
      HoursFit(RunRollups(t.(minutes := after), now, offset)) <==>
      Covers(now, sampled) || forall g :: HourSum(after, h, g) == HourSum(t.minutes, h, g)
  {
    hide Rollup, Sum, Row, SampledAt, Covers, RolledHours, RolledDays, Floor;
    var n := RolledHours(after, t.hours, now);
    var here := Floor(sampled, HOUR);
    assert here % HOUR == 0 by { HourOf(sampled, 0); }
    forall h: int, g | h % HOUR == 0
      ensures Row(n, h, g) == Sum(after, h, h + HOUR, g) <==>
        h != here || Covers(now, sampled) || HourSum(after, h, g) == HourSum(t.minutes, h, g)
    {
      HourTick(t, after, sampled, now, h, g);
    }
  }

  ghost function HourSum(m: Table, h: int, g: Group): Option<int> { Sum(m, h, h + HOUR, g) }

  lemma HourTick(t: Tables, after: Table, sampled: int, now: int, h: int, g: Group)
    requires HoursFit(t) && SampledAt(t.minutes, after, Floor(sampled, MINUTE)) && h % HOUR == 0
    ensures Row(RolledHours(after, t.hours, now), h, g) == Sum(after, h, h + HOUR, g) <==>
      h != Floor(sampled, HOUR) || Covers(now, sampled) || Sum(after, h, h + HOUR, g) == Sum(t.minutes, h, h + HOUR, g)
  {
    hide Sum, Row, RolledHours, Covers;
    RolledHourRow(after, t.hours, now, h, g);
    CoveredHours(now, sampled);
    HourOf(sampled, h);
    if h != Floor(sampled, HOUR) { SumElsewhere(t.minutes, after, Floor(sampled, MINUTE), h, h + HOUR, g); }
    if Sum(after, h, h + HOUR, g).None? { SumRemains(t.minutes, after, h, h + HOUR, g); }
  }

  /** The hour rows that a rollup changes start in its current or previous hour. */
  lemma HoursChange(minutes: Table, hours: Table, now: int, start: int, end: int, g: Group)
    requires !(start <= Floor(now, HOUR) < end) && !(start <= Floor(now, HOUR) - HOUR < end)
    ensures Sum(RolledHours(minutes, hours, now), start, end, g) == Sum(hours, start, end, g)
  {
    hide Total, Rollup, Sum, RolledHours;
    var n := RolledHours(minutes, hours, now);
    forall s: Slot | start <= s.start < end ensures (s in n <==> s in hours) && (s in hours ==> n[s] == hours[s]) {
      RolledHourRow(minutes, hours, now, s.start, s.group);
      assert s == Slot(s.start, s.group);
    }
    SameWindow(n, hours, start, end, g);
  }

  lemma SameWindow(a: Table, b: Table, start: int, end: int, g: Group)
    requires forall s: Slot :: start <= s.start < end ==> (s in a <==> s in b) && (s in b ==> a[s] == b[s])
    ensures Sum(a, start, end, g) == Sum(b, start, end, g)
  {
    hide Total;
    assert Window(a, start, end, g) == Window(b, start, end, g);
    assert Groups(a, start, end) == Groups(b, start, end);
  }

  lemma HoursRemain(minutes: Table, hours: Table, now: int)
    ensures hours.Keys <= RolledHours(minutes, hours, now).Keys
  {
    hide Total, Window, Groups;
  }

  /** The days are right after every tick, in every zone: the hours that change lie in the two days that
      are summed again. */
  lemma TickKeepsDays(t: Tables, after: Table, now: int, offset: int)
    requires DaysFit(t, offset)
    ensures DaysFit(RunRollups(t.(minutes := after), now, offset), offset)
  {
    hide Rollup, Sum, Row, RolledHours, RolledDays;
    var n := RunRollups(t.(minutes := after), now, offset);
    forall d: int, g | (d + offset) % DAY == 0 ensures Row(n.days, d, g) == Sum(n.hours, d, d + DAY, g) {
      RolledDayRow(n.hours, t.days, now, offset, d, g);
      HoursRemain(after, t.hours, now);
      if d != DayStart(now, offset) && d != DayStart(now, offset) - DAY {
        DaysApart(now, offset, d);
        HoursChange(after, t.hours, now, d, d + DAY, g);
      } else if Sum(n.hours, d, d + DAY, g).None? {
        SumRemains(t.hours, n.hours, d, d + DAY, g);
      }
    }
  }

  lemma DaysApart(now: int, offset: int, d: int)
    requires (d + offset) % DAY == 0 && d != DayStart(now, offset) && d != DayStart(now, offset) - DAY
    ensures !(d <= Floor(now, HOUR) < d + DAY) && !(d <= Floor(now, HOUR) - HOUR < d + DAY)
  {
  }

  // ---- Samples

  const WRAP: int := 0x1_0000_0000_0000_0000
  const HALF: int := 0x8000_0000_0000_0000

  /** The difference of two unsigned counters, read as a signed number. */
  function Signed(previous: nat, current: nat): int {
    var d := (current - previous) % WRAP;
    if d < HALF then d else d - WRAP
  }

  function Delta(previous: nat, current: nat): nat { if Signed(previous, current) < 0 then 0 else Signed(previous, current) }

  predicate Counter(n: nat) { n < WRAP }

  /** An increment is recorded as it is exactly when the counter rose by less than two to the 63. A
      counter that fell contributes nothing exactly when it fell by at most that much; one that fell
      further is taken to have risen. */
  lemma DeltaExactly(previous: nat, current: nat)
    requires Counter(previous) && Counter(current)
    ensures Delta(previous, current) == current - previous <==> 0 <= current - previous < HALF
    ensures current < previous ==> (Delta(previous, current) == 0 <==> previous - current <= HALF)
    ensures current < previous && previous - current > HALF ==> Delta(previous, current) == WRAP - (previous - current)
  {
  }

  datatype Sample = Sample(rx: nat, tx: nat)

  function Added(m: Table, s: Slot, v: int): Table { m[s := v + if s in m then m[s] else 0] }

  /** The minute table after one worker's sample; the first sample only sets the baseline, and a sample
      that brings nothing new adds no row. */
  function Recorded(minutes: Table, previous: Option<Sample>, minute: int, tag: string, now: Sample): Table {
    if previous.None? then minutes
    else
      var rx, tx := Delta(previous.value.rx, now.rx), Delta(previous.value.tx, now.tx);
      if rx == 0 && tx == 0 then minutes
      else Added(Added(minutes, Slot(minute, Group(tag, false)), rx), Slot(minute, Group(tag, true)), tx)
  }

  lemma RecordedIsSampled(minutes: Table, previous: Option<Sample>, minute: int, tag: string, now: Sample)
    ensures SampledAt(minutes, Recorded(minutes, previous, minute, tag, now), minute)
  {
    hide Delta;
  }

  /** All the bytes of a group in the minute table. */
  ghost function Bytes(m: Table, g: Group): int { Total(map s | s in m && s.group == g :: m[s]) }

  lemma BytesAdded(m: Table, s: Slot, v: int, g: Group)
    ensures Bytes(Added(m, s, v), g) == Bytes(m, g) + if s.group == g then v else 0
  {
    hide Total;
    var n := Added(m, s, v);
    var a, b := map x | x in m && x.group == g :: m[x], map x | x in n && x.group == g :: n[x];
    if s.group == g {
      TotalUpdate(a, s, n[s]);
      assert b == a[s := n[s]];
    } else {
      assert b == a;
    }
  }

  function Moved(a: Sample, b: Sample, direction: bool): nat { if direction then Delta(a.tx, b.tx) else Delta(a.rx, b.rx) }

  function Reading(s: Sample, direction: bool): nat { if direction then s.tx else s.rx }

  lemma BytesRecorded(m: Table, previous: Option<Sample>, minute: int, tag: string, now: Sample, g: Group)
    ensures Bytes(Recorded(m, previous, minute, tag, now), g) ==
      Bytes(m, g) + if previous.Some? && g.tag == tag then Moved(previous.value, now, g.direction) else 0
  {
    hide Bytes, Added, Delta;
    if previous.Some? {
      var rx, tx := Delta(previous.value.rx, now.rx), Delta(previous.value.tx, now.tx);
      var m1 := Added(m, Slot(minute, Group(tag, false)), rx);
      BytesAdded(m, Slot(minute, Group(tag, false)), rx, g);
      BytesAdded(m1, Slot(minute, Group(tag, true)), tx, g);
    }
  }

  /** The minute table after the first n samples of one worker, taken in whatever minutes. */
  function After(m: Table, tag: string, samples: seq<Sample>, minutes: seq<int>, n: nat): Table
    requires n <= |samples| == |minutes|
  {
    if n == 0 then m
    else Recorded(After(m, tag, samples, minutes, n - 1), if n == 1 then None else Some(samples[n - 2]), minutes[n - 1], tag, samples[n - 1])
  }

  /** Where a counter never falls and never jumps by two to the 63, the recorded bytes telescope to its
      last reading less its first. */
  lemma {:induction false} BytesTelescope(m: Table, tag: string, samples: seq<Sample>, minutes: seq<int>, n: nat, direction: bool)
    requires 0 < n <= |samples| == |minutes|
    requires forall i :: 0 <= i < n ==> Counter(Reading(samples[i], direction))
    requires forall i :: 0 < i < n ==> 0 <= Reading(samples[i], direction) - Reading(samples[i - 1], direction) < HALF
    ensures Bytes(After(m, tag, samples, minutes, n), Group(tag, direction)) ==
      Bytes(m, Group(tag, direction)) + Reading(samples[n - 1], direction) - Reading(samples[0], direction)
  {
    hide Bytes, Recorded, Delta;
    var g := Group(tag, direction);
    if n == 1 {
      BytesRecorded(After(m, tag, samples, minutes, 0), None, minutes[0], tag, samples[0], g);
    } else {
      BytesTelescope(m, tag, samples, minutes, n - 1, direction);
      BytesRecorded(After(m, tag, samples, minutes, n - 1), Some(samples[n - 2]), minutes[n - 1], tag, samples[n - 1], g);
      DeltaExactly(Reading(samples[n - 2], direction), Reading(samples[n - 1], direction));
    }
  }

  /** Whether a sample brings bytes in either direction. */
  predicate Brings(previous: Option<Sample>, now: Sample) {
    previous.Some? && (Delta(previous.value.rx, now.rx) > 0 || Delta(previous.value.tx, now.tx) > 0)
  }

  /** A sample that adds bytes in an hour the rollup does not cover leaves that hour row wrong, and no
      other sample does. */
  lemma LateRollupLosesBytes(t: Tables, previous: Option<Sample>, sampled: int, now: int, offset: int, tag: string, current: Sample)
    requires HoursFit(t)
    ensures HoursFit(RunRollups(t.(minutes := Recorded(t.minutes, previous, Floor(sampled, MINUTE), tag, current)), now, offset))
      <==> Covers(now, sampled) || !Brings(previous, current)
  {
    hide HoursFit, RunRollups, Delta, Sum, Covers;
    var minute := Floor(sampled, MINUTE);
    var after := Recorded(t.minutes, previous, minute, tag, current);
    RecordedIsSampled(t.minutes, previous, minute, tag, current);
    TickKeepsHours(t, after, sampled, now, offset);
    var h := Floor(sampled, HOUR);
    HourOf(sampled, h);
    if Brings(previous, current) {
      var rx, tx := Delta(previous.value.rx, current.rx), Delta(previous.value.tx, current.tx);
      SumRises(t.minutes, minute, tag, rx, tx, h, tx > 0);
    } else {
      assert after == t.minutes;
    }
  }

  lemma SumRises(m: Table, minute: int, tag: string, rx: nat, tx: nat, h: int, direction: bool)
    requires (if direction then tx else rx) > 0 && h <= minute < h + HOUR
    ensures var n := Added(Added(m, Slot(minute, Group(tag, false)), rx), Slot(minute, Group(tag, true)), tx);
      HourSum(n, h, Group(tag, direction)) != HourSum(m, h, Group(tag, direction))
  {
    hide Total;
    var g, s := Group(tag, direction), Slot(minute, Group(tag, direction));
    var n := Added(Added(m, Slot(minute, Group(tag, false)), rx), Slot(minute, Group(tag, true)), tx);
    var a, b := Window(m, h, h + HOUR, g), Window(n, h, h + HOUR, g);
    assert b == a[s := n[s]];
    TotalUpdate(a, s, n[s]);
    assert s in n;
  }

  // ---- Runs

  /** One tick: the readings of the workers, the instant of the sample, and that of the rollup. */
  datatype Worker = Worker(tag: string, previous: Option<Sample>, now: Sample)

  datatype Tick = Tick(workers: seq<Worker>, sampled: int, now: int)

  function SampleAll(m: Table, workers: seq<Worker>, minute: int): Table {
    if workers == [] then m
    else
      var w := workers[|workers| - 1];
      Recorded(SampleAll(m, workers[..|workers| - 1], minute), w.previous, minute, w.tag, w.now)
  }

  lemma {:induction false} SampleAllIsSampled(m: Table, workers: seq<Worker>, minute: int)
    ensures SampledAt(m, SampleAll(m, workers, minute), minute)
  {
    hide Recorded;
    if workers != [] {
      SampleAllIsSampled(m, workers[..|workers| - 1], minute);
      var w := workers[|workers| - 1];
      RecordedIsSampled(SampleAll(m, workers[..|workers| - 1], minute), w.previous, minute, w.tag, w.now);
    }
  }

  ghost function Step(t: Tables, tick: Tick, offset: int): Tables {
    RunRollups(t.(minutes := SampleAll(t.minutes, tick.workers, Floor(tick.sampled, MINUTE))), tick.now, offset)
  }

  ghost function Play(ticks: seq<Tick>, offset: int): Tables {
    if ticks == [] then Tables(map[], map[], map[]) else Step(Play(ticks[..|ticks| - 1], offset), ticks[|ticks| - 1], offset)
  }

  /** After every tick of every run, in every zone, each day row is the sum of its hours; and each hour
      row the sum of its minutes where every rollup reads the clock after its sample and less than an
      hour later. */
  lemma {:induction false} TablesAgree(ticks: seq<Tick>, offset: int)
    ensures DaysFit(Play(ticks, offset), offset)
    ensures (forall i :: 0 <= i < |ticks| ==> 0 <= ticks[i].now - ticks[i].sampled < HOUR) ==> HoursFit(Play(ticks, offset))
  {
    hide DaysFit, HoursFit, RunRollups, Covers, Floor;
    if ticks == [] {
      NothingFits(offset);
    } else {
      var before, tick := ticks[..|ticks| - 1], ticks[|ticks| - 1];
      TablesAgree(before, offset);
      var t := Play(before, offset);
      var after := SampleAll(t.minutes, tick.workers, Floor(tick.sampled, MINUTE));
      SampleAllIsSampled(t.minutes, tick.workers, Floor(tick.sampled, MINUTE));
      TickKeepsDays(t, after, tick.now, offset);
      if forall i :: 0 <= i < |ticks| ==> 0 <= ticks[i].now - ticks[i].sampled < HOUR {
        assert forall i :: 0 <= i < |before| ==> before[i] == ticks[i];
        CoveredHours(tick.now, tick.sampled);
        TickKeepsHours(t, after, tick.sampled, tick.now, offset);
      }
    }
  }

  lemma NothingFits(offset: int)
    ensures DaysFit(Tables(map[], map[], map[]), offset) && HoursFit(Tables(map[], map[], map[]))
  {
  }

  // ---- The tables as an object

  class TrafficStore {
    var minute: Table
    var hour: Table
    var day: Table
    var trafficPrev: map<string, Sample>

    function Abs(): Tables
      reads this
    {
      Tables(minute, hour, day)
    }

    function Previous(id: string): Option<Sample>
      reads this
    {
      if id in trafficPrev then Some(trafficPrev[id]) else None
    }

    constructor ()
      ensures Abs() == Tables(map[], map[], map[]) && trafficPrev == map[]
    {
      minute, hour, day, trafficPrev := map[], map[], map[], map[];
    }

    /** Each point is added to its row, or makes it. */
    method UpsertTrafficMinute(points: seq<(Slot, int)>)
      modifies this`minute
      ensures minute == AllAdded(old(minute), points)
    {
      for i := 0 to |points|
        invariant minute == AllAdded(old(minute), points[..i])
      {
        assert points[..i + 1][..i] == points[..i];
        var s, v := points[i].0, points[i].1;
        minute := minute[s := v + if s in minute then minute[s] else 0];
      }
      assert points[..|points|] == points;
    }

    method RecordTrafficDelta(id: string, tag: string, periodStart: int, now: Sample)
      modifies this`minute, this`trafficPrev
      ensures minute == Recorded(old(minute), old(Previous(id)), periodStart, tag, now)
      ensures trafficPrev == old(trafficPrev)[id := now]
    {
      hide Delta;
      var previous := Previous(id);
      trafficPrev := trafficPrev[id := now];
      if previous.None? { return; }
      var rx := Delta(previous.value.rx, now.rx);
      var tx := Delta(previous.value.tx, now.tx);
      if rx == 0 && tx == 0 { return; }
      var points := [(Slot(periodStart, Group(tag, false)), rx), (Slot(periodStart, Group(tag, true)), tx)];
      TwoAdded(minute, points);
      UpsertTrafficMinute(points);
    }

    method RollupToHour(start: int)
      modifies this`hour
      ensures hour == Rollup(minute, old(hour), start, start + HOUR)
    {
      hour := RollupInto(minute, hour, start, start + HOUR);
    }

    method RollupToDay(start: int)
      modifies this`day
      ensures day == Rollup(hour, old(day), start, start + DAY)
    {
      day := RollupInto(hour, day, start, start + DAY);
    }

    method RollUp(now: int, offset: int)
      modifies this`hour, this`day
      ensures Abs() == RunRollups(old(Abs()), now, offset)
    {
      hide Rollup;
      RollupToHour(Floor(now, HOUR));
      RollupToHour(Floor(now - HOUR, HOUR));
      var dayStart := DayStart(now, offset);
      RollupToDay(dayStart);
      RollupToDay(dayStart - DAY);
    }
  }

  function AllAdded(m: Table, points: seq<(Slot, int)>): Table {
    if points == [] then m
    else Added(AllAdded(m, points[..|points| - 1]), points[|points| - 1].0, points[|points| - 1].1)
  }

  lemma TwoAdded(m: Table, points: seq<(Slot, int)>)
    requires |points| == 2
    ensures AllAdded(m, points) == Added(Added(m, points[0].0, points[0].1), points[1].0, points[1].1)
  {
    assert points[..1][..0] == [] && points[..1][0] == points[0];
    assert AllAdded(m, points[..1]) == Added(AllAdded(m, points[..1][..0]), points[0].0, points[0].1);
  }

  method SumOf(m: Table) returns (sum: int)
    ensures sum == Total(m)
  {
    var rest := m;
    sum := 0;
    while rest != map[]
      invariant sum + Total(rest) == Total(m)
      decreases |rest|
    {
      var s :| s in rest;
      TotalWithout(rest, s);
      sum := sum + rest[s];
      rest := rest - {s};
    }
  }

  /** The rollup is done but for these groups. */
  ghost predicate RolledBut(r: Table, from: Table, to: Table, start: int, end: int, todo: set<Group>) {
    && todo <= Groups(from, start, end)
    && r.Keys == to.Keys + (set g | g in Groups(from, start, end) && g !in todo :: Slot(start, g))
    && forall s :: s in r ==>
         r[s] == if s.start == start && s.group in Groups(from, start, end) && s.group !in todo
                 then Total(Window(from, start, end, s.group)) else to[s]
  }

  lemma RollOne(r: Table, from: Table, to: Table, start: int, end: int, todo: set<Group>, g: Group)
    requires RolledBut(r, from, to, start, end, todo) && g in todo
    ensures RolledBut(r[Slot(start, g) := Total(Window(from, start, end, g))], from, to, start, end, todo - {g})
  {
    hide Total, Window, Groups;
  }

  lemma RollStartsAndEnds(r: Table, from: Table, to: Table, start: int, end: int)
    ensures RolledBut(to, from, to, start, end, Groups(from, start, end))
    ensures RolledBut(r, from, to, start, end, {}) ==> r == Rollup(from, to, start, end)
  {
    hide Total, Window, Groups;
  }

  method RollupInto(from: Table, to: Table, start: int, end: int) returns (r: Table)
    ensures r == Rollup(from, to, start, end)
  {
    hide Total, RolledBut, Rollup;
    var todo := Groups(from, start, end);
    r := to;
    RollStartsAndEnds(r, from, to, start, end);
    while todo != {}
      invariant RolledBut(r, from, to, start, end, todo)
    {
      var g :| g in todo;
      var sum := SumOf(Window(from, start, end, g));
      RollOne(r, from, to, start, end, todo, g);
      r := r[Slot(start, g) := sum];
      todo := todo - {g};
    }
    RollStartsAndEnds(r, from, to, start, end);
  }
}
