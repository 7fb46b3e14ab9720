/** src/pages/Dashboard.tsx: the "recent attendance" list, made by sorting
    the shared seed array of attendance records newest first, in place,
    and keeping the first five; and the two values of the pie chart. */
module DashboardPage {
  import opened Data

  /** Non-increasing by date: every record is at least as recent as every
      record after it. */
  predicate NewestFirst(s: seq<AttendanceRecord>)
  {
    forall i, j :: 0 <= i < j < |s| ==> s[i].date >= s[j].date
  }

  const RecentCount: nat := 5

  function Min(a: nat, b: nat): nat
  {
    if a <= b then a else b
  }

  /** `.slice(0, 5)` of a list ordered newest first: the five most recent
      records, still ordered, with nothing left out more recent than
      anything kept. */
  function Recent(s: seq<AttendanceRecord>): (r: seq<AttendanceRecord>)
    requires NewestFirst(s)
    ensures |r| == Min(RecentCount, |s|)
    ensures r <= s
    ensures NewestFirst(r)
    ensures forall i, j :: 0 <= i < |r| <= j < |s| ==> s[j].date <= r[i].date
  {
    s[..Min(RecentCount, |s|)]
  }

  /** `records.sort((a, b) => b.date - a.date)`: an insertion sort by
      adjacent swaps, newest first. The array itself is reordered. */
  method SortNewestFirst(a: array<AttendanceRecord>)
    modifies a
    ensures NewestFirst(a[..])
    ensures multiset(a[..]) == multiset(old(a[..]))
  {
    if a.Length <= 1 {
      assert a[..a.Length] == a[..];
      return;
    }
    var i := 1;
    while i < a.Length
      invariant 1 <= i <= a.Length
      invariant NewestFirst(a[..i])
      invariant multiset(a[..]) == multiset(old(a[..]))
    {
      InsertNewest(a, i);
      i := i + 1;
    }
    assert a[..a.Length] == a[..];
  }

  /** One pass of the sort: the record at `i` moves left past every older
      record, so that the first `i + 1` records are in order. */
  method InsertNewest(a: array<AttendanceRecord>, i: nat)
    requires i < a.Length && NewestFirst(a[..i])
    modifies a
    ensures NewestFirst(a[..i + 1])
    ensures multiset(a[..]) == multiset(old(a[..]))
  {
    var j := i;
    while j > 0 && a[j - 1].date < a[j].date
      invariant 0 <= j <= i
      invariant forall k, l :: 0 <= k < l <= i && k != j && l != j ==> a[k].date >= a[l].date
      invariant forall l :: j < l <= i ==> a[j].date > a[l].date
      invariant multiset(a[..]) == multiset(old(a[..]))
    {
      Swap(a, j - 1, j);
      j := j - 1;
    }
  }

  /** Exchanges two records of the array. */
  method Swap(a: array<AttendanceRecord>, i: nat, j: nat)
    requires i < a.Length && j < a.Length
    modifies a
    ensures a[..] == old(a[..])[i := old(a[j])][j := old(a[i])]
    ensures multiset(a[..]) == multiset(old(a[..]))
  {
    a[i], a[j] := a[j], a[i];
  }

  /** `recentAttendance`: sorts the records in place, then returns the
      first five. */
  method RecentAttendance(records: array<AttendanceRecord>) returns (recent: seq<AttendanceRecord>)
    modifies records
    ensures multiset(records[..]) == multiset(old(records[..]))
    ensures NewestFirst(records[..])
    ensures recent == Recent(records[..])
    ensures |recent| == Min(RecentCount, records.Length)
  {
    SortNewestFirst(records);
    recent := records[..Min(RecentCount, records.Length)];
  }

  /** One slice of the pie chart. */
  datatype Slice = Slice(name: string, value: int)

  /** `attendanceDistribution`: today's present and absent counts. */
  function AttendanceDistribution(today: AttendanceSummary): (d: seq<Slice>)
    ensures |d| == 2 && d[0].name == "Present" && d[1].name == "Absent"
  {
    [Slice("Present", today.present), Slice("Absent", today.absent)]
  }

  function SliceTotal(d: seq<Slice>): int
  {
    if d == [] then 0 else d[0].value + SliceTotal(d[1..])
  }

  /** The pie covers the whole day: its slices add up to the day's total
      whenever the summary's counts add up. */
  lemma DistributionCoversTotal(today: AttendanceSummary)
    requires today.present + today.absent == today.total
    ensures SliceTotal(AttendanceDistribution(today)) == today.total
    ensures AttendanceDistribution(today)[0].value == today.present
    ensures AttendanceDistribution(today)[1].value == today.absent
  {
    var d := AttendanceDistribution(today);
    assert d[1..][1..] == [];
    assert SliceTotal(d[1..]) == d[1].value;
  }

  /** On the seeded figures the pie shows 38 present and 7 absent. */
  lemma TodayDistribution()
    ensures AttendanceDistribution(TodayAttendance) == [Slice("Present", 38), Slice("Absent", 7)]
    ensures SliceTotal(AttendanceDistribution(TodayAttendance)) == TodayAttendance.total
  {
    DemoSummaries();
    DistributionCoversTotal(TodayAttendance);
  }
}
