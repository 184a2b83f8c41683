/** The per-folder daily reading streak. Dates are day numbers, so "yesterday" is `today - 1`. */
module Streaks {
  import opened Results

  /** A folder's streak fields: the day of the last progress update (None: never) and the count. */
  datatype StreakRecord = StreakRecord(lastReadDate: Option<int>, streakCount: int)

  /** The streak after progress is recorded on day `today`: one more after a read yesterday,
      unchanged after a read earlier today, restarted at 1 otherwise; the date becomes today. */
  function Record(s: StreakRecord, today: int): (r: StreakRecord)
    ensures r.lastReadDate == Some(today)
    ensures s.lastReadDate == Some(today - 1) ==> r.streakCount == s.streakCount + 1
    ensures s.lastReadDate == Some(today) ==> r.streakCount == s.streakCount
    ensures s.lastReadDate != Some(today - 1) && s.lastReadDate != Some(today) ==> r.streakCount == 1
  {
    var count :=
      if s.lastReadDate == Some(today - 1) then s.streakCount + 1
      else if s.lastReadDate != Some(today) then 1
      else s.streakCount;
    StreakRecord(Some(today), count)
  }

  /** Recording twice on the same day is the same as recording once. */
  lemma RecordSameDayIdempotent(s: StreakRecord, today: int)
    ensures Record(Record(s, today), today) == Record(s, today)
  {
  }

  /** The streak after progress is recorded on each of `days` in turn. */
  function Replay(s: StreakRecord, days: seq<int>): (r: StreakRecord)
    ensures days == [] ==> r == s
    ensures days != [] ==> r.lastReadDate == Some(days[|days| - 1])
    decreases |days|
  {
    if days == [] then s else Record(Replay(s, days[..|days| - 1]), days[|days| - 1])
  }

  /** The clock does not go backwards between updates. */
  ghost predicate Chronological(days: seq<int>) {
    forall i, j :: 0 <= i <= j < |days| ==> days[i] <= days[j]
  }

  /** Any number of updates on one day count as one. */
  lemma {:induction false} ReplaySameDay(s: StreakRecord, today: int, days: seq<int>)
    requires days != []
    requires forall i :: 0 <= i < |days| ==> days[i] == today
    ensures Replay(s, days) == Record(s, today)
  {
    var n := |days|;
    if n > 1 {
      ReplaySameDay(s, today, days[..n - 1]);
      RecordSameDayIdempotent(s, today);
    }
  }

  /** Reading on `n` consecutive days right after the last read day adds `n` to the streak. */
  lemma {:induction false} ReplayConsecutiveDays(s: StreakRecord, first: int, n: nat)
    requires s.lastReadDate == Some(first - 1)
    ensures Replay(s, seq(n, i => first + i)) == StreakRecord(if n == 0 then Some(first - 1) else Some(first + n - 1), s.streakCount + n)
  {
    if n > 0 {
      var days := seq(n, i => first + i);
      assert days[..n - 1] == seq(n - 1, i => first + i);
      ReplayConsecutiveDays(s, first, n - 1);
    }
  }

  /** Starting from a folder never read, the streak after any chronological run of updates is the
      length of the unbroken block of calendar days ending on the last update: every day of that block
      saw an update, and the day before it did not. */
  lemma {:induction false} StreakIsConsecutiveRun(count: int, days: seq<int>)
    requires days != []
    requires Chronological(days)
    ensures var r := Replay(StreakRecord(None, count), days);
            var last := days[|days| - 1];
            && r.streakCount >= 1
            && (forall d :: last - r.streakCount < d <= last ==> d in days)
            && last - r.streakCount !in days
  {
    var n := |days|;
    var last := days[n - 1];
    if n == 1 {
      assert days == [last];
    } else {
      var prefix := days[..n - 1];
      assert days == prefix + [last];
      var p := prefix[n - 2];
      assert Chronological(prefix);
      StreakIsConsecutiveRun(count, prefix);
      var prev := Replay(StreakRecord(None, count), prefix);
      assert prev.lastReadDate == Some(p);
      var k := prev.streakCount;
      forall x | x in prefix
        ensures x <= p
      {
        var i :| 0 <= i < n - 1 && prefix[i] == x;
        assert days[i] <= days[n - 2];
      }
      var r := Record(prev, last);
      assert p <= last;
      if last == p {
        assert r.streakCount == k;
      } else if last == p + 1 {
        assert r.streakCount == k + 1;
        forall d | last - r.streakCount < d <= last
          ensures d in days
        {
          if d < last {
            assert p - k < d <= p;
            assert d in prefix;
          }
        }
      } else {
        assert r.streakCount == 1;
        assert last - 1 !in prefix;
      }
    }
  }
}
