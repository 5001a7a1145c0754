/** The per-address, per-action rate limiter (`checkRateLimit`): purge
    records older than a day, count the caller's records inside the window,
    and either deny without writing or admit and record the action. */
module RateLimit {
  import opened Seqs
  import opened Schema

  const MinuteMs := 60 * 1000
  /** Rate-limit history is kept for 24 hours. */
  const RetentionMs := 24 * 60 * 60 * 1000

  function Kept(now: int): RateRecord -> bool
  {
    (r: RateRecord) => r.createdAt >= now - RetentionMs
  }

  /** Global housekeeping, for every address and action: drop records stamped
      before `now - 24h`. */
  function Purge(rs: seq<RateRecord>, now: int): (kept: seq<RateRecord>)
    ensures forall x | x in kept :: x in rs && x.createdAt >= now - RetentionMs
    ensures forall x | x in rs && x.createdAt >= now - RetentionMs :: x in kept
    // Duplicates count: every copy of a kept record survives.
    ensures forall x {:trigger multiset(kept)[x]} :: multiset(kept)[x] == if x.createdAt >= now - RetentionMs then multiset(rs)[x] else 0
  {
    FilterMultiplicities(rs, Kept(now));
    Filter(rs, Kept(now))
  }

  /** Records of `(ip, action)` stamped strictly after `windowStart`. */
  function Recent(ip: string, action: string, windowStart: int): RateRecord -> bool
  {
    (r: RateRecord) => r.ipAddress == ip && r.actionType == action && r.createdAt > windowStart
  }

  function RecentCount(rs: seq<RateRecord>, ip: string, action: string, windowStart: int): nat
  {
    Count(rs, Recent(ip, action, windowStart))
  }

  function WindowStart(now: int, windowMinutes: int): int
  {
    now - windowMinutes * MinuteMs
  }

  /** The rate-limit table afterwards, and whether the action was admitted. */
  datatype Admission = Admission(records: seq<RateRecord>, admitted: bool)

  /** `checkRateLimit(db, ip, action, windowMinutes, maxActions)` at time `now`. */
  function CheckRateLimit(
    rs: seq<RateRecord>, ip: string, action: string,
    windowMinutes: int, maxActions: int, now: int): (a: Admission)
    ensures a.admitted <==> RecentCount(Purge(rs, now), ip, action, WindowStart(now, windowMinutes)) < maxActions
    ensures !a.admitted ==> a.records == Purge(rs, now)
    ensures a.admitted ==> a.records == Purge(rs, now) + [RateRecord(ip, action, now)]
  {
    var kept := Purge(rs, now);
    if RecentCount(kept, ip, action, WindowStart(now, windowMinutes)) >= maxActions then
      Admission(kept, false)
    else
      Admission(kept + [RateRecord(ip, action, now)], true)
  }

  /** After an admission the caller's count in the same window never exceeds
      the ceiling, and it grew by exactly the one new record (when the window
      is non-empty); a denial leaves the count where the purge left it. */
  lemma AdmissionRespectsCeiling(
    rs: seq<RateRecord>, ip: string, action: string,
    windowMinutes: int, maxActions: int, now: int)
    ensures var a := CheckRateLimit(rs, ip, action, windowMinutes, maxActions, now);
            var start := WindowStart(now, windowMinutes);
            a.admitted ==>
              && RecentCount(a.records, ip, action, start)
                 == RecentCount(Purge(rs, now), ip, action, start) + (if windowMinutes > 0 then 1 else 0)
              && RecentCount(a.records, ip, action, start) <= maxActions
  {
    var kept := Purge(rs, now);
    var start := WindowStart(now, windowMinutes);
    var x := RateRecord(ip, action, now);
    assert Recent(ip, action, start)(x) <==> windowMinutes > 0 by {
      if windowMinutes > 0 {
        assert windowMinutes * MinuteMs >= MinuteMs;
      } else {
        assert windowMinutes * MinuteMs <= 0;
      }
    }
    CountAppendOne(kept, x, Recent(ip, action, start));
  }

  /** Records of other addresses or other actions never change a decision:
      inserting one anywhere in the table leaves admission as it was. */
  lemma ForeignRecordIgnored(
    before: seq<RateRecord>, after: seq<RateRecord>, x: RateRecord,
    ip: string, action: string, windowMinutes: int, maxActions: int, now: int)
    requires x.ipAddress != ip || x.actionType != action
    ensures CheckRateLimit(before + [x] + after, ip, action, windowMinutes, maxActions, now).admitted
         == CheckRateLimit(before + after, ip, action, windowMinutes, maxActions, now).admitted
  {
    var p := Recent(ip, action, WindowStart(now, windowMinutes));
    var kept := Kept(now);
    FilterAppend(before + [x], after, kept);
    FilterAppend(before, [x], kept);
    FilterAppend(before, after, kept);
    var pb := Filter(before, kept);
    var pa := Filter(after, kept);
    if kept(x) {
      assert Filter([x], kept) == [x];
      assert Purge(before + [x] + after, now) == pb + [x] + pa;
      FilterSkips(pb, x, pa, p);
    } else {
      FilterSkips(before, x, after, kept);
    }
  }

  /** Records of `(ip, action)` stamped at or after `t0`. */
  function Since(ip: string, action: string, t0: int): RateRecord -> bool
  {
    (r: RateRecord) => r.ipAddress == ip && r.actionType == action && r.createdAt >= t0
  }

  /** The table and the number of admissions after a series of checks. */
  datatype Tally = Tally(records: seq<RateRecord>, admitted: nat)

  /** The same caller and action checked at each of `times` in turn. */
  function Replay(
    rs: seq<RateRecord>, ip: string, action: string,
    windowMinutes: int, maxActions: int, times: seq<int>): (t: Tally)
    ensures t.admitted <= |times|
    decreases |times|
  {
    if |times| == 0 then Tally(rs, 0)
    else
      var a := CheckRateLimit(rs, ip, action, windowMinutes, maxActions, times[0]);
      var rest := Replay(a.records, ip, action, windowMinutes, maxActions, times[1..]);
      Tally(rest.records, rest.admitted + (if a.admitted then 1 else 0))
  }

  /** One check at `t` inside the burst `[t0, t0 + window)`: it sees at least
      the caller's records stamped since `t0`, and its purge keeps all of them. */
  lemma CheckSeesBurst(
    rs: seq<RateRecord>, ip: string, action: string,
    windowMinutes: int, t0: int, t: int)
    requires 0 < windowMinutes && windowMinutes * MinuteMs <= RetentionMs
    requires t0 <= t < t0 + windowMinutes * MinuteMs
    ensures Count(Purge(rs, t), Since(ip, action, t0)) == Count(rs, Since(ip, action, t0))
    ensures RecentCount(Purge(rs, t), ip, action, WindowStart(t, windowMinutes))
            >= Count(rs, Since(ip, action, t0))
  {
    var since := Since(ip, action, t0);
    CountAfterFilter(rs, Kept(t), since);
    CountMonotone(Purge(rs, t), since, Recent(ip, action, WindowStart(t, windowMinutes)));
  }

  lemma {:induction false} BurstBoundFrom(
    rs: seq<RateRecord>, ip: string, action: string,
    windowMinutes: int, maxActions: int, t0: int, times: seq<int>)
    requires 0 < windowMinutes && windowMinutes * MinuteMs <= RetentionMs
    requires forall i | 0 <= i < |times| :: t0 <= times[i] < t0 + windowMinutes * MinuteMs
    ensures var n := Replay(rs, ip, action, windowMinutes, maxActions, times).admitted;
            n == 0 || Count(rs, Since(ip, action, t0)) + n <= maxActions
    decreases |times|
  {
    if |times| > 0 {
      var t := times[0];
      var since := Since(ip, action, t0);
      var a := CheckRateLimit(rs, ip, action, windowMinutes, maxActions, t);
      CheckSeesBurst(rs, ip, action, windowMinutes, t0, t);
      BurstBoundFrom(a.records, ip, action, windowMinutes, maxActions, t0, times[1..]);
      if a.admitted {
        CountAppendOne(Purge(rs, t), RateRecord(ip, action, t), since);
      }
    }
  }

  /** Within any burst of checks spanning less than one window (of at most a
      day), at most `maxActions` are admitted, whatever the table held before. */
  lemma BurstBound(
    rs: seq<RateRecord>, ip: string, action: string,
    windowMinutes: int, maxActions: int, t0: int, times: seq<int>)
    requires 0 < windowMinutes && windowMinutes * MinuteMs <= RetentionMs
    requires 0 <= maxActions
    requires forall i | 0 <= i < |times| :: t0 <= times[i] < t0 + windowMinutes * MinuteMs
    ensures Replay(rs, ip, action, windowMinutes, maxActions, times).admitted <= maxActions
  {
    BurstBoundFrom(rs, ip, action, windowMinutes, maxActions, t0, times);
  }

  /** Replaying three checks admits as many as the three individual checks do. */
  lemma ReplayThree(
    rs: seq<RateRecord>, ip: string, action: string,
    windowMinutes: int, maxActions: int, t1: int, t2: int, t3: int)
    ensures var a1 := CheckRateLimit(rs, ip, action, windowMinutes, maxActions, t1);
            var a2 := CheckRateLimit(a1.records, ip, action, windowMinutes, maxActions, t2);
            var a3 := CheckRateLimit(a2.records, ip, action, windowMinutes, maxActions, t3);
            Replay(rs, ip, action, windowMinutes, maxActions, [t1, t2, t3]).admitted
              == (if a1.admitted then 1 else 0) + (if a2.admitted then 1 else 0) + (if a3.admitted then 1 else 0)
  {
    var a1 := CheckRateLimit(rs, ip, action, windowMinutes, maxActions, t1);
    var a2 := CheckRateLimit(a1.records, ip, action, windowMinutes, maxActions, t2);
    assert [t1, t2, t3][1..] == [t2, t3] && [t2, t3][1..] == [t3] && [t3][1..] == [];
    assert Replay(a2.records, ip, action, windowMinutes, maxActions, [t3]).admitted
        == (if CheckRateLimit(a2.records, ip, action, windowMinutes, maxActions, t3).admitted then 1 else 0);
  }

  /** Three checks inside one window with a ceiling of two: if the first two
      are admitted, the third is denied. */
  lemma TwoAdmittedThenDenied(
    rs: seq<RateRecord>, ip: string, action: string,
    windowMinutes: int, maxActions: int, t1: int, t2: int, t3: int)
    requires 0 < windowMinutes && windowMinutes * MinuteMs <= RetentionMs
    requires maxActions == 2
    requires t1 <= t2 < t1 + windowMinutes * MinuteMs
    requires t1 <= t3 < t1 + windowMinutes * MinuteMs
    ensures var a1 := CheckRateLimit(rs, ip, action, windowMinutes, maxActions, t1);
            var a2 := CheckRateLimit(a1.records, ip, action, windowMinutes, maxActions, t2);
            var a3 := CheckRateLimit(a2.records, ip, action, windowMinutes, maxActions, t3);
            a1.admitted && a2.admitted ==> !a3.admitted
  {
    var times := [t1, t2, t3];
    assert forall i | 0 <= i < |times| :: t1 <= times[i] < t1 + windowMinutes * MinuteMs;
    BurstBound(rs, ip, action, windowMinutes, maxActions, t1, times);
    ReplayThree(rs, ip, action, windowMinutes, maxActions, t1, t2, t3);
  }
}
