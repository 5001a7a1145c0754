/** The clap actions: `toggleLike` (bounded per-visitor increment, with a
    rate check on a visitor's first clap for a post) and `getLikes` (the
    post's total and the visitor's own count). */
module Claps {
  import opened Seqs
  import opened Schema
  import opened RateLimit

  const LikeAction := "like"
  /** The like profile as `toggleLike` passes it: a 50-minute window, at most 5 first claps. */
  const LikeWindowMinutes := 50
  const LikeMaxActions := 5

  datatype Clap = Clap(clapped: bool, userClaps: int, totalClaps: int)
  datatype ClapStatus = ClapStatus(count: int, userClaps: int)

  function Visitor(slug: string, ip: string): Like -> bool
  {
    (l: Like) => IsVisitor(l, slug, ip)
  }

  /** `SELECT ... FROM likes WHERE post_slug = ? AND ip_address = ?` then `.first()`:
      the index of the first row of this visitor on this post. */
  function FindLike(likes: seq<Like>, slug: string, ip: string): (r: Option<nat>)
    ensures r.Some? ==> r.value < |likes| && IsVisitor(likes[r.value], slug, ip)
    ensures r.Some? ==> forall j | 0 <= j < r.value :: !IsVisitor(likes[j], slug, ip)
    ensures r.None? ==> forall j | 0 <= j < |likes| :: !IsVisitor(likes[j], slug, ip)
  {
    if |likes| == 0 then None
    else if IsVisitor(likes[0], slug, ip) then Some(0)
    else
      match FindLike(likes[1..], slug, ip)
      case None => None
      case Some(k) => Some(k + 1)
  }

  function OnPost(slug: string): Like -> bool
  {
    (l: Like) => l.postSlug == slug
  }

  function ClapsOf(l: Like): int
  {
    l.clapCount
  }

  /** `SELECT COALESCE(SUM(clap_count), 0) FROM likes WHERE post_slug = ?` */
  function TotalClaps(likes: seq<Like>, slug: string): int
  {
    SumBy(Filter(likes, OnPost(slug)), ClapsOf)
  }

  /** `UPDATE likes SET clap_count = clap_count + 1, updated_at = ? WHERE post_slug = ? AND ip_address = ?` */
  function Bump(likes: seq<Like>, slug: string, ip: string, now: int): seq<Like>
  {
    seq(|likes|, i requires 0 <= i < |likes| =>
      if IsVisitor(likes[i], slug, ip)
      then likes[i].(clapCount := likes[i].clapCount + 1, updatedAt := now)
      else likes[i])
  }

  /** `toggleLike` for the visitor that `h` identifies. */
  function ToggleLike(db: Db, slug: string, h: Headers, now: int): (s: Step<Clap>)
    // Claps touch only the likes and rate-limit tables.
    ensures s.db.comments == db.comments && s.db.nextId == db.nextId
    // A visitor at the ceiling is refused and nothing changes.
    ensures var k := FindLike(db.likes, slug, ClientIp(h));
            k.Some? && db.likes[k.value].clapCount >= MaxClaps ==> s == Step(db, Err(MaxClapsReached))
    // A returning visitor is never rate-checked; a first clap is, and a denial writes no like.
    ensures FindLike(db.likes, slug, ClientIp(h)).Some? ==> s.db.rateLimits == db.rateLimits
    ensures FindLike(db.likes, slug, ClientIp(h)).None? ==>
              var a := CheckRateLimit(db.rateLimits, ClientIp(h), LikeAction,
                                      LikeWindowMinutes, LikeMaxActions, now);
              && s.db.rateLimits == a.records
              && (s.out.Ok? <==> a.admitted)
              && (!a.admitted ==> s.out == Err(TooManyActions))
    ensures s.out.Err? ==> s.db.likes == db.likes
    // The reported total is the post's sum over all visitors, after the clap.
    ensures s.out.Ok? ==> s.out.value.clapped && s.out.value.totalClaps == TotalClaps(s.db.likes, slug)
  {
    var ip := ClientIp(h);
    match FindLike(db.likes, slug, ip)
    case Some(k) =>
      // `existing.clap_count || 1`
      var current := if db.likes[k].clapCount == 0 then 1 else db.likes[k].clapCount;
      if current >= MaxClaps then Step(db, Err(MaxClapsReached))
      else
        var likes' := Bump(db.likes, slug, ip, now);
        Step(db.(likes := likes'), Ok(Clap(true, current + 1, TotalClaps(likes', slug))))
    case None =>
      var a := CheckRateLimit(db.rateLimits, ip, LikeAction, LikeWindowMinutes, LikeMaxActions, now);
      if !a.admitted then Step(db.(rateLimits := a.records), Err(TooManyActions))
      else
        var likes' := db.likes + [Like(slug, ip, 1, now, now)];
        Step(db.(likes := likes', rateLimits := a.records), Ok(Clap(true, 1, TotalClaps(likes', slug))))
  }

  /** `getLikes` for the visitor that `h` identifies; a pure read. */
  function GetLikes(db: Db, slug: string, h: Headers): (r: ClapStatus)
    ensures r.count == TotalClaps(db.likes, slug)
    ensures FindLike(db.likes, slug, ClientIp(h)).None? ==> r.userClaps == 0
  {
    var userClaps := match FindLike(db.likes, slug, ClientIp(h))
      case Some(k) => db.likes[k].clapCount
      case None => 0;
    ClapStatus(TotalClaps(db.likes, slug), userClaps)
  }

  lemma {:induction false} TotalAfterBump(likes: seq<Like>, slug: string, ip: string, now: int)
    ensures TotalClaps(Bump(likes, slug, ip, now), slug) == TotalClaps(likes, slug) + Count(likes, Visitor(slug, ip))
  {
    if |likes| > 0 {
      assert Bump(likes, slug, ip, now)[1..] == Bump(likes[1..], slug, ip, now);
      TotalAfterBump(likes[1..], slug, ip, now);
      var b := Bump(likes, slug, ip, now);
      if OnPost(slug)(b[0]) {
        assert Filter(b, OnPost(slug)) == [b[0]] + Filter(b[1..], OnPost(slug));
        assert ([b[0]] + Filter(b[1..], OnPost(slug)))[1..] == Filter(b[1..], OnPost(slug));
      }
      if OnPost(slug)(likes[0]) {
        assert ([likes[0]] + Filter(likes[1..], OnPost(slug)))[1..] == Filter(likes[1..], OnPost(slug));
      }
    }
  }

  /** Rows are unique per visitor, so a visitor has one row or none. */
  lemma {:induction false} VisitorRows(likes: seq<Like>, slug: string, ip: string)
    requires Pairwise(likes, DistinctVisitors)
    ensures Count(likes, Visitor(slug, ip)) == if FindLike(likes, slug, ip).Some? then 1 else 0
  {
    if |likes| > 0 {
      assert Pairwise(likes[1..], DistinctVisitors);
      VisitorRows(likes[1..], slug, ip);
      if IsVisitor(likes[0], slug, ip) {
        forall j | 1 <= j < |likes|
          ensures !IsVisitor(likes[j], slug, ip)
        {
          assert DistinctVisitors(likes[0], likes[j]);
        }
        assert forall x | x in likes[1..] :: !Visitor(slug, ip)(x);
      }
    }
  }

  /** `FindLike` looks only at the keys of the rows. */
  lemma FindLikeSameKeys(a: seq<Like>, b: seq<Like>, slug: string, ip: string)
    requires |a| == |b|
    requires forall i | 0 <= i < |a| :: IsVisitor(a[i], slug, ip) == IsVisitor(b[i], slug, ip)
    ensures FindLike(a, slug, ip) == FindLike(b, slug, ip)
  {
  }

  /** Claps keep every row unique per visitor and within 1..50. */
  lemma ToggleLikePreservesValid(db: Db, slug: string, h: Headers, now: int)
    requires Valid(db)
    ensures Valid(ToggleLike(db, slug, h, now).db)
  {
    var ip := ClientIp(h);
    var s := ToggleLike(db, slug, h, now);
    if s.out.Ok? {
      match FindLike(db.likes, slug, ip)
      case Some(k) =>
        BumpKeepsRowsValid(db.likes, slug, ip, now, k);
      case None =>
        AppendKeepsRowsValid(db.likes, slug, ip, now);
    }
  }

  lemma BumpKeepsRowsValid(likes: seq<Like>, slug: string, ip: string, now: int, k: nat)
    requires Pairwise(likes, DistinctVisitors)
    requires forall i | 0 <= i < |likes| :: 1 <= likes[i].clapCount <= MaxClaps
    requires FindLike(likes, slug, ip) == Some(k) && likes[k].clapCount < MaxClaps
    ensures var b := Bump(likes, slug, ip, now);
            && Pairwise(b, DistinctVisitors)
            && forall i | 0 <= i < |b| :: 1 <= b[i].clapCount <= MaxClaps
  {
    var b := Bump(likes, slug, ip, now);
    forall i, j | 0 <= i < j < |b|
      ensures DistinctVisitors(b[i], b[j])
    {
      assert DistinctVisitors(likes[i], likes[j]);
    }
    forall i | 0 <= i < |b|
      ensures 1 <= b[i].clapCount <= MaxClaps
    {
      OnlyVisitorRow(likes, slug, ip, k, i);
    }
  }

  /** Under unique visitor rows, the first row of a visitor is its only one. */
  lemma OnlyVisitorRow(likes: seq<Like>, slug: string, ip: string, k: nat, i: nat)
    requires Pairwise(likes, DistinctVisitors)
    requires FindLike(likes, slug, ip) == Some(k) && i < |likes|
    ensures IsVisitor(likes[i], slug, ip) ==> i == k
  {
    if i < k {
      assert DistinctVisitors(likes[i], likes[k]);
    } else if k < i {
      assert DistinctVisitors(likes[k], likes[i]);
    }
  }

  lemma AppendKeepsRowsValid(likes: seq<Like>, slug: string, ip: string, now: int)
    requires Pairwise(likes, DistinctVisitors)
    requires forall i | 0 <= i < |likes| :: 1 <= likes[i].clapCount <= MaxClaps
    requires FindLike(likes, slug, ip).None?
    ensures var a := likes + [Like(slug, ip, 1, now, now)];
            && Pairwise(a, DistinctVisitors)
            && forall i | 0 <= i < |a| :: 1 <= a[i].clapCount <= MaxClaps
  {
    var a := likes + [Like(slug, ip, 1, now, now)];
    forall i, j | 0 <= i < j < |a|
      ensures DistinctVisitors(a[i], a[j])
    {
      if j < |likes| {
        assert DistinctVisitors(likes[i], likes[j]);
      } else {
        assert !IsVisitor(likes[i], slug, ip);
      }
    }
  }

  /** A successful clap adds exactly one to the post's total, leaves every other
      visitor's row as it was, and a later `getLikes` reports exactly what the
      clap returned. */
  lemma ClapAddsOne(db: Db, slug: string, h: Headers, now: int)
    requires Valid(db)
    ensures var s := ToggleLike(db, slug, h, now);
            s.out.Ok? ==>
              && s.out.value.totalClaps == TotalClaps(db.likes, slug) + 1
              && |s.db.likes| >= |db.likes|
              && (forall i | 0 <= i < |db.likes| && !IsVisitor(db.likes[i], slug, ClientIp(h)) ::
                    s.db.likes[i] == db.likes[i])
              && GetLikes(s.db, slug, h) == ClapStatus(s.out.value.totalClaps, s.out.value.userClaps)
  {
    if FindLike(db.likes, slug, ClientIp(h)).Some? {
      RepeatClap(db, slug, h, now);
    } else {
      FirstClap(db, slug, h, now);
    }
  }

  lemma RepeatClap(db: Db, slug: string, h: Headers, now: int)
    requires Valid(db)
    requires FindLike(db.likes, slug, ClientIp(h)).Some?
    ensures var s := ToggleLike(db, slug, h, now);
            s.out.Ok? ==>
              && s.db.likes == Bump(db.likes, slug, ClientIp(h), now)
              && s.out.value.totalClaps == TotalClaps(db.likes, slug) + 1
              && GetLikes(s.db, slug, h) == ClapStatus(s.out.value.totalClaps, s.out.value.userClaps)
  {
    var ip := ClientIp(h);
    var s := ToggleLike(db, slug, h, now);
    if s.out.Ok? {
      var likes := Bump(db.likes, slug, ip, now);
      TotalAfterBump(db.likes, slug, ip, now);
      VisitorRows(db.likes, slug, ip);
      FindLikeSameKeys(db.likes, likes, slug, ip);
    }
  }

  lemma FirstClap(db: Db, slug: string, h: Headers, now: int)
    requires FindLike(db.likes, slug, ClientIp(h)).None?
    ensures var s := ToggleLike(db, slug, h, now);
            s.out.Ok? ==>
              && s.db.likes == db.likes + [Like(slug, ClientIp(h), 1, now, now)]
              && s.out.value.totalClaps == TotalClaps(db.likes, slug) + 1
              && GetLikes(s.db, slug, h) == ClapStatus(s.out.value.totalClaps, s.out.value.userClaps)
  {
    var ip := ClientIp(h);
    var s := ToggleLike(db, slug, h, now);
    if s.out.Ok? {
      var x := Like(slug, ip, 1, now, now);
      TotalAfterAppend(db.likes, x, slug);
      FindLikeAppend(db.likes, x, slug, ip);
    }
  }

  lemma TotalAfterAppend(likes: seq<Like>, x: Like, slug: string)
    requires x.postSlug == slug
    ensures TotalClaps(likes + [x], slug) == TotalClaps(likes, slug) + x.clapCount
  {
    FilterAppend(likes, [x], OnPost(slug));
    assert Filter([x], OnPost(slug)) == [x];
    SumAppend(Filter(likes, OnPost(slug)), [x], ClapsOf);
  }

  lemma {:induction false} FindLikeAppend(likes: seq<Like>, x: Like, slug: string, ip: string)
    requires FindLike(likes, slug, ip).None? && IsVisitor(x, slug, ip)
    ensures FindLike(likes + [x], slug, ip) == Some(|likes|)
  {
    if |likes| > 0 {
      assert (likes + [x])[1..] == likes[1..] + [x];
      assert !IsVisitor(likes[0], slug, ip);
      FindLikeAppend(likes[1..], x, slug, ip);
    }
  }

  /** The visitor's claps after `ToggleLike` at each of `times`. */
  function ClapRun(db: Db, slug: string, h: Headers, times: seq<int>): Db
    decreases |times|
  {
    if |times| == 0 then db
    else ClapRun(ToggleLike(db, slug, h, times[0]).db, slug, h, times[1..])
  }

  /** A returning visitor who claps n more times ends at min(c + n, 50): each
      clap adds one until the ceiling, and claps at the ceiling change nothing. */
  lemma {:induction false} ClapsSaturate(db: Db, slug: string, h: Headers, times: seq<int>)
    requires Valid(db)
    requires FindLike(db.likes, slug, ClientIp(h)).Some?
    ensures var c := GetLikes(db, slug, h).userClaps;
            GetLikes(ClapRun(db, slug, h, times), slug, h).userClaps
              == if c + |times| <= MaxClaps then c + |times| else MaxClaps
    decreases |times|
  {
    if |times| > 0 {
      var ip := ClientIp(h);
      var k := FindLike(db.likes, slug, ip).value;
      var s := ToggleLike(db, slug, h, times[0]);
      ToggleLikePreservesValid(db, slug, h, times[0]);
      ClapAddsOne(db, slug, h, times[0]);
      if s.out.Ok? {
        FindLikeSameKeys(db.likes, s.db.likes, slug, ip);
      }
      ClapsSaturate(s.db, slug, h, times[1..]);
    }
  }

  /** A visitor's own claps are part of the post's total. */
  lemma OwnClapsWithinTotal(db: Db, slug: string, h: Headers)
    requires Valid(db)
    ensures 0 <= GetLikes(db, slug, h).userClaps <= GetLikes(db, slug, h).count
  {
    var ip := ClientIp(h);
    match FindLike(db.likes, slug, ip)
    case None =>
      SumNonNegative(Filter(db.likes, OnPost(slug)));
    case Some(k) =>
      var rows := Filter(db.likes, OnPost(slug));
      assert db.likes[k] in rows;
      SumAtLeastMember(rows, db.likes[k]);
  }

  lemma {:induction false} SumNonNegative(rows: seq<Like>)
    requires forall l | l in rows :: l.clapCount >= 0
    ensures SumBy(rows, ClapsOf) >= 0
  {
    if |rows| > 0 {
      assert forall l | l in rows[1..] :: l in rows;
      SumNonNegative(rows[1..]);
    }
  }

  lemma {:induction false} SumAtLeastMember(rows: seq<Like>, x: Like)
    requires forall l | l in rows :: l.clapCount >= 0
    requires x in rows
    ensures SumBy(rows, ClapsOf) >= x.clapCount
  {
    assert forall l | l in rows[1..] :: l in rows;
    SumNonNegative(rows[1..]);
    if rows[0] != x {
      SumAtLeastMember(rows[1..], x);
    }
  }
}
