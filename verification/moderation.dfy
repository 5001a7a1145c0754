/** The admin actions: `adminGetAllComments`, `adminUpdateComment` and
    `adminGetStats`. Each is gated by the configured `ADMIN_KEY`: when it is
    missing, empty, or differs from the supplied key the action throws
    `Unauthorized` before touching anything. */
module Moderation {
  import opened Seqs
  import opened Schema
  import Comments

  /** The `status` argument of `adminGetAllComments`. */
  datatype StatusFilter = All | PendingOnly | ApprovedOnly | SpamOnly

  /** The handler's status map: the `approved` value a filter selects, or
      none for no filter and for `all`. */
  function FilterCode(filter: Option<StatusFilter>): Option<int>
  {
    match filter
    case None => None
    case Some(All) => None
    case Some(PendingOnly) => Some(0)
    case Some(ApprovedOnly) => Some(1)
    case Some(SpamOnly) => Some(-1)
  }

  /** Rows whose stored `approved` column equals `code`. */
  function CodeIs(code: int): Comment -> bool
  {
    (c: Comment) => StatusCode(c.status) == code
  }

  /** `WHERE approved = ?` when a status other than `all` is given. */
  predicate IsSelected(filter: Option<StatusFilter>, c: Comment)
  {
    FilterCode(filter).None? || StatusCode(c.status) == FilterCode(filter).value
  }

  function Selected(filter: Option<StatusFilter>): Comment -> bool
  {
    (c: Comment) => IsSelected(filter, c)
  }

  /** The columns `adminGetAllComments` selects (all but the user agent). */
  datatype AdminRow = AdminRow(
    id: int, postSlug: string, authorName: string, content: string,
    createdAt: int, ipAddress: string, status: Status)

  function AdminView(c: Comment): AdminRow
  {
    AdminRow(c.id, c.postSlug, c.authorName, c.content, c.createdAt, c.ipAddress, c.status)
  }

  function AdminViews(cs: seq<Comment>): (rs: seq<AdminRow>)
    ensures |rs| == |cs|
    ensures forall i | 0 <= i < |cs| :: rs[i] == AdminView(cs[i])
  {
    seq(|cs|, i requires 0 <= i < |cs| => AdminView(cs[i]))
  }

  function NewestFirst(r: AdminRow): int
  {
    -r.createdAt
  }

  /** The selected rows, `ORDER BY created_at DESC`, before any `LIMIT`. */
  function Selection(db: Db, filter: Option<StatusFilter>): (rows: seq<AdminRow>)
    ensures forall i, j | 0 <= i < j < |rows| :: rows[i].createdAt >= rows[j].createdAt
    ensures multiset(rows) == multiset(AdminViews(Filter(db.comments, Selected(filter))))
  {
    var rows := SortByKey(AdminViews(Filter(db.comments, Selected(filter))), NewestFirst);
    assert forall i, j | 0 <= i < j < |rows| :: NewestFirst(rows[i]) <= NewestFirst(rows[j]);
    rows
  }

  datatype CommentPage = CommentPage(comments: seq<AdminRow>, count: nat)

  /** `adminGetAllComments`. A `limit` of zero is falsy and adds no `LIMIT`;
      a negative `LIMIT` places no bound in SQLite. */
  function AdminGetAllComments(
    db: Db, adminKey: Option<string>, supplied: string,
    filter: Option<StatusFilter>, limit: Option<int>): (r: Result<CommentPage>)
    ensures !Authorized(adminKey, supplied) ==> r == Err(Unauthorized)
    ensures Authorized(adminKey, supplied) ==> r.Ok? && r.value.count == |r.value.comments|
    // The page is the newest part of the selection: a prefix of it in newest-first order.
    ensures r.Ok? ==>
              var all := Selection(db, filter);
              |r.value.comments| <= |all| && r.value.comments == all[..|r.value.comments|]
    ensures r.Ok? && limit.Some? && limit.value > 0 ==>
              |r.value.comments| == if limit.value < |Selection(db, filter)| then limit.value else |Selection(db, filter)|
    ensures r.Ok? && (limit.None? || limit.value <= 0) ==> r.value.comments == Selection(db, filter)
  {
    if !Authorized(adminKey, supplied) then Err(Unauthorized)
    else
      var all := Selection(db, filter);
      var page := if limit.Some? && 0 < limit.value < |all| then all[..limit.value] else all;
      Ok(CommentPage(page, |page|))
  }

  /** The `action` argument of `adminUpdateComment`. */
  datatype ModAction = Approve | Reject | Delete

  datatype Ack = Ack(success: bool, message: string)

  /** `UPDATE comments SET approved = ? WHERE id = ?` */
  function SetStatus(cs: seq<Comment>, id: int, st: Status): seq<Comment>
  {
    seq(|cs|, i requires 0 <= i < |cs| => if cs[i].id == id then cs[i].(status := st) else cs[i])
  }

  function Keeps(id: int): Comment -> bool
  {
    (c: Comment) => c.id != id
  }

  /** `adminUpdateComment`. Approving, rejecting or deleting an id that no row
      has still reports success. */
  function AdminUpdateComment(
    db: Db, adminKey: Option<string>, supplied: string,
    commentId: int, action: ModAction): (s: Step<Ack>)
    ensures !Authorized(adminKey, supplied) ==> s == Step(db, Err(Unauthorized))
    ensures Authorized(adminKey, supplied) ==> s.out.Ok? && s.out.value.success
    // Only the comments table can change.
    ensures s.db.likes == db.likes && s.db.rateLimits == db.rateLimits && s.db.nextId == db.nextId
    // Approve and reject rewrite the status of the named row and of no other.
    ensures s.out.Ok? && action != Delete ==>
              && |s.db.comments| == |db.comments|
              && forall i | 0 <= i < |db.comments| ::
                   s.db.comments[i] == if db.comments[i].id == commentId
                                       then db.comments[i].(status := if action == Approve then Approved else Spam)
                                       else db.comments[i]
    // Delete removes the named row and keeps every other one.
    ensures s.out.Ok? && action == Delete ==>
              && (forall c | c in s.db.comments :: c in db.comments && c.id != commentId)
              && (forall c | c in db.comments && c.id != commentId :: c in s.db.comments)
  {
    if !Authorized(adminKey, supplied) then Step(db, Err(Unauthorized))
    else
      match action
      case Delete =>
        Step(db.(comments := Filter(db.comments, Keeps(commentId))), Ok(Ack(true, "Comment deleted")))
      case Approve =>
        Step(db.(comments := SetStatus(db.comments, commentId, Approved)), Ok(Ack(true, "Comment approved")))
      case Reject =>
        Step(db.(comments := SetStatus(db.comments, commentId, Spam)), Ok(Ack(true, "Comment marked as spam")))
  }

  datatype CommentCounts = CommentCounts(approved: nat, pending: nat, spam: nat, total: nat)
  datatype Stats = Stats(comments: CommentCounts, likes: nat)

  /** `adminGetStats`: comments per status, their sum, and the number of like rows. */
  function AdminGetStats(db: Db, adminKey: Option<string>, supplied: string): (r: Result<Stats>)
    ensures !Authorized(adminKey, supplied) ==> r == Err(Unauthorized)
    ensures Authorized(adminKey, supplied) ==> r.Ok?
    ensures r.Ok? ==> r.value.likes == |db.likes|
  {
    if !Authorized(adminKey, supplied) then Err(Unauthorized)
    else
      var approved := Count(db.comments, CodeIs(1));
      var pending := Count(db.comments, CodeIs(0));
      var spam := Count(db.comments, CodeIs(-1));
      Ok(Stats(CommentCounts(approved, pending, spam, approved + pending + spam), |db.likes|))
  }

  lemma {:induction false} StatusPartition(cs: seq<Comment>)
    ensures Count(cs, CodeIs(1)) + Count(cs, CodeIs(0)) + Count(cs, CodeIs(-1)) == |cs|
  {
    if |cs| > 0 {
      StatusPartition(cs[1..]);
    }
  }

  /** Every comment has exactly one status, so the reported total is the
      number of comment rows. */
  lemma StatsTotalIsRowCount(db: Db, adminKey: Option<string>, supplied: string)
    ensures var r := AdminGetStats(db, adminKey, supplied);
            r.Ok? ==> r.value.comments.total == |db.comments|
  {
    StatusPartition(db.comments);
  }

  /** Each figure of the statistics is the size of the listing with the
      matching status filter. */
  lemma StatsAgreeWithListing(db: Db, key: string)
    requires Authorized(Some(key), key)
    ensures var st := AdminGetStats(db, Some(key), key).value.comments;
            && st.total == AdminGetAllComments(db, Some(key), key, Some(All), None).value.count
            && st.approved == AdminGetAllComments(db, Some(key), key, Some(ApprovedOnly), None).value.count
            && st.pending == AdminGetAllComments(db, Some(key), key, Some(PendingOnly), None).value.count
            && st.spam == AdminGetAllComments(db, Some(key), key, Some(SpamOnly), None).value.count
  {
    var st := AdminGetStats(db, Some(key), key).value.comments;
    assert st.approved == Count(db.comments, CodeIs(1));
    assert st.pending == Count(db.comments, CodeIs(0));
    assert st.spam == Count(db.comments, CodeIs(-1));
    StatsTotalIsRowCount(db, Some(key), key);
    UnfilteredListingCount(db, key);
    CodedListingCount(db, key, Some(ApprovedOnly), 1);
    CodedListingCount(db, key, Some(PendingOnly), 0);
    CodedListingCount(db, key, Some(SpamOnly), -1);
  }

  lemma UnfilteredListingCount(db: Db, key: string)
    requires Authorized(Some(key), key)
    ensures AdminGetAllComments(db, Some(key), key, Some(All), None).value.count == |db.comments|
  {
    var any := (c: Comment) => true;
    AllKept(db.comments, any);
    ListingCount(db, key, Some(All), any);
  }

  lemma CodedListingCount(db: Db, key: string, filter: Option<StatusFilter>, code: int)
    requires Authorized(Some(key), key) && FilterCode(filter) == Some(code)
    ensures AdminGetAllComments(db, Some(key), key, filter, None).value.count == Count(db.comments, CodeIs(code))
  {
    ListingCount(db, key, filter, CodeIs(code));
  }

  lemma ListingCount(db: Db, key: string, filter: Option<StatusFilter>, p: Comment -> bool)
    requires Authorized(Some(key), key)
    requires forall c | c in db.comments :: Selected(filter)(c) == p(c)
    ensures AdminGetAllComments(db, Some(key), key, filter, None).value.count == Count(db.comments, p)
  {
    SelectionSize(db, filter, p);
  }

  lemma SelectionSize(db: Db, filter: Option<StatusFilter>, p: Comment -> bool)
    requires forall c | c in db.comments :: Selected(filter)(c) == p(c)
    ensures |Selection(db, filter)| == Count(db.comments, p)
  {
    var rows := Selection(db, filter);
    assert |rows| == |multiset(rows)|;
    SameFilter(db.comments, Selected(filter), p);
  }

  lemma {:induction false} SameFilter(cs: seq<Comment>, p: Comment -> bool, q: Comment -> bool)
    requires forall c | c in cs :: p(c) == q(c)
    ensures Filter(cs, p) == Filter(cs, q)
  {
    if |cs| > 0 {
      assert forall c | c in cs[1..] :: c in cs;
      SameFilter(cs[1..], p, q);
    }
  }

  lemma UpdatePreservesValid(db: Db, adminKey: Option<string>, supplied: string, commentId: int, action: ModAction)
    requires Valid(db)
    ensures Valid(AdminUpdateComment(db, adminKey, supplied, commentId, action).db)
  {
    var s := AdminUpdateComment(db, adminKey, supplied, commentId, action);
    if s.out.Ok? {
      if action == Delete {
        FilterPairwise(db.comments, Keeps(commentId), IdBefore);
      } else {
        var cs := s.db.comments;
        forall i, j | 0 <= i < j < |cs|
          ensures IdBefore(cs[i], cs[j])
        {
          assert IdBefore(db.comments[i], db.comments[j]);
        }
      }
    }
  }

  /** Repeating a moderation action changes nothing more. */
  lemma ModerationIdempotent(db: Db, adminKey: Option<string>, supplied: string, commentId: int, action: ModAction)
    ensures var s1 := AdminUpdateComment(db, adminKey, supplied, commentId, action);
            AdminUpdateComment(s1.db, adminKey, supplied, commentId, action) == s1
  {
    var s1 := AdminUpdateComment(db, adminKey, supplied, commentId, action);
    if Authorized(adminKey, supplied) {
      if action == Delete {
        var cs := s1.db.comments;
        assert forall c | c in cs :: Keeps(commentId)(c);
        AllKept(cs, Keeps(commentId));
      } else {
        var st := if action == Approve then Approved else Spam;
        assert SetStatus(s1.db.comments, commentId, st) == s1.db.comments;
      }
    }
  }

  lemma {:induction false} AllKept(cs: seq<Comment>, p: Comment -> bool)
    requires forall c | c in cs :: p(c)
    ensures Filter(cs, p) == cs
  {
    if |cs| > 0 {
      assert forall c | c in cs[1..] :: c in cs;
      AllKept(cs[1..], p);
      assert cs == [cs[0]] + cs[1..];
    }
  }

  /** Moderating an id no row has leaves the database unchanged and still succeeds. */
  lemma MissingIdIsNoop(db: Db, key: string, commentId: int, action: ModAction)
    requires Authorized(Some(key), key)
    requires forall c | c in db.comments :: c.id != commentId
    ensures var s := AdminUpdateComment(db, Some(key), key, commentId, action);
            s.db == db && s.out.Ok? && s.out.value.success
  {
    var s := AdminUpdateComment(db, Some(key), key, commentId, action);
    if action == Delete {
      AllKept(db.comments, Keeps(commentId));
    } else {
      var st := if action == Approve then Approved else Spam;
      assert SetStatus(db.comments, commentId, st) == db.comments;
    }
  }

  /** A page never shows a comment whose id no row has. */
  lemma AbsentIdNotShown(db: Db, slug: string, v: Comments.PublicComment)
    requires forall r | r in db.comments :: r.id != v.id
    ensures v !in Comments.GetComments(db, slug).comments
  {
    if v in Comments.GetComments(db, slug).comments {
      Comments.ShownRowsAreListed(db, slug, v);
    }
  }

  /** Approving a comment puts it on its post's public page; rejecting it
      takes it off every page. */
  lemma StatusDecidesVisibility(db: Db, key: string, c: Comment, action: ModAction, slug: string)
    requires Valid(db) && Authorized(Some(key), key)
    requires c in db.comments && action != Delete
    ensures var s := AdminUpdateComment(db, Some(key), key, c.id, action);
            var shown := Comments.PublicView(c) in Comments.GetComments(s.db, slug).comments;
            shown <==> action == Approve && c.postSlug == slug
  {
    var s := AdminUpdateComment(db, Some(key), key, c.id, action);
    UpdatePreservesValid(db, Some(key), key, c.id, action);
    var i :| 0 <= i < |db.comments| && db.comments[i] == c;
    var c' := s.db.comments[i];
    assert c' == c.(status := if action == Approve then Approved else Spam);
    Comments.ListedIff(s.db, slug, c');
    assert Comments.PublicView(c') == Comments.PublicView(c);
  }

  /** A deleted comment is on no page. */
  lemma DeleteHides(db: Db, key: string, c: Comment, slug: string)
    requires Authorized(Some(key), key)
    ensures var s := AdminUpdateComment(db, Some(key), key, c.id, Delete);
            Comments.PublicView(c) !in Comments.GetComments(s.db, slug).comments
  {
    var s := AdminUpdateComment(db, Some(key), key, c.id, Delete);
    AbsentIdNotShown(s.db, slug, Comments.PublicView(c));
  }
}
