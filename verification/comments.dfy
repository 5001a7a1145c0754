/** The comment actions: `addComment` (validation, honeypot, CAPTCHA, rate
    limit, spam classification, insert) and `getComments` (the public read
    path). The CAPTCHA verdict is an input: it stands for the whole
    `verifyTurnstile` round trip, which fails closed. */
module Comments {
  import opened Seqs
  import opened Text
  import opened Schema
  import opened RateLimit
  import opened Spam

  /** Comment rate profile: at most 2 comments per address in 5 minutes. */
  const CommentWindowMinutes := 5
  const CommentMaxActions := 2
  const CommentAction := "comment"

  const PostedMessage := "Comment posted successfully!"
  const ModerationMessage := "Comment submitted for moderation"

  /** The form fields of `addComment`. */
  datatype CommentForm = CommentForm(
    postSlug: string,
    authorName: string,
    content: string,
    turnstileToken: string,
    honeypot: Option<string>)

  /** The input schema's length bounds, in UTF-16 code units. */
  predicate WellFormed(f: CommentForm)
  {
    && 1 <= Utf16Length(f.postSlug)
    && 2 <= Utf16Length(f.authorName) <= 100
    && 10 <= Utf16Length(f.content) <= 2000
  }

  /** A submission is flagged when its content or its author name is spam. */
  predicate Flagged(f: CommentForm)
  {
    IsSpam(f.content) || IsSpam(f.authorName)
  }

  datatype Submitted = Submitted(success: bool, message: string, commentId: Option<int>)

  /** The row `addComment` inserts for `f` at time `now`. */
  function NewRow(db: Db, f: CommentForm, h: Headers, now: int): Comment
  {
    Comment(db.nextId, f.postSlug, f.authorName, f.content, now, ClientIp(h), UserAgent(h),
            if Flagged(f) then Spam else Approved)
  }

  /** `addComment` on database `db`, with `captchaPassed` the Turnstile verdict. */
  function AddComment(db: Db, f: CommentForm, h: Headers, captchaPassed: bool, now: int): (s: Step<Submitted>)
    // Hard rejections, in order; none of them touches the database.
    ensures !WellFormed(f) ==> s == Step(db, Err(InvalidInput))
    ensures WellFormed(f) && Present(f.honeypot) ==> s == Step(db, Err(HoneypotFilled))
    ensures WellFormed(f) && !Present(f.honeypot) && !captchaPassed ==> s == Step(db, Err(CaptchaFailed))
    // Only then is the rate limiter consulted, and it alone decides.
    ensures WellFormed(f) && !Present(f.honeypot) && captchaPassed ==>
              var a := CheckRateLimit(db.rateLimits, ClientIp(h), CommentAction,
                                      CommentWindowMinutes, CommentMaxActions, now);
              && s.db.rateLimits == a.records
              && (s.out.Ok? <==> a.admitted)
              && (!a.admitted ==> s.out == Err(TooManyComments))
    // A refusal never adds a comment; a rate denial changes only the rate table.
    ensures s.out.Err? ==> s.db == db.(rateLimits := s.db.rateLimits)
    ensures s.out == Err(TooManyComments) ==> s.db == db.(rateLimits := Purge(db.rateLimits, now))
    // Spam and clean submissions both succeed and both add exactly one row.
    ensures s.out.Ok? ==>
              && s.out.value.success
              && s.db.comments == db.comments + [NewRow(db, f, h, now)]
              && s.db.nextId == db.nextId + 1
              && s.db.likes == db.likes
    ensures s.out.Ok? && Flagged(f) ==>
              s.out.value == Submitted(true, ModerationMessage, None)
    ensures s.out.Ok? && !Flagged(f) ==>
              s.out.value == Submitted(true, PostedMessage, Some(db.nextId))
  {
    if !WellFormed(f) then Step(db, Err(InvalidInput))
    else if Present(f.honeypot) then Step(db, Err(HoneypotFilled))
    else if !captchaPassed then Step(db, Err(CaptchaFailed))
    else
      var a := CheckRateLimit(db.rateLimits, ClientIp(h), CommentAction,
                              CommentWindowMinutes, CommentMaxActions, now);
      if !a.admitted then Step(db.(rateLimits := a.records), Err(TooManyComments))
      else
        var db' := db.(comments := db.comments + [NewRow(db, f, h, now)],
                       nextId := db.nextId + 1,
                       rateLimits := a.records);
        if Flagged(f) then Step(db', Ok(Submitted(true, ModerationMessage, None)))
        else Step(db', Ok(Submitted(true, PostedMessage, Some(db.nextId))))
  }

  /** The columns `getComments` selects. */
  datatype PublicComment = PublicComment(id: int, authorName: string, content: string, createdAt: int)

  datatype CommentList = CommentList(comments: seq<PublicComment>, count: nat)

  function PublicView(c: Comment): PublicComment
  {
    PublicComment(c.id, c.authorName, c.content, c.createdAt)
  }

  function Views(cs: seq<Comment>): (vs: seq<PublicComment>)
    ensures |vs| == |cs|
    ensures forall i | 0 <= i < |cs| :: vs[i] == PublicView(cs[i])
  {
    seq(|cs|, i requires 0 <= i < |cs| => PublicView(cs[i]))
  }

  function CreatedAt(p: PublicComment): int
  {
    p.createdAt
  }

  /** `WHERE post_slug = ? AND approved = 1` */
  function Listed(slug: string): Comment -> bool
  {
    (c: Comment) => c.postSlug == slug && c.status == Approved
  }

  /** `getComments`: the approved comments of a post, oldest first. Rows with
      equal timestamps keep table order, one of the orders SQL allows. */
  function GetComments(db: Db, slug: string): (r: CommentList)
    ensures r.count == |r.comments|
    ensures forall i, j | 0 <= i < j < |r.comments| :: r.comments[i].createdAt <= r.comments[j].createdAt
    ensures multiset(r.comments) == multiset(Views(Filter(db.comments, Listed(slug))))
  {
    var rows := SortByKey(Views(Filter(db.comments, Listed(slug))), CreatedAt);
    assert forall i, j | 0 <= i < j < |rows| :: CreatedAt(rows[i]) <= CreatedAt(rows[j]);
    CommentList(rows, |rows|)
  }

  /** Under increasing ids, a comment row is determined by its id. */
  lemma IdDeterminesRow(cs: seq<Comment>, a: Comment, b: Comment)
    requires Pairwise(cs, IdBefore)
    requires a in cs && b in cs && a.id == b.id
    ensures a == b
  {
    var i :| 0 <= i < |cs| && cs[i] == a;
    var j :| 0 <= j < |cs| && cs[j] == b;
    IdsDistinct(cs, i, j);
  }

  lemma IdsDistinct(cs: seq<Comment>, i: nat, j: nat)
    requires Pairwise(cs, IdBefore)
    requires i < |cs| && j < |cs|
    ensures cs[i].id == cs[j].id ==> i == j
  {
    if i < j {
      assert IdBefore(cs[i], cs[j]);
    } else if j < i {
      assert IdBefore(cs[j], cs[i]);
    }
  }

  /** A stored comment is shown on a post's page exactly when it belongs to
      that post and is approved. */
  lemma ListedIff(db: Db, slug: string, c: Comment)
    requires Valid(db)
    requires c in db.comments
    ensures PublicView(c) in GetComments(db, slug).comments <==> c.postSlug == slug && c.status == Approved
  {
    var rows := Filter(db.comments, Listed(slug));
    var shown := GetComments(db, slug).comments;
    if c.postSlug == slug && c.status == Approved {
      assert c in rows;
      var i :| 0 <= i < |rows| && rows[i] == c;
      assert Views(rows)[i] == PublicView(c);
      assert PublicView(c) in multiset(Views(rows));
      assert PublicView(c) in multiset(shown);
    } else if PublicView(c) in shown {
      assert PublicView(c) in multiset(Views(rows));
      var i :| 0 <= i < |Views(rows)| && Views(rows)[i] == PublicView(c);
      assert rows[i] in db.comments;
      IdDeterminesRow(db.comments, rows[i], c);
      assert false;
    }
  }

  /** Every comment on a post's page comes from an approved row of that post. */
  lemma ShownRowsAreListed(db: Db, slug: string, v: PublicComment)
    requires v in GetComments(db, slug).comments
    ensures exists r | r in db.comments :: PublicView(r) == v && r.postSlug == slug && r.status == Approved
  {
    var rows := Filter(db.comments, Listed(slug));
    assert v in multiset(Views(rows));
    var i :| 0 <= i < |Views(rows)| && Views(rows)[i] == v;
    assert rows[i] in db.comments && Listed(slug)(rows[i]);
  }

  lemma AddCommentPreservesValid(db: Db, f: CommentForm, h: Headers, captchaPassed: bool, now: int)
    requires Valid(db)
    ensures Valid(AddComment(db, f, h, captchaPassed, now).db)
  {
    var s := AddComment(db, f, h, captchaPassed, now);
    if s.out.Ok? {
      var cs := s.db.comments;
      assert cs == db.comments + [NewRow(db, f, h, now)];
      forall i, j | 0 <= i < j < |cs|
        ensures IdBefore(cs[i], cs[j])
      {
        if j < |db.comments| {
          assert IdBefore(db.comments[i], db.comments[j]);
        }
      }
    }
  }

  /** A clean submission shows up on its post's page right away; a flagged one
      never does, although both calls report success. */
  lemma SubmissionVisibility(db: Db, f: CommentForm, h: Headers, captchaPassed: bool, now: int)
    requires Valid(db)
    ensures var s := AddComment(db, f, h, captchaPassed, now);
            s.out.Ok? ==>
              (PublicView(NewRow(db, f, h, now)) in GetComments(s.db, f.postSlug).comments <==> !Flagged(f))
  {
    var s := AddComment(db, f, h, captchaPassed, now);
    if s.out.Ok? {
      AddCommentPreservesValid(db, f, h, captchaPassed, now);
      assert NewRow(db, f, h, now) in s.db.comments;
      ListedIff(s.db, f.postSlug, NewRow(db, f, h, now));
    }
  }

  /** With the default comment profile, two comments from one address inside
      five minutes exhaust its budget: a third within the same five minutes is
      refused as throttled and adds no comment. */
  lemma ThirdCommentRefused(
    db: Db, f1: CommentForm, f2: CommentForm, f3: CommentForm, h: Headers,
    t1: int, t2: int, t3: int)
    requires WellFormed(f1) && WellFormed(f2) && WellFormed(f3)
    requires !Present(f1.honeypot) && !Present(f2.honeypot) && !Present(f3.honeypot)
    requires t1 <= t2 < t1 + CommentWindowMinutes * MinuteMs
    requires t1 <= t3 < t1 + CommentWindowMinutes * MinuteMs
    ensures var s1 := AddComment(db, f1, h, true, t1);
            var s2 := AddComment(s1.db, f2, h, true, t2);
            var s3 := AddComment(s2.db, f3, h, true, t3);
            s1.out.Ok? && s2.out.Ok? ==>
              s3.out == Err(TooManyComments) && s3.db.comments == s2.db.comments
  {
    var ip := ClientIp(h);
    var s1 := AddComment(db, f1, h, true, t1);
    var s2 := AddComment(s1.db, f2, h, true, t2);
    var a1 := CheckRateLimit(db.rateLimits, ip, CommentAction, CommentWindowMinutes, CommentMaxActions, t1);
    var a2 := CheckRateLimit(a1.records, ip, CommentAction, CommentWindowMinutes, CommentMaxActions, t2);
    assert s1.db.rateLimits == a1.records;
    assert s2.db.rateLimits == a2.records;
    TwoAdmittedThenDenied(db.rateLimits, ip, CommentAction, CommentWindowMinutes, CommentMaxActions, t1, t2, t3);
  }
}
