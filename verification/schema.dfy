/** The three tables behind the actions (`comments`, `likes`,
    `rate_limits`), the request context a handler reads, and the errors it
    throws. Each action is modelled as a pure step from one database to the
    next plus the handler's result or thrown error. */
module Schema {
  import opened Seqs

  datatype Option<T> = None | Some(value: T)

  /** Moderation state of a comment; stored as the integer column `approved`. */
  datatype Status = Spam | Pending | Approved

  /** The storage encoding of `Status` used by the handlers' SQL. */
  function StatusCode(s: Status): (code: int)
    ensures -1 <= code <= 1
    ensures code == 1 <==> s == Approved
    ensures code == -1 <==> s == Spam
  {
    match s
    case Spam => -1
    case Pending => 0
    case Approved => 1
  }

  /** Reads a stored `approved` value back; integers other than -1, 0, 1 are not statuses. */
  function StatusOfCode(code: int): (s: Option<Status>)
    ensures s.Some? <==> -1 <= code <= 1
    ensures s.Some? ==> StatusCode(s.value) == code
  {
    if code == -1 then Some(Spam)
    else if code == 0 then Some(Pending)
    else if code == 1 then Some(Approved)
    else None
  }

  datatype Comment = Comment(
    id: int,
    postSlug: string,
    authorName: string,
    content: string,
    createdAt: int,
    ipAddress: string,
    userAgent: string,
    status: Status)

  datatype Like = Like(
    postSlug: string,
    ipAddress: string,
    clapCount: int,
    createdAt: int,
    updatedAt: int)

  datatype RateRecord = RateRecord(ipAddress: string, actionType: string, createdAt: int)

  /** The database. `nextId` is the id the next inserted comment receives (its `last_row_id`). */
  datatype Db = Db(
    comments: seq<Comment>,
    nextId: int,
    likes: seq<Like>,
    rateLimits: seq<RateRecord>)

  /** Per-visitor ceiling on claps for one post. */
  const MaxClaps := 50

  predicate IdBefore(a: Comment, b: Comment)
  {
    a.id < b.id
  }

  /** A like row's key: the post and the visitor's address. */
  predicate IsVisitor(l: Like, slug: string, ip: string)
  {
    l.postSlug == slug && l.ipAddress == ip
  }

  predicate SameVisitor(a: Like, b: Like)
  {
    IsVisitor(a, b.postSlug, b.ipAddress)
  }

  predicate DistinctVisitors(a: Like, b: Like)
  {
    !SameVisitor(a, b)
  }

  /** What the schema and the handlers keep true of the tables: comment ids
      are assigned in increasing order below `nextId`, and a like row is unique
      per (post, visitor) with a clap count between 1 and the ceiling. */
  predicate Valid(db: Db)
  {
    && (forall i | 0 <= i < |db.comments| :: db.comments[i].id < db.nextId)
    && Pairwise(db.comments, IdBefore)
    && (forall i | 0 <= i < |db.likes| :: 1 <= db.likes[i].clapCount <= MaxClaps)
    && Pairwise(db.likes, DistinctVisitors)
  }

  /** Errors the handlers throw (or, for `InvalidInput`, that input validation raises). */
  datatype Error =
    | InvalidInput
    | HoneypotFilled
    | CaptchaFailed
    | TooManyComments
    | MaxClapsReached
    | TooManyActions
    | Unauthorized

  /** The message each thrown error carries. Validation errors are raised by
      the input schema before the handler runs; their text is not modelled.
      The clap-ceiling message ends in the four characters the source file
      holds there: the UTF-8 bytes of a party-popper emoji read as Windows-1252. */
  function Message(e: Error): string
    requires e != InvalidInput
  {
    match e
    case HoneypotFilled => "Spam detected"
    case CaptchaFailed => "CAPTCHA verification failed"
    case TooManyComments => "Too many comments. Please wait a few minutes."
    case MaxClapsReached => "Maximum claps reached (50). You really love this post! \U{F0}\U{178}\U{17D}\U{2030}"
    case TooManyActions => "Too many actions. Please wait a moment."
    case Unauthorized => "Unauthorized"
  }

  /** A caller can tell every thrown error from every other by its message. */
  lemma MessagesDistinct(e1: Error, e2: Error)
    requires e1 != InvalidInput && e2 != InvalidInput
    ensures Message(e1) == Message(e2) <==> e1 == e2
  {
  }

  datatype Result<T> = Ok(value: T) | Err(error: Error)

  /** The database after a handler ran, with what it returned or threw. */
  datatype Step<T> = Step(db: Db, out: Result<T>)

  /** Request headers a handler reads; `None` is a header that is absent. */
  datatype Headers = Headers(
    cfConnectingIp: Option<string>,
    xForwardedFor: Option<string>,
    userAgent: Option<string>)

  /** JavaScript truthiness of an optional string: present and non-empty. */
  predicate Present(h: Option<string>)
  {
    h.Some? && h.value != ""
  }

  /** The client address: `CF-Connecting-IP`, else `X-Forwarded-For`, else
      `"unknown"`, where an empty header counts as absent. */
  function ClientIp(h: Headers): (ip: string)
    ensures ip != ""
    ensures Present(h.cfConnectingIp) ==> ip == h.cfConnectingIp.value
    ensures !Present(h.cfConnectingIp) && Present(h.xForwardedFor) ==> ip == h.xForwardedFor.value
    ensures !Present(h.cfConnectingIp) && !Present(h.xForwardedFor) ==> ip == "unknown"
  {
    if Present(h.cfConnectingIp) then h.cfConnectingIp.value
    else if Present(h.xForwardedFor) then h.xForwardedFor.value
    else "unknown"
  }

  /** The `User-Agent` header, or the empty string. */
  function UserAgent(h: Headers): string
  {
    if Present(h.userAgent) then h.userAgent.value else ""
  }

  /** The admin gate: a configured, non-empty `ADMIN_KEY` equal to the supplied key. */
  predicate Authorized(adminKey: Option<string>, supplied: string)
  {
    Present(adminKey) && supplied == adminKey.value
  }
}
