/**
 * The tools' argument constraints: `limit` and `comment_limit` lie in
 * 1..100 (default 10), `comment_depth` in 1..10 (default 3), and `time` is one
 * of Reddit's time windows or empty (default empty). Names and post ids are
 * any string. `Validate` turns the arguments of a call into a typed request
 * with the defaults filled in, or rejects it naming every offending field.
 */
module Tools {
  import opened Wrappers

  const MinLimit: int := 1
  const MaxLimit: int := 100
  const DefaultLimit: int := 10
  const MinCommentDepth: int := 1
  const MaxCommentDepth: int := 10
  const DefaultCommentDepth: int := 3
  const DefaultTime: string := ""

  /** The accepted values of `time`. */
  const TimeFilters: set<string> := {"", "hour", "day", "week", "month", "year", "all"}

  predicate ValidLimit(n: int) { MinLimit <= n <= MaxLimit }
  predicate ValidCommentDepth(n: int) { MinCommentDepth <= n <= MaxCommentDepth }
  predicate ValidTime(t: string) { t in TimeFilters }

  /** A tool invocation as it arrives: `None` for an argument the caller left out. */
  datatype ToolCall =
    | GetFrontpagePosts(limit: Option<int>)
    | GetSubredditInfo(subredditName: string)
    | GetSubredditHotPosts(subredditName: string, limit: Option<int>)
    | GetSubredditNewPosts(subredditName: string, limit: Option<int>)
    | GetSubredditTopPosts(subredditName: string, limit: Option<int>, time: Option<string>)
    | GetSubredditRisingPosts(subredditName: string, limit: Option<int>)
    | GetPostContent(postId: string, commentLimit: Option<int>, commentDepth: Option<int>)
    | GetPostComments(postId: string, limit: Option<int>)

  /** A checked invocation with every argument present. */
  datatype Request =
    | FrontpagePosts(limit: int)
    | SubredditInfoRequest(subredditName: string)
    | SubredditHotPosts(subredditName: string, limit: int)
    | SubredditNewPosts(subredditName: string, limit: int)
    | SubredditTopPosts(subredditName: string, limit: int, time: string)
    | SubredditRisingPosts(subredditName: string, limit: int)
    | PostContentRequest(postId: string, commentLimit: int, commentDepth: int)
    | PostCommentsRequest(postId: string, limit: int)

  /** The outcome of validation: a request, or the names of the rejected fields. */
  datatype Validation = Accepted(request: Request) | Rejected(fields: seq<string>)

  /** Every argument the caller gave satisfies its constraint (omitted ones are not checked). */
  predicate ArgumentsValid(call: ToolCall) {
    match call
    case GetFrontpagePosts(l) => l.Some? ==> ValidLimit(l.value)
    case GetSubredditInfo(_) => true
    case GetSubredditHotPosts(_, l) => l.Some? ==> ValidLimit(l.value)
    case GetSubredditNewPosts(_, l) => l.Some? ==> ValidLimit(l.value)
    case GetSubredditTopPosts(_, l, t) => (l.Some? ==> ValidLimit(l.value)) && (t.Some? ==> ValidTime(t.value))
    case GetSubredditRisingPosts(_, l) => l.Some? ==> ValidLimit(l.value)
    case GetPostContent(_, l, d) => (l.Some? ==> ValidLimit(l.value)) && (d.Some? ==> ValidCommentDepth(d.value))
    case GetPostComments(_, l) => l.Some? ==> ValidLimit(l.value)
  }

  /** `field` is a parameter of the call that was given a value outside its constraint. */
  predicate Rejects(call: ToolCall, field: string) {
    match call
    case GetFrontpagePosts(l) => field == "limit" && l.Some? && !ValidLimit(l.value)
    case GetSubredditInfo(_) => false
    case GetSubredditHotPosts(_, l) => field == "limit" && l.Some? && !ValidLimit(l.value)
    case GetSubredditNewPosts(_, l) => field == "limit" && l.Some? && !ValidLimit(l.value)
    case GetSubredditTopPosts(_, l, t) =>
      || (field == "limit" && l.Some? && !ValidLimit(l.value))
      || (field == "time" && t.Some? && !ValidTime(t.value))
    case GetSubredditRisingPosts(_, l) => field == "limit" && l.Some? && !ValidLimit(l.value)
    case GetPostContent(_, l, d) =>
      || (field == "comment_limit" && l.Some? && !ValidLimit(l.value))
      || (field == "comment_depth" && d.Some? && !ValidCommentDepth(d.value))
    case GetPostComments(_, l) => field == "limit" && l.Some? && !ValidLimit(l.value)
  }

  /** `actual` is the given value when there is one and `default` otherwise. */
  predicate Resolves<T(==)>(given: Option<T>, default: T, actual: T) {
    (given.Some? ==> actual == given.value) && (given.None? ==> actual == default)
  }

  /** `request` is the same tool as `call`, with the given arguments kept and the omitted ones defaulted. */
  predicate Fits(call: ToolCall, request: Request) {
    match call
    case GetFrontpagePosts(l) =>
      request.FrontpagePosts? && Resolves(l, DefaultLimit, request.limit)
    case GetSubredditInfo(name) =>
      request == SubredditInfoRequest(name)
    case GetSubredditHotPosts(name, l) =>
      request.SubredditHotPosts? && request.subredditName == name && Resolves(l, DefaultLimit, request.limit)
    case GetSubredditNewPosts(name, l) =>
      request.SubredditNewPosts? && request.subredditName == name && Resolves(l, DefaultLimit, request.limit)
    case GetSubredditTopPosts(name, l, t) =>
      && request.SubredditTopPosts? && request.subredditName == name
      && Resolves(l, DefaultLimit, request.limit) && Resolves(t, DefaultTime, request.time)
    case GetSubredditRisingPosts(name, l) =>
      request.SubredditRisingPosts? && request.subredditName == name && Resolves(l, DefaultLimit, request.limit)
    case GetPostContent(id, l, d) =>
      && request.PostContentRequest? && request.postId == id
      && Resolves(l, DefaultLimit, request.commentLimit) && Resolves(d, DefaultCommentDepth, request.commentDepth)
    case GetPostComments(id, l) =>
      request.PostCommentsRequest? && request.postId == id && Resolves(l, DefaultLimit, request.limit)
  }

  /** Every argument of the request lies within its constraint. */
  predicate RequestValid(request: Request) {
    match request
    case FrontpagePosts(l) => ValidLimit(l)
    case SubredditInfoRequest(_) => true
    case SubredditHotPosts(_, l) => ValidLimit(l)
    case SubredditNewPosts(_, l) => ValidLimit(l)
    case SubredditTopPosts(_, l, t) => ValidLimit(l) && ValidTime(t)
    case SubredditRisingPosts(_, l) => ValidLimit(l)
    case PostContentRequest(_, l, d) => ValidLimit(l) && ValidCommentDepth(d)
    case PostCommentsRequest(_, l) => ValidLimit(l)
  }

  /** The defaults satisfy their own constraints. */
  lemma DefaultsValid()
    ensures ValidLimit(DefaultLimit) && ValidCommentDepth(DefaultCommentDepth) && ValidTime(DefaultTime)
  {
  }

  /** `[field]` when `ok` fails, nothing otherwise. */
  function Check(ok: bool, field: string): seq<string> {
    if ok then [] else [field]
  }

  /** Accept `request` unless some field was rejected. */
  function Decide(rejected: seq<string>, request: Request): Validation {
    if rejected == [] then Accepted(request) else Rejected(rejected)
  }

  /**
   * Validation of a call's arguments: accepted exactly when every given
   * argument is within its constraint, and then the request carries the given
   * values and the defaults for the rest; otherwise rejected, naming in
   * parameter order exactly the fields that are out of range.
   */
  function Validate(call: ToolCall): (r: Validation)
    ensures r.Accepted? <==> ArgumentsValid(call)
    ensures r.Accepted? ==> Fits(call, r.request) && RequestValid(r.request)
    ensures r.Rejected? ==> r.fields != [] && forall f :: f in r.fields <==> Rejects(call, f)
  {
    match call
    case GetFrontpagePosts(l) =>
      var limit := l.GetOr(DefaultLimit);
      Decide(Check(ValidLimit(limit), "limit"), FrontpagePosts(limit))
    case GetSubredditInfo(name) =>
      Accepted(SubredditInfoRequest(name))
    case GetSubredditHotPosts(name, l) =>
      var limit := l.GetOr(DefaultLimit);
      Decide(Check(ValidLimit(limit), "limit"), SubredditHotPosts(name, limit))
    case GetSubredditNewPosts(name, l) =>
      var limit := l.GetOr(DefaultLimit);
      Decide(Check(ValidLimit(limit), "limit"), SubredditNewPosts(name, limit))
    case GetSubredditTopPosts(name, l, t) =>
      var limit := l.GetOr(DefaultLimit);
      var time := t.GetOr(DefaultTime);
      Decide(Check(ValidLimit(limit), "limit") + Check(ValidTime(time), "time"),
             SubredditTopPosts(name, limit, time))
    case GetSubredditRisingPosts(name, l) =>
      var limit := l.GetOr(DefaultLimit);
      Decide(Check(ValidLimit(limit), "limit"), SubredditRisingPosts(name, limit))
    case GetPostContent(id, l, d) =>
      var limit := l.GetOr(DefaultLimit);
      var depth := d.GetOr(DefaultCommentDepth);
      Decide(Check(ValidLimit(limit), "comment_limit") + Check(ValidCommentDepth(depth), "comment_depth"),
             PostContentRequest(id, limit, depth))
    case GetPostComments(id, l) =>
      var limit := l.GetOr(DefaultLimit);
      Decide(Check(ValidLimit(limit), "limit"), PostCommentsRequest(id, limit))
  }

  /** Leaving out every optional argument always validates, to the documented defaults. */
  lemma OmittedArgumentsDefault(name: string, id: string)
    ensures Validate(GetFrontpagePosts(None)) == Accepted(FrontpagePosts(10))
    ensures Validate(GetSubredditInfo(name)) == Accepted(SubredditInfoRequest(name))
    ensures Validate(GetSubredditHotPosts(name, None)) == Accepted(SubredditHotPosts(name, 10))
    ensures Validate(GetSubredditNewPosts(name, None)) == Accepted(SubredditNewPosts(name, 10))
    ensures Validate(GetSubredditTopPosts(name, None, None)) == Accepted(SubredditTopPosts(name, 10, ""))
    ensures Validate(GetSubredditRisingPosts(name, None)) == Accepted(SubredditRisingPosts(name, 10))
    ensures Validate(GetPostContent(id, None, None)) == Accepted(PostContentRequest(id, 10, 3))
    ensures Validate(GetPostComments(id, None)) == Accepted(PostCommentsRequest(id, 10))
  {
  }
}
