/**
 * The data the server shapes: what the Reddit client hands over (submissions,
 * comments and their reply trees, subreddits) and the records the server
 * returns (posts, comments, subreddit information, post details).
 */
module RedditModel {
  import opened Wrappers

  /** The name shown for an author the upstream reports as missing. */
  const DeletedAuthor: string := "[deleted]"

  // ---------------------------------------------------------------------------
  // Upstream values (the client library's objects, reduced to the fields read)
  // ---------------------------------------------------------------------------

  /** The kind of a submission: which of the client's submission classes it is an instance of. */
  datatype SubmissionKind =
    | LinkPost
    | TextPost(body: string)
    | GalleryPost(galleryLink: string)
    | OtherPost

  /**
   * A submission as the client delivers it. `createdAt` is the creation time
   * already rendered in the local time zone (the rendering is not modelled).
   */
  datatype Submission = Submission(
    id36: string,
    title: string,
    authorDisplayName: Option<string>,
    score: int,
    subredditName: string,
    permalink: string,
    createdAt: string,
    commentCount: int,
    kind: SubmissionKind)

  /** One comment as the client delivers it. */
  datatype RawComment = RawComment(
    id36: string,
    authorDisplayName: Option<string>,
    body: string,
    score: int)

  /** A node of the client's comment tree: a comment and its replies, in order. */
  datatype CommentNode = CommentNode(value: RawComment, children: seq<CommentNode>)

  /** A subreddit as the client delivers it. */
  datatype Subreddit = Subreddit(
    name: string,
    subscriberCount: int,
    publicDescription: Option<string>)

  // ---------------------------------------------------------------------------
  // Records the server returns
  // ---------------------------------------------------------------------------

  datatype PostType = Link | Text | Gallery | Unknown

  datatype Post = Post(
    id: string,
    title: string,
    author: string,
    score: int,
    subreddit: string,
    url: string,
    createdAt: string,
    commentCount: int,
    postType: PostType,
    content: Option<string>)

  /** A comment with its (possibly truncated) replies. */
  datatype Comment = Comment(
    id: string,
    author: string,
    body: string,
    score: int,
    replies: seq<Comment>)

  datatype SubredditInfo = SubredditInfo(
    name: string,
    subscriberCount: int,
    description: Option<string>)

  datatype PostDetail = PostDetail(post: Post, comments: seq<Comment>)

  /**
   * `name or '[deleted]'`: Python's `or` falls back both when the name is
   * missing and when it is the empty string, so the result is never empty.
   */
  function AuthorOrDeleted(name: Option<string>): (a: string)
    ensures a != ""
    ensures name.Some? && name.value != "" ==> a == name.value
    ensures name.None? || name.value == "" ==> a == DeletedAuthor
  {
    if name.Some? && name.value != "" then name.value else DeletedAuthor
  }
}
