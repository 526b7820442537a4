/**
 * The server's operations. Each one makes one call to the Reddit client and
 * shapes what comes back; the client's answer is a parameter here. Any
 * failure of the client is re-raised with a message that starts with the
 * operation's own prefix, and no partial result escapes.
 */
module RedditServer {
  import opened Wrappers
  import opened RedditModel
  import opened Posts
  import opened Comments

  /** The five post listings, with the subreddit name their failure messages quote. */
  datatype Listing =
    | Frontpage
    | SubredditHot(subredditName: string)
    | SubredditNew(subredditName: string)
    | SubredditTop(subredditName: string)
    | SubredditRising(subredditName: string)

  /**
   * What the client's listing iterator yields: the submissions it delivers,
   * in order, and then either the end or a failure with its description.
   */
  datatype Pull = Pull(delivered: seq<Submission>, failure: Option<string>)

  /** The start of the message a listing raises when the client fails. */
  function ListingFailurePrefix(listing: Listing): string {
    match listing
    case Frontpage => "Failed to fetch frontpage posts: "
    case SubredditHot(name) => "Failed to fetch hot posts from '" + name + "': "
    case SubredditNew(name) => "Failed to fetch new posts from '" + name + "': "
    case SubredditTop(name) => "Failed to fetch top posts from '" + name + "': "
    case SubredditRising(name) => "Failed to fetch rising posts from '" + name + "': "
  }

  /**
   * `get_frontpage_posts` and `get_subreddit_{hot,new,top,rising}_posts`:
   * one post per delivered submission, in the client's order, or, if the
   * client fails at any point, only the error.
   */
  method FetchPosts(listing: Listing, pull: Pull) returns (r: Result<seq<Post>>)
    ensures r.Ok? <==> pull.failure.None?
    ensures r.Ok? ==> |r.value| == |pull.delivered|
    ensures r.Ok? ==> forall i :: 0 <= i < |pull.delivered| ==> r.value[i] == BuildPost(pull.delivered[i])
    ensures r.Err? ==> r.message == ListingFailurePrefix(listing) + pull.failure.value
  {
    var posts: seq<Post> := [];
    var i := 0;
    while i < |pull.delivered|
      invariant 0 <= i <= |pull.delivered|
      invariant |posts| == i
      invariant forall k :: 0 <= k < i ==> posts[k] == BuildPost(pull.delivered[k])
    {
      posts := posts + [BuildPost(pull.delivered[i])];
      i := i + 1;
    }
    if pull.failure.Some? {
      return Err(ListingFailurePrefix(listing) + pull.failure.value);
    }
    r := Ok(posts);
  }

  /** `get_subreddit_info`: the subreddit's name, subscriber count and public description. */
  function FetchSubredditInfo(subredditName: string, fetched: Result<Subreddit>): (r: Result<SubredditInfo>)
    ensures r.Ok? <==> fetched.Ok?
    ensures r.Ok? ==> r.value.name == fetched.value.name
    ensures r.Ok? ==> r.value.subscriberCount == fetched.value.subscriberCount
    ensures r.Ok? ==> r.value.description == fetched.value.publicDescription
    ensures r.Err? ==> r.message == "Failed to fetch subreddit info for '" + subredditName + "': " + fetched.message
  {
    match fetched
    case Ok(s) => Ok(SubredditInfo(s.name, s.subscriberCount, s.publicDescription))
    case Err(e) => Err("Failed to fetch subreddit info for '" + subredditName + "': " + e)
  }

  /** The start of the message `get_post_comments` raises when the client fails. */
  function CommentsFailurePrefix(postId: string): string {
    "Failed to fetch comments for post '" + postId + "': "
  }

  /**
   * `get_post_comments`: one comment per top-level node of the fetched tree,
   * in order, each built to depth 3 and so never more than 3 levels tall.
   * `fetched` holds the top-level nodes (the fetch's `limit` is the client's concern).
   */
  method PostComments(postId: string, fetched: Result<seq<CommentNode>>) returns (r: Result<seq<Comment>>)
    ensures r.Ok? <==> fetched.Ok?
    ensures r.Ok? ==> |r.value| == |fetched.value|
    ensures r.Ok? ==> forall i :: 0 <= i < |fetched.value| ==>
              Tree(Some(fetched.value[i]), DefaultTreeDepth) == Some(r.value[i])
              && HeightAtMost(r.value[i], DefaultTreeDepth)
    ensures r.Err? ==> r.message == CommentsFailurePrefix(postId) + fetched.message
  {
    if fetched.Err? {
      return Err(CommentsFailurePrefix(postId) + fetched.message);
    }
    var nodes := fetched.value;
    var comments: seq<Comment> := [];
    var i := 0;
    while i < |nodes|
      invariant 0 <= i <= |nodes|
      invariant comments == Forest(nodes[..i], DefaultTreeDepth)
    {
      var comment := BuildCommentTree(Some(nodes[i]), DefaultTreeDepth);
      assert nodes[..i + 1][..i] == nodes[..i];
      if comment.Some? {
        comments := comments + [comment.value];
      }
      i := i + 1;
    }
    assert nodes[..i] == nodes;
    ForestAt(nodes, DefaultTreeDepth);
    forall k | 0 <= k < |nodes|
      ensures HeightAtMost(comments[k], DefaultTreeDepth)
    {
      TreeHeight(Some(nodes[k]), DefaultTreeDepth);
    }
    r := Ok(comments);
  }

  /** The start of the message `get_post_content` raises when anything fails. */
  function ContentFailurePrefix(postId: string): string {
    "Failed to fetch post content for '" + postId + "': "
  }

  /**
   * `get_post_content`: the post and its comments. The comments come from
   * `get_post_comments`, so they are built to depth 3 whatever
   * `commentDepth` says; `commentLimit` only goes to the client. A failure of
   * the comment fetch arrives already wrapped in that operation's message.
   */
  method PostContent(postId: string, commentLimit: int, commentDepth: int,
                     submission: Result<Submission>, tree: Result<seq<CommentNode>>)
    returns (r: Result<PostDetail>)
    ensures r.Ok? <==> submission.Ok? && tree.Ok?
    ensures r.Ok? ==> r.value.post == BuildPost(submission.value)
    ensures r.Ok? ==> |r.value.comments| == |tree.value|
    ensures r.Ok? ==> forall i :: 0 <= i < |tree.value| ==>
              Tree(Some(tree.value[i]), DefaultTreeDepth) == Some(r.value.comments[i])
              && HeightAtMost(r.value.comments[i], DefaultTreeDepth)
    ensures submission.Err? ==> r.message == ContentFailurePrefix(postId) + submission.message
    ensures submission.Ok? && tree.Err? ==>
              r.message == ContentFailurePrefix(postId) + CommentsFailurePrefix(postId) + tree.message
  {
    if submission.Err? {
      return Err(ContentFailurePrefix(postId) + submission.message);
    }
    var post := BuildPost(submission.value);
    var comments := PostComments(postId, tree);
    if comments.Err? {
      return Err(ContentFailurePrefix(postId) + comments.message);
    }
    r := Ok(PostDetail(post, comments.value));
  }
}
