# Reddit MCP server: the data-shaping and validation core

The server exposes Reddit's public read API as eight tools. Under the tool
registration and the HTTP client sits a small deterministic core, modelled
here in Dafny:

- **Post shaping** (`Posts`): a submission is a link, text, gallery or other
  post. Each kind gives one `PostType` and one content field: the permalink,
  the body, the gallery link, or none. The author falls back to `[deleted]`.
- **Comment trees** (`Comments`): the client's reply tree is converted into
  `Comment` records down to a depth limit. `BuildCommentTree` is the source's
  recursive procedure with its accumulating loop. It is proved equal to the
  specification `Tree`/`Forest`. That specification is in turn proved to be
  the unlimited conversion `Full` cut down by `Prune`. So the result keeps the
  children's order, is never taller than the depth, and loses nothing when the
  reply tree fits within the depth.
- **Operations** (`RedditServer`): the five post listings, subreddit info,
  post comments and post content. Each one maps the client's answer element
  by element, in order. Any client failure becomes one error whose message
  starts with the operation's own prefix; no partial list is returned.
- **Argument validation** (`Tools`): the range and enumeration constraints
  the tools declare on `limit`, `comment_limit`, `comment_depth` and `time`,
  with their defaults.

The client is not called. What it would return is a parameter of each
operation: `Pull(delivered, failure)` for a listing iterator (the submissions
it yields, then the end or a failure), and `Result` values for single fetches.

The author fallback follows Python's `or`. An author name that is missing
and one that is the empty string both become `[deleted]`.

A link post's content is its permalink, which is also its `url`. The model
keeps this as the code has it.

No non-empty check is declared on `subreddit_name` or `post_id`
(src/server.py:255, 270, 340, 360): any string is accepted. `time` accepts the
empty string, which is its default (src/server.py:305, 312).

The `get_post_content` tool documents `comment_depth` as the maximum depth of
comment replies to fetch (src/server.py:349). The code never passes it on
(src/server.py:211-218): the comments are always built to depth 3. The model
states what the code does, which disagrees with that documentation.

## Model

| member | source | states |
|---|---|---|
| RedditModel.AuthorOrDeleted | src/server.py:119 | The author is the upstream display name when it is present and non-empty, and `[deleted]` otherwise (the same rule is applied to comments at line 143); never empty. |
| Posts.Classification | src/server.py:94-112 | Link gives `Link` with the permalink, text gives `Text` with the body, gallery gives `Gallery` with the gallery link, anything else gives `Unknown` with no content. |
| Posts.ContentAbsentIffUnknown | src/server.py:94-112 | The two case analyses agree: content is absent exactly when the post type is `Unknown`. |
| Posts.BuildPost | src/server.py:114-127 | Each post field comes from its submission field; the author uses the fallback; type and content come from the classification, so content is absent iff the type is `Unknown`. |
| Comments.BuildCommentTree | src/server.py:129-147 | The recursive builder with its replies loop computes exactly the depth-limited conversion `Tree`. |
| Comments.TreeAbsent | src/server.py:131-132 | No comment is produced exactly when the depth is at most 0 or the node is absent. |
| Comments.ForestAt | src/server.py:135-139 | With no depth left all children are dropped; otherwise there is exactly one reply per child, in the children's order, and reply i is child i converted one level shallower. |
| Comments.ForestNoLonger | src/server.py:136-139 | A replies list is never longer than the node's children. |
| Comments.TreeIsPrunedFull | src/server.py:129-147 | The depth-limited conversion equals the unlimited conversion pruned at the depth. |
| Comments.TreeHeight | src/server.py:129-139 | A built comment tree is at most `depth` levels tall; at depth 1 a comment has no replies. |
| Comments.TreeLossless | src/server.py:129-147 | The depth limit drops nothing exactly when the reply tree is at most `depth` levels tall. |
| RedditServer.FetchPosts | src/server.py:149-209 | A listing succeeds exactly when the pull reports no failure (of the client or, in the source, of shaping). It then returns one post per delivered submission, in order, each equal to `BuildPost` of it. Otherwise it returns only an error: the operation's prefix followed by the client's message. |
| RedditServer.FetchSubredditInfo | src/server.py:159-169 | Name, subscriber count and public description are copied from the subreddit; a client failure gives the prefixed error. |
| RedditServer.PostComments | src/server.py:224-235 | One comment per top-level node, in order. Each is that node's tree built at depth 3, so it is at most 3 levels tall. A client failure gives the prefixed error. |
| RedditServer.PostContent | src/server.py:211-222 | The post is `BuildPost` of the submission and the comments are those of `PostComments`, so at depth 3 whatever `comment_depth` is. A failure of either fetch gives the content prefix, and a failed comment fetch keeps its own prefix nested inside. |
| Tools.Validate | src/server.py:240-360 | A call is accepted exactly when every given `limit`/`comment_limit` is in 1..100, every `comment_depth` in 1..10 and every `time` in {"", hour, day, week, month, year, all}. The request keeps the given values and defaults the rest. A rejection names exactly the out-of-range fields. |
| Tools.DefaultsValid | src/server.py:339-343 | The defaults 10, 3 and "" satisfy their own constraints. |
| Tools.OmittedArgumentsDefault | src/server.py:239-372 | Every one of the eight tools, called with all its optional arguments left out, is accepted, with limit and comment limit 10, time "" and comment depth 3. |

## Left out

- Tool registration, argument decoding and `model_dump()` serialisation are done by the MCP framework and pydantic, which are not part of this model. The same goes for the framework's unknown-tool error and its lax type coercion (for example a string "5" accepted as an integer). Calls arrive here already typed.
- The Reddit client is not part of this model. Its answers are parameters, and the `limit`, sort and `time` arguments it receives have no effect here. So the model does not bound how many posts or comments a listing returns; that bound is the client's.
- The creation time's conversion to the local time zone and ISO text is not modelled; `Submission.createdAt` carries the rendered string.
- Python's class hierarchy and `isinstance` checks are replaced by the `SubmissionKind` sum type.
- The command-line parsing (`parse_arguments`) and the transport selection in `main` are not modelled; they only hand control to the framework's stdio or HTTP runtime.
- The upstream failure text (`str(e)`) is an arbitrary string parameter; only the operation prefixes are fixed.
- Shaping is total in the model: `BuildPost` and the comment conversion cannot fail. In the source, the `try` blocks also catch exceptions from the pydantic construction of `Post`, `Comment` and `PostDetail` and from `created_at.astimezone()` (src/server.py:123, 151-157, 213-222, 226-235). Such an exception becomes the same prefixed error as a client failure. Here it is represented by the failure parameter (`Pull.failure`, or an `Err` fetch result), whose message is arbitrary.
