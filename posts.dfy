/** Classifying a submission and shaping it into a `Post`. */
module Posts {
  import opened Wrappers
  import opened RedditModel

  /** `_get_post_type`: the post type follows the submission's kind. */
  function PostTypeOf(s: Submission): PostType {
    match s.kind
    case LinkPost => Link
    case TextPost(_) => Text
    case GalleryPost(_) => Gallery
    case OtherPost => Unknown
  }

  /**
   * `_get_post_content`: a link post's content is its permalink, a text
   * post's its body, a gallery post's its gallery link; other kinds have none.
   */
  function ContentOf(s: Submission): Option<string> {
    match s.kind
    case LinkPost => Some(s.permalink)
    case TextPost(body) => Some(body)
    case GalleryPost(link) => Some(link)
    case OtherPost => None
  }

  /** The two case analyses agree: a post has content exactly when its type is known. */
  lemma ContentAbsentIffUnknown(s: Submission)
    ensures ContentOf(s).None? <==> PostTypeOf(s) == Unknown
  {
  }

  /** Each kind yields its own type and the field that belongs to it. */
  lemma Classification(s: Submission)
    ensures s.kind.LinkPost? ==> PostTypeOf(s) == Link && ContentOf(s) == Some(s.permalink)
    ensures s.kind.TextPost? ==> PostTypeOf(s) == Text && ContentOf(s) == Some(s.kind.body)
    ensures s.kind.GalleryPost? ==> PostTypeOf(s) == Gallery && ContentOf(s) == Some(s.kind.galleryLink)
    ensures s.kind.OtherPost? ==> PostTypeOf(s) == Unknown && ContentOf(s) == None
  {
  }

  /** `_build_post`: the record the server returns for one submission. */
  function BuildPost(s: Submission): (p: Post)
    ensures p.id == s.id36 && p.title == s.title && p.score == s.score
    ensures p.subreddit == s.subredditName && p.url == s.permalink
    ensures p.createdAt == s.createdAt && p.commentCount == s.commentCount
    ensures p.author != ""
    ensures s.authorDisplayName.Some? && s.authorDisplayName.value != "" ==> p.author == s.authorDisplayName.value
    ensures s.authorDisplayName.None? || s.authorDisplayName.value == "" ==> p.author == DeletedAuthor
    ensures p.postType == PostTypeOf(s) && p.content == ContentOf(s)
    ensures p.content.None? <==> p.postType == Unknown
  {
    ContentAbsentIffUnknown(s);
    Post(
      s.id36,
      s.title,
      AuthorOrDeleted(s.authorDisplayName),
      s.score,
      s.subredditName,
      s.permalink,
      s.createdAt,
      s.commentCount,
      PostTypeOf(s),
      ContentOf(s))
  }
}
