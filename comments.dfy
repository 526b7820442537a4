/**
 * Depth-limited conversion of the client's reply tree into `Comment` records.
 *
 * `Tree`/`Forest` specify the conversion; `BuildCommentTree` is the source's
 * recursive procedure with its accumulating loop, proved equal to `Tree`.
 * `Full` converts a tree without any limit and `Prune` cuts a comment tree at
 * a given height: the lemmas show the depth-limited conversion is exactly the
 * pruned full conversion, so it keeps order, never exceeds the depth, and
 * loses nothing when the tree is shallow enough.
 */
module Comments {
  import opened Wrappers
  import opened RedditModel

  /** The depth `get_post_comments` builds each top-level comment with. */
  const DefaultTreeDepth: int := 3

  /** The record for one comment with the given replies. */
  function CommentOf(raw: RawComment, replies: seq<Comment>): Comment {
    Comment(raw.id36, AuthorOrDeleted(raw.authorDisplayName), raw.body, raw.score, replies)
  }

  /** The comments a child's result contributes to the replies list. */
  function Present(c: Option<Comment>): seq<Comment> {
    if c.Some? then [c.value] else []
  }

  /**
   * The comment built from `node` with `depth` levels left: nothing when the
   * depth is used up or there is no node.
   */
  function Tree(node: Option<CommentNode>, depth: int): Option<Comment>
    decreases depth, 1, 0
  {
    if depth <= 0 || node.None? then None
    else Some(CommentOf(node.value.value, Forest(node.value.children, depth - 1)))
  }

  /** The replies built from `children` with `depth` levels left, in order, absent ones dropped. */
  function Forest(children: seq<CommentNode>, depth: nat): seq<Comment>
    decreases depth + 1, 0, |children|
  {
    if children == [] then []
    else Forest(children[..|children| - 1], depth) + Present(Tree(Some(children[|children| - 1]), depth))
  }

  /**
   * `_build_comment_tree`: returns nothing at depth <= 0 or for a missing node;
   * otherwise converts the node's comment and appends, in order, every child
   * subtree built one level shallower that is not empty.
   */
  method BuildCommentTree(node: Option<CommentNode>, depth: int) returns (c: Option<Comment>)
    ensures c == Tree(node, depth)
    decreases depth
  {
    if depth <= 0 || node.None? {
      return None;
    }
    var n := node.value;
    var replies: seq<Comment> := [];
    var i := 0;
    while i < |n.children|
      invariant 0 <= i <= |n.children|
      invariant replies == Forest(n.children[..i], depth - 1)
    {
      var child := BuildCommentTree(Some(n.children[i]), depth - 1);
      assert n.children[..i + 1][..i] == n.children[..i];
      if child.Some? {
        replies := replies + [child.value];
      }
      i := i + 1;
    }
    assert n.children[..i] == n.children;
    c := Some(CommentOf(n.value, replies));
  }

  /** No comment comes out exactly when the depth is used up or the node is missing. */
  lemma TreeAbsent(node: Option<CommentNode>, depth: int)
    ensures Tree(node, depth).None? <==> depth <= 0 || node.None?
  {
  }

  /**
   * Replies keep the children's order. With no depth left every child is
   * dropped; otherwise every child yields exactly one reply, so nothing is
   * ever dropped between the root and the depth limit.
   */
  lemma {:induction false} ForestAt(children: seq<CommentNode>, depth: nat)
    ensures depth == 0 ==> Forest(children, depth) == []
    ensures depth >= 1 ==> |Forest(children, depth)| == |children|
    ensures depth >= 1 ==> forall i :: 0 <= i < |children| ==>
              Tree(Some(children[i]), depth) == Some(Forest(children, depth)[i])
    decreases |children|
  {
    if children != [] {
      var init := children[..|children| - 1];
      ForestAt(init, depth);
      assert forall i :: 0 <= i < |init| ==> init[i] == children[i];
    }
  }

  /** The number of replies never exceeds the number of children. */
  lemma {:induction false} ForestNoLonger(children: seq<CommentNode>, depth: nat)
    ensures |Forest(children, depth)| <= |children|
  {
    ForestAt(children, depth);
  }

  // ---------------------------------------------------------------------------
  // Reference definitions: unlimited conversion, pruning and height
  // ---------------------------------------------------------------------------

  /** The conversion with no depth limit: every node becomes a comment. */
  function Full(n: CommentNode): (c: Comment)
    ensures |c.replies| == |n.children|
  {
    CommentOf(n.value, seq(|n.children|, i requires 0 <= i < |n.children| => Full(n.children[i])))
  }

  /** `c` with every comment more than `height` levels down removed. */
  function Prune(c: Comment, height: nat): (p: Comment)
    ensures p.id == c.id && p.author == c.author && p.body == c.body && p.score == c.score
  {
    c.(replies := if height <= 1 then []
                  else seq(|c.replies|, i requires 0 <= i < |c.replies| => Prune(c.replies[i], height - 1)))
  }

  /** The comment tree is at most `height` levels tall (a lone comment has height 1). */
  predicate HeightAtMost(c: Comment, height: int) {
    if height <= 1 then height == 1 && c.replies == []
    else forall i :: 0 <= i < |c.replies| ==> HeightAtMost(c.replies[i], height - 1)
  }

  /** The reply tree is at most `height` levels tall. */
  predicate NodeHeightAtMost(n: CommentNode, height: int) {
    if height <= 1 then height == 1 && n.children == []
    else forall i :: 0 <= i < |n.children| ==> NodeHeightAtMost(n.children[i], height - 1)
  }

  /** The depth-limited conversion is the unlimited one pruned at the depth. */
  lemma {:induction false} TreeIsPrunedFull(n: CommentNode, depth: int)
    requires depth >= 1
    ensures Tree(Some(n), depth) == Some(Prune(Full(n), depth))
    decreases depth
  {
    var replies := Forest(n.children, depth - 1);
    var pruned := Prune(Full(n), depth).replies;
    ForestAt(n.children, depth - 1);
    if depth >= 2 {
      forall i | 0 <= i < |n.children|
        ensures replies[i] == pruned[i]
      {
        TreeIsPrunedFull(n.children[i], depth - 1);
      }
    }
    assert replies == pruned;
  }

  /** Pruning at `height` leaves a tree at most `height` levels tall. */
  lemma {:induction false} PruneHeight(c: Comment, height: nat)
    requires height >= 1
    ensures HeightAtMost(Prune(c, height), height)
    decreases c
  {
    var p := Prune(c, height);
    if height >= 2 {
      forall i | 0 <= i < |p.replies|
        ensures HeightAtMost(p.replies[i], height - 1)
      {
        PruneHeight(c.replies[i], height - 1);
      }
    }
  }

  /** Pruning a tree that is already short enough changes nothing. */
  lemma {:induction false} PruneShort(c: Comment, height: nat)
    requires HeightAtMost(c, height)
    ensures Prune(c, height) == c
    decreases c
  {
    if height >= 2 {
      forall i | 0 <= i < |c.replies|
        ensures Prune(c.replies[i], height - 1) == c.replies[i]
      {
        PruneShort(c.replies[i], height - 1);
      }
      assert Prune(c, height).replies == c.replies;
    }
  }

  /** The unlimited conversion keeps the tree's height. */
  lemma {:induction false} FullHeight(n: CommentNode, height: int)
    ensures HeightAtMost(Full(n), height) <==> NodeHeightAtMost(n, height)
    decreases n
  {
    forall i | 0 <= i < |n.children|
      ensures HeightAtMost(Full(n).replies[i], height - 1) <==> NodeHeightAtMost(n.children[i], height - 1)
    {
      FullHeight(n.children[i], height - 1);
    }
  }

  /**
   * The nesting height of a built comment never exceeds the depth; in
   * particular at depth 1 a comment has no replies.
   */
  lemma TreeHeight(node: Option<CommentNode>, depth: int)
    requires Tree(node, depth).Some?
    ensures HeightAtMost(Tree(node, depth).value, depth)
    ensures depth == 1 ==> Tree(node, depth).value.replies == []
  {
    TreeIsPrunedFull(node.value, depth);
    PruneHeight(Full(node.value), depth);
  }

  /** The depth limit loses nothing exactly when the reply tree fits within it. */
  lemma TreeLossless(n: CommentNode, depth: int)
    ensures Tree(Some(n), depth) == Some(Full(n)) <==> NodeHeightAtMost(n, depth)
  {
    if depth >= 1 {
      TreeIsPrunedFull(n, depth);
      FullHeight(n, depth);
      if NodeHeightAtMost(n, depth) {
        PruneShort(Full(n), depth);
      } else {
        PruneHeight(Full(n), depth);
      }
    }
  }
}
