/**
 * The comment attachment in `query_posts` (utils.py): for every post the
 * vector store returns, the comma-joined `comment_ids` string is split
 * again and the comments with those ids are fetched and attached to the
 * post. The store is not modelled: `lookup` stands for the call that
 * fetches comment metadata by id, and the post query itself is left to
 * the caller.
 */
module Query {
  import opened Records
  import opened Strings
  import Ingest

  /** A post as `query_posts` returns it: the stored metadata with a `comments` entry added. */
  datatype ResultPost = ResultPost(meta: PostMetadata, comments: seq<CommentMetadata>)

  /**
   * The loop of `query_posts`: each post, in the order the store returned
   * them, gets the comments fetched for the ids its `comment_ids` splits to.
   */
  method AttachComments(results: seq<PostMetadata>, lookup: seq<string> -> seq<CommentMetadata>)
    returns (posts: seq<ResultPost>)
    ensures |posts| == |results|
    ensures forall i :: 0 <= i < |posts| ==> posts[i].meta == results[i]
    ensures forall i :: 0 <= i < |posts| ==> posts[i].comments == lookup(Split(results[i].commentIds, ','))
  {
    posts := [];
    for i := 0 to |results|
      invariant |posts| == i
      invariant forall k :: 0 <= k < i ==> posts[k].meta == results[k]
      invariant forall k :: 0 <= k < i ==> posts[k].comments == lookup(Split(results[k].commentIds, ','))
    {
      var post := results[i];
      var commentIds := Split(post.commentIds, ',');
      var comments := lookup(commentIds);
      posts := posts + [ResultPost(post, comments)];
    }
  }

  /**
   * For a post stored by the ingest script with at least one comment and
   * no comma inside any comment id, the query asks for exactly that
   * post's comment ids, in their original order.
   */
  lemma StoredCommentIdsRoundTrip(p: Post)
    requires |p.comments| >= 1
    requires forall i :: 0 <= i < |p.comments| ==> ',' !in p.comments[i].id
    ensures Split(Ingest.PostMetadataOf(p).commentIds, ',') == CommentIdList(p)
  {
    SplitJoin(CommentIdList(p), ',');
  }

  /**
   * A stored post without comments has `comment_ids == ""`, and the query
   * then asks for the single id `""` rather than for no id at all.
   */
  lemma NoCommentsRequestsEmptyId(p: Post)
    requires |p.comments| == 0
    ensures Ingest.PostMetadataOf(p).commentIds == ""
    ensures Split(Ingest.PostMetadataOf(p).commentIds, ',') == [""]
  {
    assert CommentIdList(p) == [];
  }
}
