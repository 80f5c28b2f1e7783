/**
 * The one-time index build (setup.py): the JSON dump is cut into batches
 * of ten posts, and every batch is flattened into six parallel lists —
 * documents, ids and metadata for the posts, and the same three for their
 * comments — which are then handed to the two collections of the vector
 * store. The store itself is not modelled: `Ingest` returns, batch by
 * batch, exactly the lists the script passes to `add`.
 */
module Ingest {
  import opened Records
  import opened Strings

  /** Posts per call to `add`. */
  const BatchSize: nat := 10

  /** The six lists the script builds for one batch. */
  datatype BatchRecords = BatchRecords(
    postDocuments: seq<string>,
    postIds: seq<string>,
    postMetadatas: seq<PostMetadata>,
    commentDocuments: seq<string>,
    commentIds: seq<string>,
    commentMetadatas: seq<CommentMetadata>)

  const NoRecords := BatchRecords([], [], [], [], [], [])

  /** The text a post is embedded by: its title and its body, separated by one space. */
  function PostDocument(p: Post): string
  {
    p.title + " " + p.text
  }

  /** The metadata stored for a post: its fields, with the two lists comma-joined. */
  function PostMetadataOf(p: Post): PostMetadata
  {
    PostMetadata(p.title, p.text, p.date, p.score, p.url, p.upvotes, p.downvotes,
                 p.numComments, Join(CommentIdList(p), ','), Join(p.tickers, ','),
                 p.bullishCount, p.neutralCount, p.bearishCount)
  }

  /** The metadata stored for a comment of the post with id `postId`. */
  function CommentMetadataOf(postId: string, c: Comment): CommentMetadata
  {
    CommentMetadata(postId, c.score, c.sentiment, c.text)
  }

  /** The lists after the comments `cs` of post `postId` were appended one by one. */
  function WithComments(r: BatchRecords, postId: string, cs: seq<Comment>): (res: BatchRecords)
    ensures res.postDocuments == r.postDocuments && res.postIds == r.postIds
    ensures res.postMetadatas == r.postMetadatas
    ensures res.commentDocuments == r.commentDocuments + seq(|cs|, i requires 0 <= i < |cs| => cs[i].text)
    ensures res.commentIds == r.commentIds + seq(|cs|, i requires 0 <= i < |cs| => cs[i].id)
    ensures res.commentMetadatas ==
      r.commentMetadatas + seq(|cs|, i requires 0 <= i < |cs| => CommentMetadataOf(postId, cs[i]))
  {
    if |cs| == 0 then r
    else
      var prev := WithComments(r, postId, cs[..|cs| - 1]);
      var c := cs[|cs| - 1];
      prev.(commentDocuments := prev.commentDocuments + [c.text],
            commentIds := prev.commentIds + [c.id],
            commentMetadatas := prev.commentMetadatas + [CommentMetadataOf(postId, c)])
  }

  /** The lists after one post and then its comments were appended. */
  function WithPost(r: BatchRecords, p: Post): BatchRecords
  {
    var withEntry := r.(postDocuments := r.postDocuments + [PostDocument(p)],
                        postIds := r.postIds + [p.id],
                        postMetadatas := r.postMetadatas + [PostMetadataOf(p)]);
    WithComments(withEntry, p.id, p.comments)
  }

  /** The six lists the script builds for `batch`, post after post. */
  function BatchOf(batch: seq<Post>): BatchRecords
  {
    if |batch| == 0 then NoRecords
    else WithPost(BatchOf(batch[..|batch| - 1]), batch[|batch| - 1])
  }

  /** Number of comments embedded in the posts of `batch`. */
  function CommentTotal(batch: seq<Post>): nat
  {
    if |batch| == 0 then 0
    else CommentTotal(batch[..|batch| - 1]) + |batch[|batch| - 1].comments|
  }

  function Min(a: int, b: int): int
  {
    if a <= b then a else b
  }

  /** `range(0, n, BatchSize)` has this many offsets. */
  function NumBatches(n: nat): nat
  {
    (n + BatchSize - 1) / BatchSize
  }

  /** The k-th batch: `posts[i:i + BatchSize]` for the offset i = k * BatchSize. */
  function BatchSlice(posts: seq<Post>, k: nat): seq<Post>
    requires k < NumBatches(|posts|)
  {
    posts[k * BatchSize .. Min(k * BatchSize + BatchSize, |posts|)]
  }

  /** All batches, in the order the outer loop visits them. */
  function Batches(posts: seq<Post>): seq<seq<Post>>
  {
    seq(NumBatches(|posts|), k requires 0 <= k < NumBatches(|posts|) => BatchSlice(posts, k))
  }

  function Concat(ss: seq<seq<Post>>): seq<Post>
  {
    if |ss| == 0 then [] else Concat(ss[..|ss| - 1]) + ss[|ss| - 1]
  }

  /**
   * The outer loop of the script: one batch per offset 0, 10, 20, ...,
   * each flattened by `ShapeBatch`.
   */
  method Ingest(posts: seq<Post>) returns (batches: seq<BatchRecords>)
    ensures |batches| == |Batches(posts)|
    ensures forall k :: 0 <= k < |batches| ==> batches[k] == BatchOf(Batches(posts)[k])
  {
    batches := [];
    var i := 0;
    while i < |posts|
      invariant i == |batches| * BatchSize
      invariant |batches| <= NumBatches(|posts|)
      invariant forall k :: 0 <= k < |batches| ==> batches[k] == BatchOf(BatchSlice(posts, k))
    {
      assert |batches| < NumBatches(|posts|);
      var batchPosts := posts[i .. Min(i + BatchSize, |posts|)];
      var records := ShapeBatch(batchPosts);
      batches := batches + [records];
      i := i + BatchSize;
    }
  }

  /**
   * The body of the outer loop: the nested loops over the posts of one
   * batch and over each post's comments, appending to the six lists.
   */
  method ShapeBatch(batchPosts: seq<Post>) returns (records: BatchRecords)
    ensures records == BatchOf(batchPosts)
  {
    var postDocuments: seq<string> := [];
    var postIds: seq<string> := [];
    var postMetadatas: seq<PostMetadata> := [];
    var commentDocuments: seq<string> := [];
    var commentIds: seq<string> := [];
    var commentMetadatas: seq<CommentMetadata> := [];

    for j := 0 to |batchPosts|
      invariant BatchRecords(postDocuments, postIds, postMetadatas,
                             commentDocuments, commentIds, commentMetadatas)
                == BatchOf(batchPosts[..j])
    {
      var post := batchPosts[j];
      var postId := post.id;
      var postCommentIds := Join(CommentIdList(post), ',');
      var postTickers := Join(post.tickers, ',');

      postDocuments := postDocuments + [post.title + " " + post.text];
      postIds := postIds + [postId];
      postMetadatas := postMetadatas + [PostMetadata(
        post.title, post.text, post.date, post.score, post.url, post.upvotes,
        post.downvotes, post.numComments, postCommentIds, postTickers,
        post.bullishCount, post.neutralCount, post.bearishCount)];

      ghost var withEntry := BatchRecords(postDocuments, postIds, postMetadatas,
                                          commentDocuments, commentIds, commentMetadatas);
      for c := 0 to |post.comments|
        invariant BatchRecords(postDocuments, postIds, postMetadatas,
                               commentDocuments, commentIds, commentMetadatas)
                  == WithComments(withEntry, postId, post.comments[..c])
      {
        var comment := post.comments[c];
        commentDocuments := commentDocuments + [comment.text];
        commentIds := commentIds + [comment.id];
        commentMetadatas := commentMetadatas + [CommentMetadata(postId, comment.score, comment.sentiment, comment.text)];
        assert post.comments[..c + 1][..c] == post.comments[..c];
      }
      assert post.comments[..|post.comments|] == post.comments;
      assert batchPosts[..j + 1][..j] == batchPosts[..j];
    }
    assert batchPosts[..|batchPosts|] == batchPosts;
    records := BatchRecords(postDocuments, postIds, postMetadatas,
                            commentDocuments, commentIds, commentMetadatas);
  }

  /**
   * The batches are the slices `[i, i + 10)`: each is non-empty, all but the
   * last hold exactly ten posts, and together, in order, they are the input.
   */
  lemma BatchesCoverInput(posts: seq<Post>)
    ensures Concat(Batches(posts)) == posts
    ensures forall k :: 0 <= k < |Batches(posts)| ==> 1 <= |Batches(posts)[k]| <= BatchSize
    ensures forall k :: 0 <= k < |Batches(posts)| - 1 ==> |Batches(posts)[k]| == BatchSize
  {
    var bs := Batches(posts);
    ConcatPrefix(posts, |bs|);
    assert bs[..|bs|] == bs;
  }

  /** The first k batches concatenate to the first k * BatchSize posts (or all of them). */
  lemma {:induction false} ConcatPrefix(posts: seq<Post>, k: nat)
    requires k <= NumBatches(|posts|)
    ensures Concat(Batches(posts)[..k]) == posts[..Min(k * BatchSize, |posts|)]
  {
    var bs := Batches(posts);
    if k > 0 {
      ConcatPrefix(posts, k - 1);
      assert bs[..k][..k - 1] == bs[..k - 1];
      var lo := (k - 1) * BatchSize;
      var hi := Min(k * BatchSize, |posts|);
      assert bs[k - 1] == posts[lo..hi];
      assert posts[..lo] + posts[lo..hi] == posts[..hi];
    }
  }

  /**
   * Within a batch, each post adds exactly one entry to each of the three
   * post lists, in batch order: its document, its id and its metadata.
   */
  lemma {:induction false} BatchPostLists(batch: seq<Post>)
    ensures |BatchOf(batch).postDocuments| == |batch|
    ensures |BatchOf(batch).postIds| == |batch|
    ensures |BatchOf(batch).postMetadatas| == |batch|
    ensures forall i :: 0 <= i < |batch| ==>
      && BatchOf(batch).postDocuments[i] == batch[i].title + " " + batch[i].text
      && BatchOf(batch).postIds[i] == batch[i].id
      && BatchOf(batch).postMetadatas[i] == PostMetadataOf(batch[i])
  {
    if |batch| > 0 {
      var init := batch[..|batch| - 1];
      BatchPostLists(init);
      assert forall i :: 0 <= i < |init| ==> batch[i] == init[i];
    }
  }

  /**
   * The metadata the loop stores for post `i` of a batch copies the post's
   * fields unchanged and holds the comma-joined comment ids and tickers.
   */
  lemma StoredPostMetadata(batch: seq<Post>, i: nat)
    requires i < |batch|
    ensures i < |BatchOf(batch).postMetadatas|
    ensures var md, p := BatchOf(batch).postMetadatas[i], batch[i];
      && md.title == p.title && md.text == p.text && md.date == p.date
      && md.score == p.score && md.url == p.url
      && md.upvotes == p.upvotes && md.downvotes == p.downvotes
      && md.numComments == p.numComments
      && md.commentIds == Join(CommentIdList(p), ',')
      && md.tickers == Join(p.tickers, ',')
      && md.bullishCount == p.bullishCount && md.neutralCount == p.neutralCount
      && md.bearishCount == p.bearishCount
  {
    BatchPostLists(batch);
  }

  /** Entry k of the comment lists holds comment c of the post with id `postId`. */
  predicate CommentStoredAt(r: BatchRecords, k: int, postId: string, c: Comment)
  {
    && 0 <= k < |r.commentDocuments| && r.commentDocuments[k] == c.text
    && 0 <= k < |r.commentIds| && r.commentIds[k] == c.id
    && 0 <= k < |r.commentMetadatas| && r.commentMetadatas[k] == CommentMetadata(postId, c.score, c.sentiment, c.text)
  }

  /** The three comment lists of a batch are exactly as long as the batch has comments. */
  lemma {:induction false} BatchCommentCount(batch: seq<Post>)
    ensures |BatchOf(batch).commentDocuments| == CommentTotal(batch)
    ensures |BatchOf(batch).commentIds| == CommentTotal(batch)
    ensures |BatchOf(batch).commentMetadatas| == CommentTotal(batch)
  {
    if |batch| > 0 {
      BatchCommentCount(batch[..|batch| - 1]);
    }
  }

  /**
   * Each comment adds one entry to each of the three comment lists: the
   * c-th comment of the j-th post sits after all comments of the earlier
   * posts, and its metadata carries the id of its parent post.
   */
  lemma {:induction false} CommentPlacement(batch: seq<Post>, j: nat, c: nat)
    requires j < |batch| && c < |batch[j].comments|
    ensures CommentStoredAt(BatchOf(batch), CommentTotal(batch[..j]) + c, batch[j].id, batch[j].comments[c])
  {
    var init := batch[..|batch| - 1];
    var last := batch[|batch| - 1];
    var before := BatchOf(init);
    assert BatchOf(batch) == WithPost(before, last);
    if j < |init| {
      assert batch[..j] == init[..j] && batch[j] == init[j];
      CommentPlacement(init, j, c);
      StoredBeforeStaysStored(before, last, CommentTotal(init[..j]) + c, init[j].id, init[j].comments[c]);
    } else {
      assert batch[..j] == init;
      BatchCommentCount(init);
      StoredLastPost(before, last, c);
    }
  }

  /** Appending a post and its comments keeps every earlier comment entry in place. */
  lemma StoredBeforeStaysStored(before: BatchRecords, p: Post, k: int, postId: string, c: Comment)
    requires CommentStoredAt(before, k, postId, c)
    ensures CommentStoredAt(WithPost(before, p), k, postId, c)
  {
  }

  /** Appending a post puts its c-th comment right after the comments already listed. */
  lemma StoredLastPost(before: BatchRecords, p: Post, c: nat)
    requires |before.commentDocuments| == |before.commentIds| == |before.commentMetadatas|
    requires c < |p.comments|
    ensures CommentStoredAt(WithPost(before, p), |before.commentIds| + c, p.id, p.comments[c])
  {
  }

  /** Post number i of the dump is entry i % 10 of batch i / 10. */
  lemma PostPlacement(posts: seq<Post>, i: nat)
    requires i < |posts|
    ensures i / BatchSize < |Batches(posts)|
    ensures i % BatchSize < |Batches(posts)[i / BatchSize]|
    ensures Batches(posts)[i / BatchSize][i % BatchSize] == posts[i]
    ensures |BatchOf(Batches(posts)[i / BatchSize]).postIds| == |Batches(posts)[i / BatchSize]|
    ensures |BatchOf(Batches(posts)[i / BatchSize]).postMetadatas| == |Batches(posts)[i / BatchSize]|
    ensures BatchOf(Batches(posts)[i / BatchSize]).postIds[i % BatchSize] == posts[i].id
    ensures BatchOf(Batches(posts)[i / BatchSize]).postMetadatas[i % BatchSize] == PostMetadataOf(posts[i])
  {
    var k, r := i / BatchSize, i % BatchSize;
    assert i == k * BatchSize + r && r < BatchSize;
    assert k < NumBatches(|posts|);
    var batch := Batches(posts)[k];
    assert batch == posts[k * BatchSize .. Min(k * BatchSize + BatchSize, |posts|)];
    assert r < |batch| && batch[r] == posts[i];
    BatchPostLists(batch);
  }
}
