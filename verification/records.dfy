/**
 * The records that flow between the ingest script and the dashboard: a
 * post and its comments as they appear in the labelled JSON dump, and the
 * flat metadata dictionaries the vector store keeps for each of them.
 * JSON numbers are modelled as integers.
 */
module Records {

  /** One comment as it appears under a post in the JSON dump. */
  datatype Comment = Comment(id: string, text: string, score: int, sentiment: string)

  /** One post of the JSON dump, with its embedded comments. */
  datatype Post = Post(
    id: string,
    title: string,
    text: string,
    date: string,
    score: int,
    url: string,
    upvotes: int,
    downvotes: int,
    numComments: int,
    tickers: seq<string>,
    bullishCount: int,
    neutralCount: int,
    bearishCount: int,
    comments: seq<Comment>)

  /**
   * The metadata dictionary stored for a post. Lists are not allowed as
   * metadata values, so the comment ids and the tickers are stored as
   * comma-joined strings.
   */
  datatype PostMetadata = PostMetadata(
    title: string,
    text: string,
    date: string,
    score: int,
    url: string,
    upvotes: int,
    downvotes: int,
    numComments: int,
    commentIds: string,
    tickers: string,
    bullishCount: int,
    neutralCount: int,
    bearishCount: int)

  /** The metadata dictionary stored for a comment; `postId` points back at its post. */
  datatype CommentMetadata = CommentMetadata(postId: string, score: int, sentiment: string, text: string)

  /** The ids of a post's comments, in the order the dump lists them. */
  function CommentIdList(p: Post): seq<string>
  {
    seq(|p.comments|, i requires 0 <= i < |p.comments| => p.comments[i].id)
  }
}
