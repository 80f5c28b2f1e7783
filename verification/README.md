# Stock-sentiment dashboard: the data-shaping core in Dafny

The dashboard indexes labelled social-media posts about stocks in a vector
store. It then lets a user search them and look at two charts. utils.py
also holds `sort_posts`, which sorts a result list by one field; the page
shows a "Sort by" selector but never calls it. The
code around it is library glue: the vector store client, the price download,
the UI and the plotting. The deterministic logic between those calls is
modelled here, with its properties proved.

- `strings.dfy` (`Strings`): Python's `",".join` and `str.split(",")`.
  - Splitting a join gives back the parts when there is at least one part and
    no part contains the separator.
  - Joining a split always gives back the string.
- `records.dfy` (`Records`): the records involved.
  - A post with its comments, as in the labelled JSON dump.
  - The flat post and comment metadata the vector store keeps.
- `ingest.dfy` (`Ingest`): the ingest script.
  - Posts are cut into batches of `BatchSize = 10`.
  - The six per-batch lists are built by nested loops: post documents, ids and
    metadata, and comment documents, ids and metadata.
  - `Ingest` and `ShapeBatch` are methods with loop invariants. They are proved
    against the functions `Batches` and `BatchOf`, and the lemmas state what
    those functions hold.
- `query.dfy` (`Query`): the loop of `query_posts`.
  - It splits each hit's `comment_ids` again and attaches the comments fetched
    for those ids.
  - The round-trip lemmas link it to the way the ingest script joined them.
- `pie.dfy` (`PieChart`): the three parallel lists handed to the pie chart.
- `sorting.dfy` (`PostSort`): `sort_posts`.
  - The caller's list is a `PostList` object whose `items` the sort replaces.
  - The order is a stable insertion sort (`StableSort`), which is the order
    Python's `list.sort` produces, also with `reverse=True`.
  - The lemmas prove that the result is ordered, a permutation and stable,
    that sorting is idempotent, and that a second sort decides the final order
    on its own.
- `sentiment.dfy` (`SentimentChart`): the data part of
  `plot_stock_sentiment_chart`.
  - Posts are grouped by calendar month and their counts summed.
  - Bullish and bearish are normalised by their sum. Ratios are exact reals,
    and `0/0` is its own NaN value.
  - The monthly rows are left-merged onto the price rows. Normalisation
    works row by row, so the model normalises each row where the merge
    emits it.
  - Rows are split into bullish and bearish bars by the sign of the
    difference.

Inputs the code gets from outside are parameters here:
- the price download is a sequence of (month, close) rows;
- the comment fetch is a function from an id list to comment metadata;
- posts reach the chart with their (year, month) already extracted.

## Model

| member | source | states |
|---|---|---|
| PieChart.PieSlices | utils.py:18-39 | The three lists have equal length, between 1 and 3. All counts zero holds iff the output is exactly `[1]`, `["No sentiments"]`, `["gray"]`. Otherwise the placeholder is absent and a slice name appears iff its count is nonzero. Each slice carries its own count and colour (green, gray, red) at the same index, in the fixed order bullish, neutral, bearish. |
| PostSort.StableSort | utils.py:151 | The sorted list is a permutation of the input, and every record still has the key. |
| PostSort.PostList.Sort | utils.py:151 | `list.sort` by one key: it raises iff some record lacks the key, in which case the list is unchanged. Otherwise the list becomes its stable sort. |
| PostSort.PostList.constructor | utils.py:147 | Wraps the caller's list. |
| PostSort.SortPosts | utils.py:147-153 | An empty list raises IndexError. A key missing on the first post returns False. A key missing on a later post raises KeyError. In all three cases the list is unchanged. Otherwise it returns True and the list is stably sorted, descending unless `ascending`, which defaults to false. |
| PostSort.StableSortOrdered | utils.py:151 | The sorted list is non-increasing by the key when descending and non-decreasing otherwise. |
| PostSort.StableSortKeepsTies | utils.py:151 | Records with equal key values keep their original relative order. |
| PostSort.StableSortOfOrdered | utils.py:151 | A list already ordered by the key is left as it is. |
| PostSort.OrderedWithSameTiesAreEqual | utils.py:151 | Two ordered lists with the same tie groups are equal, so the ordered and stable result is unique. |
| PostSort.StableSortIdempotent | utils.py:147-153 | Repeating the same sort changes nothing. |
| PostSort.LastSortWins | utils.py:151 | Sorting twice by the same key gives what the second sort alone gives, whatever the first direction was. |
| PostSort.TiedPairKeepsOrder | utils.py:151 | For any two distinct posts with equal values of the sort field, sorting ascending and then descending keeps them in their original order, so the descending order is not the reverse of the ascending one. |
| Strings.Split | utils.py:140 | `str.split` on a separator yields one more piece than there are separators, and no piece contains the separator. |
| Strings.SplitJoin | setup.py:46 | Splitting a join of at least one part, none containing the separator, gives back the parts. |
| Strings.JoinSplit | utils.py:140 | Joining the pieces of a split gives back the string. |
| Strings.EmptyJoinSplitsToOneEmptyPiece | setup.py:46 | Joining no parts gives `""`, which splits to `[""]` and not to `[]`. |
| Query.AttachComments | utils.py:139-142 | Each hit keeps its metadata and position. It gets the comments fetched for the ids its `comment_ids` splits to. |
| Query.StoredCommentIdsRoundTrip | setup.py:46 | For a post with at least one comment and no comma in any comment id, the query requests exactly that post's comment ids, in order. |
| Query.NoCommentsRequestsEmptyId | setup.py:46 | A post without comments is stored with `comment_ids == ""`, and the query then requests the single id `""`. |
| Ingest.Ingest | setup.py:24-86 | One record set per batch, in order, each equal to `BatchOf` of the batch slice. |
| Ingest.ShapeBatch | setup.py:27-86 | The six lists built by the nested loops are `BatchOf` of the batch. |
| Ingest.WithComments | setup.py:73-86 | The comments of one post append their texts, ids and metadata, each with the parent's `post_id`, in order. The post lists stay unchanged. |
| Ingest.BatchesCoverInput | setup.py:24-25 | Concatenating the batches gives the input. Every batch has 1 to 10 posts, and all but the last have exactly 10. |
| Ingest.PostPlacement | setup.py:24-25 | Post `i` sits in batch `i / 10` at position `i % 10`, and its id and metadata sit there in that batch's lists. |
| Ingest.BatchPostLists | setup.py:35-70 | The three post lists have the batch's length. Entry `i` is the document `title + " " + text`, the id and the metadata of post `i`. |
| Ingest.StoredPostMetadata | setup.py:37-70 | The metadata the loop stores for post `i` of a batch copies its title, text, date, score, url, votes, comment count and three counts unchanged. Its `comment_ids` and `tickers` are the comma-joins of the post's comment ids and tickers, in order. |
| Ingest.BatchCommentCount | setup.py:73-86 | The three comment lists have the batch's total number of comments. |
| Ingest.CommentPlacement | setup.py:73-86 | Comment `c` of post `j` is stored after the comments of posts `0..j-1`, with its text, id, score, sentiment and the parent's id. |
| SentimentChart.Find | utils.py:79 | A month's bucket is found iff the month has a bucket. The found bucket is one of the buckets and has that month. |
| SentimentChart.GroupByMonthIncreasing | utils.py:57 | The grouped rows are in strictly increasing month order, so no month appears twice. |
| SentimentChart.GroupByMonthMonths | utils.py:54-57 | The grouped months are exactly the months of the posts. |
| SentimentChart.GroupByMonthSums | utils.py:54-57 | The counts found for any month are the sums over that month's posts, and zero for a month without posts. |
| SentimentChart.GroupByMonthBuckets | utils.py:57 | Each grouped row holds the counts summed over its month's posts. |
| SentimentChart.GroupByMonthTotals | utils.py:57 | The grand totals of the three counts are preserved. |
| SentimentChart.NormalisedSign | utils.py:61-86 | The difference of the normalised ratios is NaN iff bullish and bearish are both 0. Otherwise it is positive iff bullish > bearish and negative iff bullish < bearish. |
| SentimentChart.PricedRow | utils.py:72-86 | With a ticker and a non-empty download there is one row per price row, in order, with its month and close. The row carries its month's neutral sum. It is a bullish bar iff the month's bullish sum exceeds its bearish sum, and a bearish bar iff it is below. A month without posts gives neither. |
| SentimentChart.UnpricedRows | utils.py:64-71 | Without a ticker or with an empty download, the rows are one per post month, in increasing month order, with close 0. Bar membership follows the month's sums as above. |
| SentimentChart.BullishBarsMembers | utils.py:92-97 | A row is a bullish bar iff it is a merged row with a positive difference. |
| SentimentChart.BearishBarsMembers | utils.py:100-105 | A row is a bearish bar iff it is a merged row with a negative difference. |
| SentimentChart.BarsDisjoint | utils.py:92-105 | No row is both a bullish and a bearish bar. |
| SentimentChart.ChartOutcome | utils.py:46-105 | The chart fails iff the post list is empty, because the frame then has no `date` column. Otherwise the bars are the merged rows with positive and negative difference. |
| SentimentChart.TwoMonthExample | utils.py:54-86 | Three posts over January and February 2021 give the stated ratios (0.25 and 0.75 in February), a difference of -0.5, and one bar of each colour. |

## Left out

- The vector store client is not modelled: opening, deleting, creating, adding, querying and fetching (utils.py:12-15, 133-137, 141; setup.py:11-18, 89-100). The comment fetch is a function parameter of `Query.AttachComments`.
- `Query.AttachComments` returns new records. The code instead adds a `comments` entry to each hit's dictionary in place.
- The price download and the reshaping of its frame (utils.py:68, 73-77) are replaced by an input sequence of (month, close) rows.
- Date parsing and `to_period('M')` (utils.py:51-54) are not modelled: posts carry their (year, month). The conversion of months to strings (utils.py:82) is presentation only.
- Floating point is not modelled: ratios are exact reals. While a month's bullish plus bearish sum stays below 2^53, rounding cannot change a bar's membership: unequal sums give ratios at least one unit in the last place apart, so their float difference keeps its sign, and equal sums give exactly 0. Above that, rounding can make unequal sums compare equal. For example, sums 2^54+2 and 2^54+1 both become the float 2^54, and the row falls in neither bar series, where the model gives a bullish bar.
- Monthly sums are 64-bit integers in the code and unbounded in the model; wrap-around on overflow is not modelled.
- The bar heights are the difference times 3 (utils.py:94, 102). The model keeps the rows that become bars, not the scaled heights.
- Figure construction and layout with the plotting library (utils.py:41, 89-129) are not modelled. The model stops at the lists and rows handed to it.
- `PostSort.SortPosts`: records keep only their integer fields. Sorting by a string field, or by values of mixed types (a `TypeError` in Python), is not modelled.
- `plot_stock_sentiment_chart` with an empty result list fails with a missing `date` column, and `SentimentChart.ChartOutcome` states that. No empty chart is ever produced.
- A key absent from the first post makes `sort_posts` return False with the list unchanged. A key absent only from a later post makes it raise KeyError, with the list unchanged as well.
- The Streamlit page in app.py is not part of this model. Its calls pass three arguments to `query_posts` and the whole result list to the pie chart, which do not match the signatures in utils.py.
- Numeric fields of the dump (score, votes, comment count, the three counts) are modelled as integers. JSON floats there are not modelled; the ingest copies them unchanged, and only a NaN would order differently under `sort_posts`.
- Input typing: sentiment counts are natural numbers, so negative tallies are excluded. In the code, counts such as 1 and -1 would divide by a zero sum and give an infinite ratio. A post record always has every field, so a dump entry missing a key is excluded. In the code, such an entry raises KeyError at setup.py:37-51 after the earlier batches were already added.
- File reading, JSON loading, progress bars and environment loading (setup.py:20-21, 24; utils.py:10) are I/O and not modelled.
- `ThreadPoolExecutor` is imported (utils.py:4) but never used. There is no concurrency to model.
