/**
 * The data flow of `plot_stock_sentiment_chart` (utils.py): posts are
 * grouped by calendar month and their sentiment counts summed, bullish and
 * bearish are normalised by their sum, the monthly rows are left-merged
 * onto the price rows, and each row goes to the bullish bars, the bearish
 * bars or neither by the sign of bullish ratio minus bearish ratio.
 *
 * A `DatedPost` is a post's metadata as the query returns it, after its
 * date has been parsed to a (year, month), keeping only the three counts,
 * narrowed to natural numbers. The price download arrives as a sequence
 * of (month, close) rows, one per trading day. Ratios are exact real numbers; NaN is a value of its own.
 */
module SentimentChart {

  /** A calendar month, the grouping key (`to_period('M')`). */
  datatype Month = Month(year: int, month: int)

  /** Calendar order of months. */
  predicate Before(a: Month, b: Month)
  {
    a.year < b.year || (a.year == b.year && a.month < b.month)
  }

  /** The three sentiment tallies of a post or of a month. */
  datatype Counts = Counts(bullish: nat, neutral: nat, bearish: nat)

  function NoCounts(): Counts { Counts(0, 0, 0) }

  function Plus(a: Counts, b: Counts): Counts
  {
    Counts(a.bullish + b.bullish, a.neutral + b.neutral, a.bearish + b.bearish)
  }

  /** What the chart reads from a post: its month and its three counts. */
  datatype DatedPost = DatedPost(month: Month, counts: Counts)

  /** One row of the grouped frame: a month and its summed counts. */
  datatype Bucket = Bucket(month: Month, counts: Counts)

  /** The counts summed over the posts of month `m` (zero when there are none). */
  function MonthTotal(posts: seq<DatedPost>, m: Month): Counts
  {
    if |posts| == 0 then NoCounts()
    else
      var last := posts[|posts| - 1];
      if last.month == m then Plus(MonthTotal(posts[..|posts| - 1], m), last.counts)
      else MonthTotal(posts[..|posts| - 1], m)
  }

  /** The counts summed over all posts. */
  function GrandTotal(posts: seq<DatedPost>): Counts
  {
    if |posts| == 0 then NoCounts() else Plus(GrandTotal(posts[..|posts| - 1]), posts[|posts| - 1].counts)
  }

  /** The counts summed over all buckets. */
  function BucketTotal(bs: seq<Bucket>): Counts
  {
    if |bs| == 0 then NoCounts() else Plus(bs[0].counts, BucketTotal(bs[1..]))
  }

  function PostMonths(posts: seq<DatedPost>): set<Month>
  {
    set i | 0 <= i < |posts| :: posts[i].month
  }

  function BucketMonths(bs: seq<Bucket>): set<Month>
  {
    set i | 0 <= i < |bs| :: bs[i].month
  }

  /** Strictly increasing months: sorted, and no month twice. */
  predicate Increasing(bs: seq<Bucket>)
  {
    forall i, j :: 0 <= i < j < |bs| ==> Before(bs[i].month, bs[j].month)
  }

  datatype Option<T> = None | Some(value: T)

  /** The first bucket for month `m`, if any: the key match of the left merge. */
  function Find(bs: seq<Bucket>, m: Month): (r: Option<Bucket>)
    ensures r.Some? <==> m in BucketMonths(bs)
    ensures r.Some? ==> r.value.month == m && r.value in bs
  {
    if |bs| == 0 then None
    else if bs[0].month == m then Some(bs[0])
    else
      BucketMonthsCons(bs[0], bs[1..]);
      assert [bs[0]] + bs[1..] == bs;
      Find(bs[1..], m)
  }

  /** The counts of the bucket for month `m`, or zero counts when there is none. */
  function Lookup(bs: seq<Bucket>, m: Month): Counts
  {
    match Find(bs, m)
    case None => NoCounts()
    case Some(b) => b.counts
  }

  /**
   * Adds one post to buckets kept in month order: into the bucket of its
   * month when there is one, otherwise as a new bucket in its place.
   */
  function AddToBuckets(bs: seq<Bucket>, p: DatedPost): seq<Bucket>
  {
    if |bs| == 0 then [Bucket(p.month, p.counts)]
    else if bs[0].month == p.month then [Bucket(p.month, Plus(bs[0].counts, p.counts))] + bs[1..]
    else if Before(p.month, bs[0].month) then [Bucket(p.month, p.counts)] + bs
    else [bs[0]] + AddToBuckets(bs[1..], p)
  }

  /** Adding a post adds its month to the bucket months and nothing else. */
  lemma {:induction false} AddToBucketsMonths(bs: seq<Bucket>, p: DatedPost)
    ensures BucketMonths(AddToBuckets(bs, p)) == BucketMonths(bs) + {p.month}
  {
    var r := AddToBuckets(bs, p);
    if |bs| == 0 {
      BucketMonthsCons(Bucket(p.month, p.counts), bs);
      assert r == [Bucket(p.month, p.counts)] + bs;
    } else if bs[0].month == p.month {
      BucketMonthsCons(r[0], bs[1..]);
      BucketMonthsCons(bs[0], bs[1..]);
      assert r == [r[0]] + bs[1..];
      assert bs == [bs[0]] + bs[1..];
    } else if Before(p.month, bs[0].month) {
      BucketMonthsCons(r[0], bs);
      assert r == [r[0]] + bs;
    } else {
      var rest := AddToBuckets(bs[1..], p);
      AddToBucketsMonths(bs[1..], p);
      BucketMonthsCons(bs[0], rest);
      BucketMonthsCons(bs[0], bs[1..]);
      assert r == [bs[0]] + rest;
      assert bs == [bs[0]] + bs[1..];
    }
  }

  /** Adding a post keeps the buckets in strictly increasing month order. */
  lemma {:induction false} AddToBucketsIncreasing(bs: seq<Bucket>, p: DatedPost)
    requires Increasing(bs)
    ensures Increasing(AddToBuckets(bs, p))
  {
    var r := AddToBuckets(bs, p);
    if |bs| > 0 && bs[0].month != p.month && !Before(p.month, bs[0].month) {
      var rest := AddToBuckets(bs[1..], p);
      AddToBucketsIncreasing(bs[1..], p);
      AddToBucketsMonths(bs[1..], p);
      assert r == [bs[0]] + rest;
      forall j | 0 < j < |r| ensures Before(bs[0].month, r[j].month) {
        assert r[j] == rest[j - 1];
        assert r[j].month in BucketMonths(rest);
        if r[j].month != p.month {
          assert r[j].month in BucketMonths(bs[1..]);
          var k :| 0 <= k < |bs[1..]| && bs[1..][k].month == r[j].month;
          assert bs[k + 1].month == r[j].month;
        }
      }
    }
  }

  lemma BucketMonthsCons(b: Bucket, bs: seq<Bucket>)
    ensures BucketMonths([b] + bs) == {b.month} + BucketMonths(bs)
  {
    var r := [b] + bs;
    forall x | x in BucketMonths(r) ensures x in {b.month} + BucketMonths(bs) {
      var i :| 0 <= i < |r| && r[i].month == x;
      if i > 0 { assert bs[i - 1].month == x; }
    }
    forall x | x in BucketMonths(bs) ensures x in BucketMonths(r) {
      var i :| 0 <= i < |bs| && bs[i].month == x;
      assert r[i + 1].month == x;
    }
    assert r[0].month == b.month;
  }

  /** In increasing buckets, a month earlier than the first has no bucket. */
  lemma {:induction false} LookupBeforeFirst(bs: seq<Bucket>, m: Month)
    requires Increasing(bs) && |bs| > 0 && Before(m, bs[0].month)
    ensures Lookup(bs, m) == NoCounts()
  {
    if |bs| > 1 {
      LookupBeforeFirst(bs[1..], m);
    }
  }

  /**
   * `groupby('Month')[...].sum()`: the posts added one by one to buckets
   * kept in month order. The lemmas below state what the result holds.
   */
  function GroupByMonth(posts: seq<DatedPost>): seq<Bucket>
  {
    if |posts| == 0 then []
    else AddToBuckets(GroupByMonth(posts[..|posts| - 1]), posts[|posts| - 1])
  }

  /** The buckets are in increasing month order, with no month twice. */
  lemma {:induction false} GroupByMonthIncreasing(posts: seq<DatedPost>)
    ensures Increasing(GroupByMonth(posts))
  {
    if |posts| > 0 {
      GroupByMonthIncreasing(posts[..|posts| - 1]);
      AddToBucketsIncreasing(GroupByMonth(posts[..|posts| - 1]), posts[|posts| - 1]);
    }
  }

  /** There is a bucket for a month exactly when some post falls in that month. */
  lemma {:induction false} GroupByMonthMonths(posts: seq<DatedPost>)
    ensures BucketMonths(GroupByMonth(posts)) == PostMonths(posts)
  {
    if |posts| > 0 {
      var init := posts[..|posts| - 1];
      GroupByMonthMonths(init);
      AddToBucketsMonths(GroupByMonth(init), posts[|posts| - 1]);
      forall x | x in PostMonths(posts) ensures x in PostMonths(init) + {posts[|posts| - 1].month} {
        var i :| 0 <= i < |posts| && posts[i].month == x;
        if i < |posts| - 1 { assert init[i].month == x; }
      }
      forall x | x in PostMonths(init) ensures x in PostMonths(posts) {
        var i :| 0 <= i < |init| && init[i].month == x;
        assert posts[i].month == x;
      }
    }
  }

  lemma LookupCons(b: Bucket, bs: seq<Bucket>, m: Month)
    ensures Lookup([b] + bs, m) == if b.month == m then b.counts else Lookup(bs, m)
  {
    assert ([b] + bs)[0] == b && ([b] + bs)[1..] == bs;
  }

  /** Adding a post adds its counts to its own month and to no other. */
  lemma {:induction false} AddToBucketsLookup(bs: seq<Bucket>, p: DatedPost, m: Month)
    requires Increasing(bs)
    ensures Lookup(AddToBuckets(bs, p), m) == if m == p.month then Plus(Lookup(bs, m), p.counts) else Lookup(bs, m)
  {
    if |bs| == 0 {
      assert AddToBuckets(bs, p) == [Bucket(p.month, p.counts)] + bs;
      LookupCons(Bucket(p.month, p.counts), bs, m);
    } else if bs[0].month == p.month {
      var b := Bucket(p.month, Plus(bs[0].counts, p.counts));
      assert AddToBuckets(bs, p) == [b] + bs[1..];
      LookupCons(b, bs[1..], m);
      LookupCons(bs[0], bs[1..], m);
      assert [bs[0]] + bs[1..] == bs;
    } else if Before(p.month, bs[0].month) {
      assert AddToBuckets(bs, p) == [Bucket(p.month, p.counts)] + bs;
      LookupCons(Bucket(p.month, p.counts), bs, m);
      if m == p.month {
        LookupBeforeFirst(bs, m);
      }
    } else {
      var rest := AddToBuckets(bs[1..], p);
      assert AddToBuckets(bs, p) == [bs[0]] + rest;
      AddToBucketsLookup(bs[1..], p, m);
      LookupCons(bs[0], rest, m);
      LookupCons(bs[0], bs[1..], m);
      assert [bs[0]] + bs[1..] == bs;
    }
  }

  /** Adding a post adds its counts to the bucket total. */
  lemma {:induction false} AddToBucketsTotal(bs: seq<Bucket>, p: DatedPost)
    requires Increasing(bs)
    ensures BucketTotal(AddToBuckets(bs, p)) == Plus(BucketTotal(bs), p.counts)
  {
    var r := AddToBuckets(bs, p);
    if |bs| > 0 {
      if bs[0].month == p.month {
        assert r[1..] == bs[1..];
      } else if Before(p.month, bs[0].month) {
        assert r[1..] == bs;
      } else {
        AddToBucketsTotal(bs[1..], p);
        assert r[1..] == AddToBuckets(bs[1..], p);
      }
    }
  }

  /** Each month's bucket holds the counts summed over that month's posts (zero for other months). */
  lemma {:induction false} GroupByMonthSums(posts: seq<DatedPost>, m: Month)
    ensures Lookup(GroupByMonth(posts), m) == MonthTotal(posts, m)
  {
    if |posts| > 0 {
      var init := posts[..|posts| - 1];
      GroupByMonthSums(init, m);
      GroupByMonthIncreasing(init);
      AddToBucketsLookup(GroupByMonth(init), posts[|posts| - 1], m);
    }
  }

  /** Grouping preserves the grand totals of each count. */
  lemma {:induction false} GroupByMonthTotals(posts: seq<DatedPost>)
    ensures BucketTotal(GroupByMonth(posts)) == GrandTotal(posts)
  {
    if |posts| > 0 {
      var init := posts[..|posts| - 1];
      GroupByMonthTotals(init);
      GroupByMonthIncreasing(init);
      AddToBucketsTotal(GroupByMonth(init), posts[|posts| - 1]);
    }
  }

  /** In increasing buckets, looking up a bucket's own month finds that bucket. */
  lemma {:induction false} LookupAt(bs: seq<Bucket>, i: nat)
    requires Increasing(bs) && i < |bs|
    ensures Lookup(bs, bs[i].month) == bs[i].counts
  {
    if i > 0 {
      assert Before(bs[0].month, bs[i].month);
      LookupAt(bs[1..], i - 1);
    }
  }

  /** A month without a bucket looks up as zero counts. */
  lemma {:induction false} LookupAbsent(bs: seq<Bucket>, m: Month)
    requires m !in BucketMonths(bs)
    ensures Lookup(bs, m) == NoCounts()
  {
    if |bs| > 0 {
      BucketMonthsCons(bs[0], bs[1..]);
      assert [bs[0]] + bs[1..] == bs;
      LookupAbsent(bs[1..], m);
    }
  }

  /** Each bucket holds exactly the counts summed over the posts of its month. */
  lemma GroupByMonthBuckets(posts: seq<DatedPost>)
    ensures forall i :: 0 <= i < |GroupByMonth(posts)| ==>
      GroupByMonth(posts)[i].counts == MonthTotal(posts, GroupByMonth(posts)[i].month)
  {
    var r := GroupByMonth(posts);
    GroupByMonthIncreasing(posts);
    forall i | 0 <= i < |r| ensures r[i].counts == MonthTotal(posts, r[i].month) {
      LookupAt(r, i);
      GroupByMonthSums(posts, r[i].month);
    }
  }

  /** A month in which no post falls has zero summed counts. */
  lemma {:induction false} MonthTotalAbsent(posts: seq<DatedPost>, m: Month)
    requires m !in PostMonths(posts)
    ensures MonthTotal(posts, m) == NoCounts()
  {
    GroupByMonthMonths(posts);
    LookupAbsent(GroupByMonth(posts), m);
    GroupByMonthSums(posts, m);
  }

  // ---------------------------------------------------------------------
  // Normalisation, merge and the bar split
  // ---------------------------------------------------------------------

  /** A numeric cell of the data frame; `0 / 0` gives NaN. */
  datatype Cell = NaN | Num(x: real)

  /** `part / whole` as the frame computes it. */
  function Ratio(part: nat, whole: nat): Cell
  {
    if whole == 0 then NaN else Num(part as real / whole as real)
  }

  /** `a - b` on cells: NaN when either side is NaN. */
  function Minus(a: Cell, b: Cell): Cell
  {
    if a.NaN? || b.NaN? then NaN else Num(a.x - b.x)
  }

  /** `fillna(0)`. */
  function FillNa(c: Cell): Cell
  {
    if c.NaN? then Num(0.0) else c
  }

  /** A row of the grouped frame after bullish and bearish were divided by their sum. */
  datatype MonthRow = MonthRow(month: Month, bullish: Cell, neutral: nat, bearish: Cell)

  function Normalise(b: Bucket): MonthRow
  {
    var whole := b.counts.bullish + b.counts.bearish;
    MonthRow(b.month, Ratio(b.counts.bullish, whole), b.counts.neutral, Ratio(b.counts.bearish, whole))
  }

  /** One row of the downloaded prices: the trading day's month and its closing price. */
  datatype PriceRow = PriceRow(month: Month, close: real)

  /** One row of the merged frame that the chart is drawn from. */
  datatype ChartRow = ChartRow(month: Month, close: real, bullish: Cell, neutral: nat, bearish: Cell)

  /**
   * The merged frame, built from the grouped buckets. Normalisation works
   * row by row, so each row is normalised where it is emitted. Without a
   * ticker, or when the download is empty, the sentiment rows are kept as
   * they are with `Close = 0` (and no `fillna`). Otherwise the price rows
   * are left-merged with the sentiment rows on the month and every NaN
   * becomes 0.
   */
  function Merge(bs: seq<Bucket>, ticker: string, prices: seq<PriceRow>): seq<ChartRow>
  {
    if ticker == "" || |prices| == 0 then
      seq(|bs|, i requires 0 <= i < |bs| =>
        var r := Normalise(bs[i]);
        ChartRow(r.month, 0.0, r.bullish, r.neutral, r.bearish))
    else
      seq(|prices|, i requires 0 <= i < |prices| =>
        match Find(bs, prices[i].month)
        case None => ChartRow(prices[i].month, prices[i].close, Num(0.0), 0, Num(0.0))
        case Some(b) =>
          var r := Normalise(b);
          ChartRow(prices[i].month, prices[i].close, FillNa(r.bullish), r.neutral, FillNa(r.bearish)))
  }

  /** The `Bullish-Bearish` column. */
  function Difference(row: ChartRow): Cell
  {
    Minus(row.bullish, row.bearish)
  }

  /** `Bullish-Bearish > 0`; a NaN compares false. */
  predicate IsBullishBar(row: ChartRow)
  {
    Difference(row).Num? && Difference(row).x > 0.0
  }

  /** `Bullish-Bearish < 0`; a NaN compares false. */
  predicate IsBearishBar(row: ChartRow)
  {
    Difference(row).Num? && Difference(row).x < 0.0
  }

  /** The rows drawn as green bars, in frame order. */
  function BullishBars(rows: seq<ChartRow>): seq<ChartRow>
  {
    if |rows| == 0 then []
    else (if IsBullishBar(rows[0]) then [rows[0]] else []) + BullishBars(rows[1..])
  }

  /** The rows drawn as red bars, in frame order. */
  function BearishBars(rows: seq<ChartRow>): seq<ChartRow>
  {
    if |rows| == 0 then []
    else (if IsBearishBar(rows[0]) then [rows[0]] else []) + BearishBars(rows[1..])
  }

  /** What the figure is built from: the merged rows (price line) and the two bar series. */
  datatype Chart = Chart(rows: seq<ChartRow>, bullishBars: seq<ChartRow>, bearishBars: seq<ChartRow>)

  /** Building a frame from an empty result list leaves it without a `date` column. */
  datatype ChartError = MissingDateColumn

  datatype Result<T> = Success(value: T) | Failure(error: ChartError)

  /** The data part of `plot_stock_sentiment_chart`. */
  function StockSentimentChart(posts: seq<DatedPost>, ticker: string, prices: seq<PriceRow>): Result<Chart>
  {
    if |posts| == 0 then Failure(MissingDateColumn)
    else
      var rows := Merge(GroupByMonth(posts), ticker, prices);
      Success(Chart(rows, BullishBars(rows), BearishBars(rows)))
  }

  /**
   * The sign of bullish ratio minus bearish ratio is the sign of bullish
   * count minus bearish count; the difference is NaN exactly when both
   * counts are zero.
   */
  lemma NormalisedSign(c: Counts)
    ensures var d := Minus(Ratio(c.bullish, c.bullish + c.bearish), Ratio(c.bearish, c.bullish + c.bearish));
      && (d.NaN? <==> c.bullish == 0 && c.bearish == 0)
      && (d.Num? ==> (d.x > 0.0 <==> c.bullish > c.bearish) && (d.x < 0.0 <==> c.bullish < c.bearish))
  {
    var w := c.bullish + c.bearish;
    if w > 0 {
      var b, e, wr := c.bullish as real, c.bearish as real, w as real;
      assert b / wr - e / wr == (b - e) / wr;
    }
  }

  /**
   * With a ticker and a non-empty download the chart has one row per price
   * row, in download order, carrying that row's month and close. Its
   * neutral count is the month's summed neutral count, and it is a
   * bullish bar exactly when the month's posts hold more bullish than
   * bearish counts, a bearish bar exactly when they hold fewer; a month
   * without posts gives neither.
   */
  lemma PricedRow(posts: seq<DatedPost>, ticker: string, prices: seq<PriceRow>, i: nat)
    requires ticker != "" && |prices| > 0 && i < |prices|
    ensures var rows := Merge(GroupByMonth(posts), ticker, prices);
      var t := MonthTotal(posts, prices[i].month);
      && |rows| == |prices|
      && rows[i].month == prices[i].month && rows[i].close == prices[i].close
      && rows[i].neutral == t.neutral
      && (IsBullishBar(rows[i]) <==> t.bullish > t.bearish)
      && (IsBearishBar(rows[i]) <==> t.bullish < t.bearish)
  {
    var bs := GroupByMonth(posts);
    var m := prices[i].month;
    GroupByMonthSums(posts, m);
    var t := MonthTotal(posts, m);
    if m in BucketMonths(bs) {
      NormalisedSign(t);
    } else {
      LookupAbsent(bs, m);
    }
  }

  /**
   * Without a ticker, or with an empty download, the chart has one row per
   * month in which some post falls, in increasing month order, with close
   * 0; each row is a bullish bar exactly when its month holds more bullish
   * than bearish counts and a bearish bar exactly when it holds fewer.
   */
  lemma UnpricedRows(posts: seq<DatedPost>, ticker: string, prices: seq<PriceRow>)
    requires ticker == "" || |prices| == 0
    ensures var rows := Merge(GroupByMonth(posts), ticker, prices);
      && (set i | 0 <= i < |rows| :: rows[i].month) == PostMonths(posts)
      && (forall i, j :: 0 <= i < j < |rows| ==> Before(rows[i].month, rows[j].month))
      && (forall i :: 0 <= i < |rows| ==>
            var t := MonthTotal(posts, rows[i].month);
            && rows[i].close == 0.0
            && rows[i].neutral == t.neutral
            && (IsBullishBar(rows[i]) <==> t.bullish > t.bearish)
            && (IsBearishBar(rows[i]) <==> t.bullish < t.bearish))
  {
    var bs := GroupByMonth(posts);
    var rows := Merge(bs, ticker, prices);
    GroupByMonthIncreasing(posts);
    GroupByMonthMonths(posts);
    GroupByMonthBuckets(posts);
    assert (set i | 0 <= i < |rows| :: rows[i].month) == BucketMonths(bs) by {
      forall x | x in BucketMonths(bs) ensures x in (set i | 0 <= i < |rows| :: rows[i].month) {
        var i :| 0 <= i < |bs| && bs[i].month == x;
        assert rows[i].month == x;
      }
    }
    forall i | 0 <= i < |rows|
      ensures var t := MonthTotal(posts, rows[i].month);
        && (IsBullishBar(rows[i]) <==> t.bullish > t.bearish)
        && (IsBearishBar(rows[i]) <==> t.bullish < t.bearish)
    {
      NormalisedSign(bs[i].counts);
    }
  }

  /** A row is among the bullish bars exactly when it is a row with a positive difference. */
  lemma {:induction false} BullishBarsMembers(rows: seq<ChartRow>, x: ChartRow)
    ensures x in BullishBars(rows) <==> x in rows && IsBullishBar(x)
  {
    if |rows| > 0 {
      BullishBarsMembers(rows[1..], x);
      assert rows == [rows[0]] + rows[1..];
    }
  }

  /** A row is among the bearish bars exactly when it is a row with a negative difference. */
  lemma {:induction false} BearishBarsMembers(rows: seq<ChartRow>, x: ChartRow)
    ensures x in BearishBars(rows) <==> x in rows && IsBearishBar(x)
  {
    if |rows| > 0 {
      BearishBarsMembers(rows[1..], x);
      assert rows == [rows[0]] + rows[1..];
    }
  }

  /** No row is drawn both as a bullish and as a bearish bar. */
  lemma BarsDisjoint(rows: seq<ChartRow>, x: ChartRow)
    ensures !(x in BullishBars(rows) && x in BearishBars(rows))
  {
    BullishBarsMembers(rows, x);
    BearishBarsMembers(rows, x);
  }

  /**
   * The chart fails only for an empty post list; otherwise its bar series
   * are exactly the merged rows with positive and negative difference.
   */
  lemma ChartOutcome(posts: seq<DatedPost>, ticker: string, prices: seq<PriceRow>, x: ChartRow)
    ensures StockSentimentChart(posts, ticker, prices).Failure? <==> |posts| == 0
    ensures StockSentimentChart(posts, ticker, prices).Success? ==>
      var c := StockSentimentChart(posts, ticker, prices).value;
      && c.rows == Merge(GroupByMonth(posts), ticker, prices)
      && (x in c.bullishBars <==> x in c.rows && IsBullishBar(x))
      && (x in c.bearishBars <==> x in c.rows && IsBearishBar(x))
  {
    var rows := Merge(GroupByMonth(posts), ticker, prices);
    BullishBarsMembers(rows, x);
    BearishBarsMembers(rows, x);
  }

  /**
   * Three posts, one in January 2021 with two bullish counts and two in
   * February 2021 with (bullish, neutral, bearish) = (1, 0, 1) and (0, 1, 2):
   * without a ticker the chart has the two months as rows, February's
   * ratios are 0.25 and 0.75 with difference -0.5, January is the one
   * bullish bar and February the one bearish bar.
   */
  lemma TwoMonthExample()
    ensures var jan, feb := Month(2021, 1), Month(2021, 2);
      var posts := [DatedPost(jan, Counts(2, 0, 0)), DatedPost(feb, Counts(1, 0, 1)), DatedPost(feb, Counts(0, 1, 2))];
      var c := StockSentimentChart(posts, "", []);
      && c.Success?
      && |c.value.rows| == 2
      && c.value.rows[0] == ChartRow(jan, 0.0, Num(1.0), 0, Num(0.0))
      && c.value.rows[1] == ChartRow(feb, 0.0, Num(0.25), 1, Num(0.75))
      && Difference(c.value.rows[1]) == Num(-0.5)
      && c.value.bullishBars == [c.value.rows[0]]
      && c.value.bearishBars == [c.value.rows[1]]
  {
    var jan, feb := Month(2021, 1), Month(2021, 2);
    var p0, p1, p2 := DatedPost(jan, Counts(2, 0, 0)), DatedPost(feb, Counts(1, 0, 1)), DatedPost(feb, Counts(0, 1, 2));
    var posts := [p0, p1, p2];
    assert posts[..1] == [p0] && posts[..2] == [p0, p1] && [p0, p1][..1] == [p0] && [p0][..0] == [];
    var b1 := AddToBuckets([], p0);
    assert GroupByMonth([p0]) == b1 == [Bucket(jan, Counts(2, 0, 0))];
    var b2 := AddToBuckets(b1, p1);
    assert b1[1..] == [];
    assert AddToBuckets([], p1) == [Bucket(feb, Counts(1, 0, 1))];
    assert b2 == [b1[0]] + AddToBuckets(b1[1..], p1);
    assert GroupByMonth([p0, p1]) == b2 == [Bucket(jan, Counts(2, 0, 0)), Bucket(feb, Counts(1, 0, 1))];
    var b3 := AddToBuckets(b2, p2);
    assert b2[1..] == [Bucket(feb, Counts(1, 0, 1))] && b2[1..][1..] == [];
    assert AddToBuckets(b2[1..], p2) == [Bucket(feb, Counts(1, 1, 3))];
    assert b3 == [b2[0]] + AddToBuckets(b2[1..], p2);
    assert GroupByMonth(posts) == b3 == [Bucket(jan, Counts(2, 0, 0)), Bucket(feb, Counts(1, 1, 3))];
    var rows := Merge(b3, "", []);
    assert rows[1].bullish == Num(1.0 / 4.0) && rows[1].bearish == Num(3.0 / 4.0);
    assert rows[0] == ChartRow(jan, 0.0, Num(1.0), 0, Num(0.0));
    assert rows[1] == ChartRow(feb, 0.0, Num(0.25), 1, Num(0.75));
    assert IsBullishBar(rows[0]) && !IsBearishBar(rows[0]);
    assert !IsBullishBar(rows[1]) && IsBearishBar(rows[1]);
    assert rows[1..] == [rows[1]] && rows[1..][1..] == [];
    assert BullishBars(rows[1..]) == [] && BearishBars(rows[1..]) == [rows[1]];
  }
}
