/**
 * The data behind the sentiment pie chart (`plot_sentiment_pie_chart` in
 * utils.py): three parallel lists of slice values, slice names and slice
 * colours, built from the bullish, neutral and bearish counts. The figure
 * that the plotting library draws from them is not modelled.
 */
module PieChart {

  /** The slice names, in the order the function considers them. */
  const SliceNames: seq<string> := ["bullish", "neutral", "bearish"]

  /** The colour paired with each slice name, index for index. */
  const SliceColors: seq<string> := ["green", "gray", "red"]

  /** The one slice shown when there is nothing to show. */
  const Placeholder: string := "No sentiments"

  /** Position of a slice name in `SliceNames`; 3 for any other string. */
  function Rank(name: string): nat
  {
    if name == SliceNames[0] then 0
    else if name == SliceNames[1] then 1
    else if name == SliceNames[2] then 2
    else 3
  }

  /** The count given for the slice at position `slot`. */
  function CountAt(slot: nat, bullishCount: int, neutralCount: int, bearishCount: int): int
    requires slot < 3
  {
    if slot == 0 then bullishCount else if slot == 1 then neutralCount else bearishCount
  }

  /** Python's truth test on a count: a count is shown when it is not zero. */
  predicate AllZero(bullishCount: int, neutralCount: int, bearishCount: int)
  {
    bullishCount == 0 && neutralCount == 0 && bearishCount == 0
  }

  /**
   * The lists handed to the pie chart. A slice appears iff its count is
   * non-zero; slices keep the order bullish, neutral, bearish, and each
   * carries its own count and its own colour at the same index. With all
   * counts zero the lists are exactly the placeholder slice.
   */
  method PieSlices(bullishCount: int, neutralCount: int, bearishCount: int)
    returns (values: seq<int>, labels: seq<string>, colors: seq<string>)
    ensures |values| == |labels| == |colors|
    ensures 1 <= |labels| <= 3
    ensures AllZero(bullishCount, neutralCount, bearishCount) <==>
            (values == [1] && labels == [Placeholder] && colors == ["gray"])
    ensures !AllZero(bullishCount, neutralCount, bearishCount) ==>
      && Placeholder !in labels
      && (forall s :: 0 <= s < 3 ==>
            (SliceNames[s] in labels <==> CountAt(s, bullishCount, neutralCount, bearishCount) != 0))
      && (forall i :: 0 <= i < |labels| ==>
            && Rank(labels[i]) < 3
            && values[i] == CountAt(Rank(labels[i]), bullishCount, neutralCount, bearishCount)
            && colors[i] == SliceColors[Rank(labels[i])])
      && (forall i, j :: 0 <= i < j < |labels| ==> Rank(labels[i]) < Rank(labels[j]))
  {
    values, labels, colors := [], [], [];

    if bullishCount != 0 {
      values := values + [bullishCount];
      colors := colors + ["green"];
      labels := labels + ["bullish"];
    }

    if neutralCount != 0 {
      values := values + [neutralCount];
      colors := colors + ["gray"];
      labels := labels + ["neutral"];
    }

    if bearishCount != 0 {
      values := values + [bearishCount];
      colors := colors + ["red"];
      labels := labels + ["bearish"];
    }

    assert |labels| > 0 ==> |labels[0]| != |Placeholder| && labels != [Placeholder];
    if |values| == 0 {
      values, labels, colors := [1], [Placeholder], ["gray"];
    }
  }
}
