/**
 * The "Top 5 Features" bar chart (src/components/VoteChart.tsx): the rows it
 * keeps, how each becomes a bar, the bar colours and which of its three faces
 * it shows.
 */
module VoteChart {
  import opened Types
  import opened JsText

  /** A row of the chart's query: a slice of the `feedback_with_votes` view. */
  datatype FeedbackItem = FeedbackItem(id: string, title: string, vote_count: int, upvotes: int, downvotes: int)

  /** One bar: a short axis label, the full title for the tooltip and the bar height `votes`. */
  datatype ChartDataItem = ChartDataItem(name: string, fullTitle: string, votes: int, upvotes: int, downvotes: int)

  /** The longest title shown on the axis unabridged. */
  const MaxNameLength: nat := 12

  const Ellipsis: string := "..."

  /** The bar palette, used round-robin. */
  const Colors: seq<string> := ["#10b981", "#8b5cf6", "#ec4899", "#f59e0b", "#ef4444"]

  /** The axis label: titles up to 12 characters as they are, longer ones cut to 12 and marked with an ellipsis. */
  function AxisName(title: string): (name: string)
    ensures |title| <= MaxNameLength ==> name == title
    ensures |title| > MaxNameLength ==>
      |name| == MaxNameLength + 3 && name[..MaxNameLength] == title[..MaxNameLength] && name[MaxNameLength..] == Ellipsis
    ensures |name| <= MaxNameLength + 3
  {
    if |title| > MaxNameLength then Prefix(title, MaxNameLength) + Ellipsis else title
  }

  /** `Math.max(0, vote_count)`: the bar height is never negative and is the count whenever that is not. */
  function BarHeight(voteCount: int): (votes: int)
    ensures votes >= 0
    ensures voteCount >= 0 ==> votes == voteCount
    ensures voteCount < 0 ==> votes == 0
  {
    if voteCount > 0 then voteCount else 0
  }

  /** One bar: the full title and both tallies as they are, a height that is never negative, a label of at most 15 characters. */
  function ToChartItem(item: FeedbackItem): (bar: ChartDataItem)
    ensures bar.fullTitle == item.title && bar.upvotes == item.upvotes && bar.downvotes == item.downvotes
    ensures bar.votes >= 0 && (item.vote_count >= 0 ==> bar.votes == item.vote_count)
    ensures |bar.name| <= MaxNameLength + 3
  {
    ChartDataItem(AxisName(item.title), item.title, BarHeight(item.vote_count), item.upvotes, item.downvotes)
  }

  /** `chartData`: one bar per row, in row order. */
  function ChartData(items: seq<FeedbackItem>): (bars: seq<ChartDataItem>)
    ensures |bars| == |items|
    ensures forall i :: 0 <= i < |items| ==> bars[i] == ToChartItem(items[i])
  {
    seq(|items|, i requires 0 <= i < |items| => ToChartItem(items[i]))
  }

  /**
   * What a bar shows of its row: the full title, both tallies unchanged, a
   * height that is never negative, and an axis label that is the title or its
   * first 12 characters followed by "...".
   */
  lemma ChartDataFaithful(items: seq<FeedbackItem>, i: int)
    requires 0 <= i < |items|
    ensures var bar := ChartData(items)[i];
      && bar.fullTitle == items[i].title
      && bar.upvotes == items[i].upvotes && bar.downvotes == items[i].downvotes
      && bar.votes >= 0 && (items[i].vote_count >= 0 ==> bar.votes == items[i].vote_count)
      && (|items[i].title| <= MaxNameLength ==> bar.name == items[i].title)
      && (|items[i].title| > MaxNameLength ==> bar.name == items[i].title[..MaxNameLength] + Ellipsis)
  {
    var t := items[i].title;
    var bar := ChartData(items)[i];
    if |t| > MaxNameLength {
      assert bar.name == t[..MaxNameLength] + Ellipsis;
    }
  }

  /** `COLORS[index % COLORS.length]`: every bar gets a colour of the palette. */
  function BarColor(index: nat): (c: string)
    ensures c in Colors
  {
    Colors[index % |Colors|]
  }

  /** The colours cycle with period five, and the five bars of one chart all differ. */
  lemma BarColorsCycle(i: nat, j: nat)
    ensures BarColor(i + 5) == BarColor(i)
    ensures i < 5 && j < 5 && i != j ==> BarColor(i) != BarColor(j)
  {
    assert (i + 5) % 5 == i % 5;
  }

  /** The tooltip's sign before the bar height: `+` for a height of zero or more. */
  function TooltipPrefix(votes: int): (s: string)
    ensures s == "+" <==> votes >= 0
    ensures s != "+" ==> s == ""
  {
    if votes >= 0 then "+" else ""
  }

  /** The two colour classes of the tooltip's count. */
  datatype Tone = Green | Red

  /** The tooltip's colour class: green for a height of zero or more, red otherwise. */
  function TooltipTone(votes: int): (t: Tone)
    ensures t == Green <==> votes >= 0
  {
    if votes >= 0 then Green else Red
  }

  /** Because bar heights are clamped, the tooltip's `+` and green colour are shown for every bar. */
  lemma TooltipAlwaysPositive(items: seq<FeedbackItem>, i: int)
    requires 0 <= i < |items|
    ensures TooltipPrefix(ChartData(items)[i].votes) == "+"
    ensures TooltipTone(ChartData(items)[i].votes) == Green
  {
  }

  /** The three faces of the component. */
  datatype View = Hidden | NoFeedback | Bars(bars: seq<ChartDataItem>)

  /** Nothing while unconfigured or loading, a placeholder for no rows, the bars otherwise. */
  function Render(configured: bool, loading: bool, topFeedback: seq<FeedbackItem>): (v: View)
    ensures v == Hidden <==> !configured || loading
    ensures v == NoFeedback <==> configured && !loading && topFeedback == []
    ensures v.Bars? ==> v.bars == ChartData(topFeedback) && |v.bars| > 0
  {
    if !configured || loading then Hidden
    else if topFeedback == [] then NoFeedback
    else Bars(ChartData(topFeedback))
  }

  /** The component's state: the rows it last fetched, whether the first fetch is pending, and the "Updating..." flag. */
  class VoteChartState {
    var topFeedback: seq<FeedbackItem>
    var loading: bool
    var isUpdating: bool

    constructor()
      ensures topFeedback == [] && loading && !isUpdating
    {
      topFeedback := [];
      loading := true;
      isUpdating := false;
    }

    /**
     * `fetchTopFeedback(showUpdateIndicator)` given the result of its query.
     * Without a client only `loading` ends. A failed query keeps the previous
     * rows; a successful one replaces them, with no rows for a null `data`.
     */
    method FetchTopFeedback(configured: bool, showUpdateIndicator: bool, result: Fetch<FeedbackItem>)
      modifies this
      ensures !loading
      ensures !configured ==> topFeedback == old(topFeedback) && isUpdating == old(isUpdating)
      ensures configured ==> isUpdating == (old(isUpdating) || showUpdateIndicator)
      ensures configured && result.Error? ==> topFeedback == old(topFeedback)
      ensures configured && !result.Error? ==> topFeedback == RowsOrEmpty(result)
    {
      if !configured {
        loading := false;
        return;
      }
      if showUpdateIndicator {
        isUpdating := true;
      }
      if !result.Error? {
        topFeedback := RowsOrEmpty(result);
      }
      loading := false;
    }

    /** The timer that ends the "Updating..." indicator 500 ms after a live refresh. */
    method UpdateIndicatorElapsed()
      modifies this
      ensures !isUpdating
      ensures topFeedback == old(topFeedback) && loading == old(loading)
    {
      isUpdating := false;
    }
  }
}
