/**
 * TheStrat classification of the last daily bar against the bar before it
 * (lib/strat.py). Only the High and Low of the two most recent rows are read;
 * every comparison is strict.
 */
module Strat {
  import opened Wrappers

  /** One row of the bar table: the columns Open, High, Low and Close. */
  datatype Bar = Bar(open: real, high: real, low: real, close: real)

  /** The labels the classifier returns. */
  datatype Label =
    | Inside      // "1": strictly inside the previous bar's range
    | TwoUp       // "2u": breaks the previous high only
    | TwoDown     // "2d": breaks the previous low only
    | Outside     // "3": breaks both the previous high and the previous low
    | Unlabelled  // "—": too few bars, or a bound ties the previous one without breaking out
  {
    /** The string the classifier returns for this label. */
    function Text(): (s: string)
      ensures s in {"1", "2u", "2d", "3", "—"}
      ensures s == "—" <==> Unlabelled?
    {
      match this
      case Inside => "1"
      case TwoUp => "2u"
      case TwoDown => "2d"
      case Outside => "3"
      case Unlabelled => "—"
    }
  }

  /** The current bar's high is above the previous high. */
  predicate BrokeHigh(prev: Bar, last: Bar) { last.high > prev.high }

  /** The current bar's low is below the previous low. */
  predicate BrokeLow(prev: Bar, last: Bar) { last.low < prev.low }

  /**
   * The if-chain of the classifier: inside first, then both bounds broken,
   * then the high only, then the low only, and otherwise no label.
   */
  function Classify(prev: Bar, last: Bar): (r: Label)
    ensures r == Inside <==> last.high < prev.high && last.low > prev.low
    ensures r == Outside <==> last.high > prev.high && last.low < prev.low
    ensures r == TwoUp <==> last.high > prev.high && last.low >= prev.low
    ensures r == TwoDown <==> last.low < prev.low && last.high <= prev.high
    ensures r == Unlabelled <==>
      last.high <= prev.high && last.low >= prev.low && (last.high == prev.high || last.low == prev.low)
  {
    var brokeHigh := BrokeHigh(prev, last);
    var brokeLow := BrokeLow(prev, last);
    var inside := last.high < prev.high && last.low > prev.low;
    if inside then Inside
    else if brokeHigh && brokeLow then Outside
    else if brokeHigh && !brokeLow then TwoUp
    else if brokeLow && !brokeHigh then TwoDown
    else Unlabelled
  }

  /**
   * The label of the last row against the row before it; a missing table
   * (None) and a table of fewer than two rows get no label.
   */
  function LastTwoBarsLabel(df: Option<seq<Bar>>): (r: Label)
    ensures df.None? || |df.value| < 2 ==> r == Unlabelled
  {
    match df
    case None => Unlabelled
    case Some(bars) =>
      if |bars| < 2 then Unlabelled
      else
        var last := bars[|bars| - 1];
        var prev := bars[|bars| - 2];
        Classify(prev, last)
  }

  /** `classify_last_two_bars`: the label rendered as the string `classify_last_two_bars` returns. */
  function ClassifyLastTwoBars(df: Option<seq<Bar>>): (s: string)
    ensures s in {"1", "2u", "2d", "3", "—"}
    ensures df.None? || |df.value| < 2 ==> s == "—"
  {
    LastTwoBarsLabel(df).Text()
  }

  // ---------------------------------------------------------------------------
  // A reference definition: the label read off a table indexed by how the
  // current high and low compare with the previous ones.
  // ---------------------------------------------------------------------------

  datatype Order = Below | Level | Above

  function Compare(x: real, y: real): (o: Order)
    ensures o == Below <==> x < y
    ensures o == Level <==> x == y
    ensures o == Above <==> x > y
  {
    if x < y then Below else if x == y then Level else Above
  }

  /** Rows: the current high against the previous high; columns: the current low against the previous low. */
  function TableLabel(high: Order, low: Order): Label {
    match (high, low)
    case (Below, Below) => TwoDown
    case (Below, Level) => Unlabelled
    case (Below, Above) => Inside
    case (Level, Below) => TwoDown
    case (Level, Level) => Unlabelled
    case (Level, Above) => Unlabelled
    case (Above, Below) => Outside
    case (Above, Level) => TwoUp
    case (Above, Above) => TwoUp
  }

  /** The classifier agrees with the table on every pair of bars. */
  lemma ClassifyMatchesTable(prev: Bar, last: Bar)
    ensures Classify(prev, last) == TableLabel(Compare(last.high, prev.high), Compare(last.low, prev.low))
  {
  }

  /** The four label conditions are pairwise disjoint: at most one of them holds. */
  lemma ConditionsDisjoint(prev: Bar, last: Bar)
    ensures !(BrokeHigh(prev, last) && last.low >= prev.low && BrokeLow(prev, last))
    ensures !((last.high < prev.high && last.low > prev.low) && (BrokeHigh(prev, last) || BrokeLow(prev, last)))
    ensures !(BrokeLow(prev, last) && last.high <= prev.high && BrokeHigh(prev, last))
  {
  }

  /** A bar that ties a bound of the previous one and breaks neither gets no label, not "1". */
  lemma TiesAreUnlabelled(prev: Bar, last: Bar)
    requires last.high == prev.high || last.low == prev.low
    requires !BrokeHigh(prev, last) && !BrokeLow(prev, last)
    ensures Classify(prev, last) == Unlabelled
  {
  }

  /** A bar identical to the previous one gets no label. */
  lemma IdenticalBarsUnlabelled(b: Bar)
    ensures ClassifyLastTwoBars(Some([b, b])) == "—"
  {
  }

  /** Only High and Low are read: Open and Close never change the label. */
  lemma OnlyHighAndLowMatter(prev: Bar, last: Bar, prev': Bar, last': Bar)
    requires prev.high == prev'.high && prev.low == prev'.low
    requires last.high == last'.high && last.low == last'.low
    ensures Classify(prev, last) == Classify(prev', last')
  {
  }

  /** Only the last two rows are read: rows in front of them never change the label. */
  lemma OnlyLastTwoBarsMatter(earlier: seq<Bar>, prev: Bar, last: Bar)
    ensures LastTwoBarsLabel(Some(earlier + [prev, last])) == Classify(prev, last)
  {
    var bars := earlier + [prev, last];
    assert bars[|bars| - 1] == last && bars[|bars| - 2] == prev;
  }

  /** Two tables that end in the same two rows get the same label, whatever comes before. */
  lemma SameLastTwoBarsSameLabel(a: seq<Bar>, b: seq<Bar>)
    requires |a| >= 2 && |b| >= 2
    requires a[|a| - 2..] == b[|b| - 2..]
    ensures ClassifyLastTwoBars(Some(a)) == ClassifyLastTwoBars(Some(b))
  {
    assert a[|a| - 1] == a[|a| - 2..][1] && a[|a| - 2] == a[|a| - 2..][0];
    assert b[|b| - 1] == b[|b| - 2..][1] && b[|b| - 2] == b[|b| - 2..][0];
  }

  /** Distinct labels are rendered as distinct strings. */
  lemma TextInjective(a: Label, b: Label)
    requires a.Text() == b.Text()
    ensures a == b
  {
  }

  /** Examples: a previous bar of High 10 and Low 5 followed by four different bars. */
  lemma WorkedExamples()
    ensures ClassifyLastTwoBars(Some([Bar(0.0, 10.0, 5.0, 0.0), Bar(0.0, 9.0, 6.0, 0.0)])) == "1"
    ensures ClassifyLastTwoBars(Some([Bar(0.0, 10.0, 5.0, 0.0), Bar(0.0, 11.0, 4.0, 0.0)])) == "3"
    ensures ClassifyLastTwoBars(Some([Bar(0.0, 10.0, 5.0, 0.0), Bar(0.0, 12.0, 6.0, 0.0)])) == "2u"
    ensures ClassifyLastTwoBars(Some([Bar(0.0, 10.0, 5.0, 0.0), Bar(0.0, 9.0, 3.0, 0.0)])) == "2d"
    ensures ClassifyLastTwoBars(Some([Bar(0.0, 10.0, 5.0, 0.0), Bar(0.0, 10.0, 5.0, 0.0)])) == "—"
    ensures ClassifyLastTwoBars(Some([Bar(0.0, 10.0, 5.0, 0.0)])) == "—"
    ensures ClassifyLastTwoBars(Some([])) == "—"
    ensures ClassifyLastTwoBars(None) == "—"
  {
  }
}
