/**
 * The computation behind the dashboard page, once the numeric columns have
 * been coerced: drop the incomplete rows, then derive the summary counts,
 * the category distribution, the per-category score averages and the
 * per-supplier risk trend from the rows that are left.
 */
module Aggregation {
  import opened Wrappers
  import opened Rounding
  import opened Rows
  import opened Stats
  import opened Ordering
  import opened Tallies

  /** A supplier is high-risk above this score (strictly). */
  const HighRiskThreshold: real := 65.0
  /** A supplier is low-risk below this score (strictly). */
  const LowRiskThreshold: real := 45.0

  /** `dropna(subset=numeric_cols)` on the coerced table: the complete rows, in order. */
  function Clean(table: seq<Row>): (recs: seq<Record>)
    ensures |recs| <= |table|
    ensures forall rec :: rec in recs <==> ToRow(rec) in table
  {
    if table == [] then []
    else
      var rest := Clean(table[1..]);
      assert table == [table[0]] + table[1..];
      if Complete(table[0]) then
        var first := ToRecord(table[0]);
        assert forall rec :: ToRow(rec) == table[0] ==> rec == first by {
          forall rec | ToRow(rec) == table[0] ensures rec == first {
            ToRowInjective(rec, first);
          }
        }
        [first] + rest
      else
        rest
  }

  /** The averages of the three input scores over one category. */
  datatype CategoryMean = CategoryMean(
    category: string,
    compliance: Option<real>,
    financial: Option<real>,
    delivery: Option<real>)

  /** Everything the dashboard page shows. */
  datatype DashboardView = DashboardView(
    totalSuppliers: nat,
    avgRiskScore: Option<real>,
    highRiskCount: nat,
    lowRiskCount: nat,
    suppliers: seq<Record>,
    categoryDistribution: seq<Tally>,
    categoryScores: seq<CategoryMean>,
    trendLabels: seq<Option<string>>,
    trendScores: seq<real>)

  /** One numeric column of the cleaned table. */
  function Column(recs: seq<Record>, col: NumericColumn): (xs: seq<real>)
    ensures |xs| == |recs|
    ensures forall i :: 0 <= i < |recs| ==> xs[i] == Value(recs[i], col)
  {
    seq(|recs|, i requires 0 <= i < |recs| => Value(recs[i], col))
  }

  /** The Category column of the cleaned table. */
  function Categories(recs: seq<Record>): (cs: seq<Option<string>>)
    ensures |cs| == |recs|
    ensures forall i :: 0 <= i < |recs| ==> cs[i] == recs[i].category
  {
    seq(|recs|, i requires 0 <= i < |recs| => recs[i].category)
  }

  /** The records of category `k`, in order (one group of `groupby("Category")`). */
  function InCategory(recs: seq<Record>, k: string): (g: seq<Record>)
    ensures |g| <= |recs|
    ensures forall rec :: rec in g <==> rec in recs && rec.category == Some(k)
  {
    if recs == [] then []
    else
      assert recs == [recs[0]] + recs[1..];
      (if recs[0].category == Some(k) then [recs[0]] else []) + InCategory(recs[1..], k)
  }

  /**
   * Dropping a concatenation's records of other categories drops them from
   * each part, so each group keeps its records as often as they occur and in
   * table order; one record forms a group of itself in its own category and
   * an empty group in every other.
   */
  lemma {:induction false} InCategoryAppend(recs: seq<Record>, rec: Record, k: string)
    ensures InCategory([rec], k) == if rec.category == Some(k) then [rec] else []
    ensures InCategory(recs + [rec], k) == InCategory(recs, k) + InCategory([rec], k)
  {
    InCategoryConcat(recs, [rec], k);
  }

  lemma {:induction false} InCategoryConcat(a: seq<Record>, b: seq<Record>, k: string)
    ensures InCategory(a + b, k) == InCategory(a, k) + InCategory(b, k)
  {
    if a == [] {
      assert a + b == b;
    } else {
      assert (a + b)[1..] == a[1..] + b;
      InCategoryConcat(a[1..], b, k);
    }
  }

  /**
   * `groupby("Category")[...].mean().round(2)` for the group of `k`: each
   * average is missing exactly when no record is in category `k`, and has at
   * most two decimals otherwise.
   */
  function MeansOf(recs: seq<Record>, k: string): (m: CategoryMean)
    ensures m.category == k
    ensures m.compliance.None? <==> forall rec <- recs :: rec.category != Some(k)
    ensures m.financial.None? <==> forall rec <- recs :: rec.category != Some(k)
    ensures m.delivery.None? <==> forall rec <- recs :: rec.category != Some(k)
    ensures m.compliance.Some? ==> IsCents(m.compliance.value)
    ensures m.financial.Some? ==> IsCents(m.financial.value)
    ensures m.delivery.Some? ==> IsCents(m.delivery.value)
  {
    var g := InCategory(recs, k);
    CategoryMean(k,
      RoundedMean(Column(g, ComplianceScore)),
      RoundedMean(Column(g, FinancialScore)),
      RoundedMean(Column(g, OnTimeDeliveryRate)))
  }

  /**
   * One entry per non-missing category, in ascending order of category; each
   * entry names a category some record has, and holds that category's means.
   */
  function CategoryScores(recs: seq<Record>): (cs: seq<CategoryMean>)
    ensures forall i :: 0 <= i < |cs| ==> Some(cs[i].category) in Categories(recs)
    ensures forall i :: 0 <= i < |cs| ==> cs[i] == MeansOf(recs, cs[i].category)
  {
    var keys := SortedKeys(Present(Categories(recs)));
    seq(|keys|, i requires 0 <= i < |keys| => MeansOf(recs, keys[i]))
  }

  /** `Supplier Name`, or `Supplier ID` where the name is missing. */
  function TrendLabel(rec: Record): (l: Option<string>)
    ensures rec.supplierName.Some? ==> l == rec.supplierName
    ensures rec.supplierName.None? ==> l == rec.supplierId
  {
    if rec.supplierName.Some? then rec.supplierName else rec.supplierId
  }

  /** The labels of the risk trend, one per record, in order. */
  function TrendLabels(recs: seq<Record>): (labels: seq<Option<string>>)
    ensures |labels| == |recs|
    ensures forall i :: 0 <= i < |recs| ==> labels[i] == TrendLabel(recs[i])
  {
    seq(|recs|, i requires 0 <= i < |recs| => TrendLabel(recs[i]))
  }

  /**
   * The figures of the dashboard, computed from the rows that survived
   * cleaning: every record is listed and counted once, the trend has one
   * label and score per record, the average is missing exactly when there is
   * no record, no record is both high- and low-risk, and the category
   * distribution counts at most every record.
   */
  function Summarize(recs: seq<Record>): (v: DashboardView)
    ensures v.suppliers == recs && v.totalSuppliers == |recs|
    ensures |v.trendLabels| == |v.trendScores| == |recs|
    ensures v.avgRiskScore.None? <==> recs == []
    ensures v.highRiskCount + v.lowRiskCount <= |recs|
    ensures SumCounts(v.categoryDistribution) <= |recs|
  {
    var risks := Column(recs, RiskScore);
    ThresholdBuckets(risks, LowRiskThreshold, HighRiskThreshold);
    DashboardView(
      |recs|,
      RoundedMean(risks),
      CountAbove(risks, HighRiskThreshold),
      CountBelow(risks, LowRiskThreshold),
      recs,
      ValueCounts(Categories(recs)),
      CategoryScores(recs),
      TrendLabels(recs),
      risks)
  }

  /**
   * The dashboard of a table whose numeric columns have been coerced: it
   * lists a supplier exactly when the supplier's whole row, with all four
   * numeric cells holding numbers, is in the table.
   */
  function Aggregate(table: seq<Row>): (v: DashboardView)
    ensures v.totalSuppliers <= |table|
    ensures forall rec :: rec in v.suppliers <==> ToRow(rec) in table
  {
    Summarize(Clean(table))
  }

  /** The labels of the category score chart. */
  function ScoreCategories(cs: seq<CategoryMean>): seq<string> {
    seq(|cs|, i requires 0 <= i < |cs| => cs[i].category)
  }

  /** `o` is the rounded mean of `xs`, and before rounding that mean lies between the extremes of `xs`. */
  ghost predicate RoundedMeanInRange(o: Option<real>, xs: seq<real>) {
    && xs != []
    && o == Some(Round2(Mean(xs).value))
    && Min(xs) <= Mean(xs).value <= Max(xs)
  }

  /** Survivors keep their relative order: cleaning a concatenation cleans each part. */
  lemma {:induction false} CleanConcat(a: seq<Row>, b: seq<Row>)
    ensures Clean(a + b) == Clean(a) + Clean(b)
  {
    if a == [] {
      assert a + b == b;
    } else {
      assert (a + b)[1..] == a[1..] + b;
      CleanConcat(a[1..], b);
    }
  }

  /** A single row survives, whole and unchanged, exactly when its four numeric cells hold numbers. */
  lemma CleanOneRow(r: Row)
    ensures |Clean([r])| == if Complete(r) then 1 else 0
    ensures Complete(r) ==> ToRow(Clean([r])[0]) == r
  {
  }

  lemma {:induction false} ColumnConcat(a: seq<Record>, b: seq<Record>, col: NumericColumn)
    ensures Column(a + b, col) == Column(a, col) + Column(b, col)
  {
  }

  /**
   * A row with any bad numeric cell is excluded from every figure: the
   * dashboard of a table with it equals the dashboard of the table without it.
   */
  lemma DroppedRowIsInvisible(a: seq<Row>, bad: Row, b: seq<Row>)
    requires !Complete(bad)
    ensures Aggregate(a + [bad] + b) == Aggregate(a + b)
  {
    CleanSkipsIncomplete(a, bad, b);
  }

  lemma CleanSkipsIncomplete(a: seq<Row>, bad: Row, b: seq<Row>)
    requires !Complete(bad)
    ensures Clean(a + [bad] + b) == Clean(a + b)
  {
    CleanConcat(a + [bad], b);
    CleanConcat(a, [bad]);
    CleanConcat(a, b);
    assert Clean([bad]) == [];
  }

  /**
   * The total counts the surviving rows; high-risk (above 65), low-risk
   * (below 45) and the scores from 45 to 65 inclusive split the survivors,
   * so high plus low never exceeds the total.
   */
  lemma RiskBuckets(table: seq<Row>)
    ensures var v := Aggregate(table);
      && v.totalSuppliers == |Clean(table)| <= |table|
      && v.highRiskCount + v.lowRiskCount
         + CountBetween(Column(v.suppliers, RiskScore), LowRiskThreshold, HighRiskThreshold)
         == v.totalSuppliers
      && v.highRiskCount + v.lowRiskCount <= v.totalSuppliers
  {
    ThresholdBuckets(Column(Clean(table), RiskScore), LowRiskThreshold, HighRiskThreshold);
  }

  /**
   * Adding a complete row adds one supplier, at the end of the list and of
   * the trend; it counts as high-risk exactly when its score is above 65 and
   * as low-risk exactly when its score is below 45.
   */
  lemma AppendCompleteRow(table: seq<Row>, r: Row)
    requires Complete(r)
    ensures var before, after := Aggregate(table), Aggregate(table + [r]);
      && after.totalSuppliers == before.totalSuppliers + 1
      && after.suppliers == before.suppliers + [ToRecord(r)]
      && after.highRiskCount == before.highRiskCount + (if r.risk.value > 65.0 then 1 else 0)
      && after.lowRiskCount == before.lowRiskCount + (if r.risk.value < 45.0 then 1 else 0)
      && after.trendLabels == before.trendLabels + [TrendLabel(ToRecord(r))]
      && after.trendScores == before.trendScores + [r.risk.value]
  {
    var recs, rec := Clean(table), ToRecord(r);
    CleanConcat(table, [r]);
    assert Clean(table + [r]) == recs + [rec];
    SummarizeAppend(recs, rec);
  }

  lemma SummarizeAppend(recs: seq<Record>, rec: Record)
    ensures var before, after := Summarize(recs), Summarize(recs + [rec]);
      && after.totalSuppliers == before.totalSuppliers + 1
      && after.suppliers == before.suppliers + [rec]
      && after.highRiskCount == before.highRiskCount + (if rec.risk > 65.0 then 1 else 0)
      && after.lowRiskCount == before.lowRiskCount + (if rec.risk < 45.0 then 1 else 0)
      && after.trendLabels == before.trendLabels + [TrendLabel(rec)]
      && after.trendScores == before.trendScores + [rec.risk]
  {
    var risks := Column(recs, RiskScore);
    ColumnConcat(recs, [rec], RiskScore);
    assert Column([rec], RiskScore) == [rec.risk];
    CountsOfConcat(risks, [rec.risk], LowRiskThreshold, HighRiskThreshold);
    assert TrendLabels(recs + [rec]) == TrendLabels(recs) + [TrendLabel(rec)];
  }

  /** A score of exactly 45 or exactly 65 is neither high-risk nor low-risk. */
  lemma BoundaryScoresInNeitherBucket(table: seq<Row>, r: Row)
    requires Complete(r) && (r.risk.value == 45.0 || r.risk.value == 65.0)
    ensures Aggregate(table + [r]).highRiskCount == Aggregate(table).highRiskCount
    ensures Aggregate(table + [r]).lowRiskCount == Aggregate(table).lowRiskCount
    ensures Aggregate(table + [r]).totalSuppliers == Aggregate(table).totalSuppliers + 1
  {
    AppendCompleteRow(table, r);
  }

  /**
   * The average risk score is undefined (NaN) exactly when no row survives;
   * otherwise it is the rounded mean of the survivors' risk scores, and that
   * mean lies between their smallest and largest score. When the scores have
   * at most two decimals, the rounded average does too.
   */
  lemma AverageRisk(table: seq<Row>)
    ensures var v := Aggregate(table);
      v.avgRiskScore.None? <==> v.totalSuppliers == 0
    ensures var v := Aggregate(table);
      v.totalSuppliers > 0 ==> RoundedMeanInRange(v.avgRiskScore, v.trendScores)
    ensures var v := Aggregate(table);
      v.totalSuppliers > 0 && (forall x <- v.trendScores :: IsCents(x)) ==>
        Min(v.trendScores) <= v.avgRiskScore.value <= Max(v.trendScores)
  {
    var risks := Column(Clean(table), RiskScore);
    if risks != [] {
      MeanWithin(risks);
      if forall x <- risks :: IsCents(x) {
        RoundedMeanWithin(risks);
      }
    }
  }

  /**
   * The category distribution has one entry per distinct non-missing category
   * among the survivors, each with a positive count equal to that category's
   * number of rows; counts do not increase along the list and add up to at
   * most the total.
   */
  lemma CategoryDistribution(table: seq<Row>)
    ensures var v := Aggregate(table);
      var dist := v.categoryDistribution;
      && NonIncreasing(dist)
      && DistinctKeys(dist)
      && (forall c :: c in Keys(dist) <==> exists rec <- v.suppliers :: rec.category == Some(c))
      && (forall t <- dist :: 0 < t.count == |InCategory(v.suppliers, t.key)|)
      && SumCounts(dist) <= v.totalSuppliers
  {
    var recs := Clean(table);
    var cats := Categories(recs);
    ValueCountsCounts(cats);
    ValueCountsKeys(cats);
    forall c ensures Some(c) in cats <==> exists rec <- recs :: rec.category == Some(c) {
      if Some(c) in cats {
        var i :| 0 <= i < |cats| && cats[i] == Some(c);
        assert recs[i] in recs;
      }
    }
    forall k ensures |InCategory(recs, k)| == Occurrences(Present(cats), k) {
      GroupSize(recs, k);
    }
  }

  /** A category's group is as large as that category's count in `value_counts()`. */
  lemma {:induction false} GroupSize(recs: seq<Record>, k: string)
    ensures |InCategory(recs, k)| == Occurrences(Present(Categories(recs)), k)
  {
    if recs != [] {
      var cats, rest := Categories(recs), Categories(recs[1..]);
      GroupSize(recs[1..], k);
      assert cats[1..] == rest;
      var p := Present(rest);
      if recs[0].category.Some? {
        var v := recs[0].category.value;
        assert Present(cats) == [v] + p;
        assert ([v] + p)[1..] == p;
        assert Occurrences([v] + p, k) == (if v == k then 1 else 0) + Occurrences(p, k);
      } else {
        assert Present(cats) == p;
      }
    }
  }

  /**
   * The category score chart lists every non-missing category exactly once,
   * in ascending order; each entry holds the rounded means of the three input
   * scores over that category's surviving rows, each mean lying between the
   * smallest and largest score averaged.
   */
  lemma CategoryScoresSpec(recs: seq<Record>)
    ensures var cs := CategoryScores(recs);
      && StrictlyAscending(ScoreCategories(cs))
      && (forall c :: c in ScoreCategories(cs) <==> Some(c) in Categories(recs))
      && (forall i :: 0 <= i < |cs| ==>
            var g := InCategory(recs, cs[i].category);
            && RoundedMeanInRange(cs[i].compliance, Column(g, ComplianceScore))
            && RoundedMeanInRange(cs[i].financial, Column(g, FinancialScore))
            && RoundedMeanInRange(cs[i].delivery, Column(g, OnTimeDeliveryRate)))
  {
    var keys := SortedKeys(Present(Categories(recs)));
    var cs := CategoryScores(recs);
    assert ScoreCategories(cs) == keys;
    forall i | 0 <= i < |cs|
      ensures var g := InCategory(recs, cs[i].category);
        && RoundedMeanInRange(cs[i].compliance, Column(g, ComplianceScore))
        && RoundedMeanInRange(cs[i].financial, Column(g, FinancialScore))
        && RoundedMeanInRange(cs[i].delivery, Column(g, OnTimeDeliveryRate))
    {
      var k := keys[i];
      assert Some(k) in Categories(recs);
      var j :| 0 <= j < |recs| && Categories(recs)[j] == Some(k);
      var g := InCategory(recs, k);
      assert recs[j] in g;
      MeanWithin(Column(g, ComplianceScore));
      MeanWithin(Column(g, FinancialScore));
      MeanWithin(Column(g, OnTimeDeliveryRate));
    }
  }

  /**
   * The dashboard's category score chart, as `CategoryScoresSpec` describes
   * it, over the survivors: no category appears twice.
   */
  lemma CategoryScoresOfTable(table: seq<Row>)
    ensures var v := Aggregate(table);
      && StrictlyAscending(ScoreCategories(v.categoryScores))
      && (forall i, j :: 0 <= i < j < |v.categoryScores| ==>
            ScoreCategories(v.categoryScores)[i] != ScoreCategories(v.categoryScores)[j])
      && (forall c :: c in ScoreCategories(v.categoryScores) <==> c in Keys(v.categoryDistribution))
  {
    var recs := Clean(table);
    CategoryScoresSpec(recs);
    AscendingIsDistinct(ScoreCategories(CategoryScores(recs)));
    ValueCountsKeys(Categories(recs));
  }

  /**
   * The risk trend has one label and one score per surviving row, in table
   * order; each label is the supplier's name, or its ID when the name is
   * missing.
   */
  lemma TrendAligned(table: seq<Row>)
    ensures var v := Aggregate(table);
      && |v.trendLabels| == |v.trendScores| == v.totalSuppliers
      && forall i :: 0 <= i < v.totalSuppliers ==>
           && v.trendScores[i] == v.suppliers[i].risk
           && v.trendLabels[i] == (if v.suppliers[i].supplierName.Some?
                                   then v.suppliers[i].supplierName
                                   else v.suppliers[i].supplierId)
  {
  }

  /** Coercing the table again before a second dashboard gives the same dashboard. */
  lemma DashboardIdempotent(table: seq<Row>, parse: string -> Option<real>)
    ensures Aggregate(CoerceTable(CoerceTable(table, parse), parse)) == Aggregate(CoerceTable(table, parse))
  {
    CoerceTableIdempotent(table, parse);
  }
}
