/**
 * Operations of the dashboard on the evaluated shipment table: row masks,
 * the status filter, the sort by descending score, the two metric counts,
 * the status colour map, the row highlighting and the route line colours.
 */
module Table {
  import opened Risk
  import opened Shipments

  /** The status filter value that keeps every row. */
  const ShowAll: string := "Todos"

  /** A row mask: rows whose status label is the given one, or whose score exceeds a threshold. */
  datatype Criterion =
    | StatusIs(statusLabel: string)
    | ScoreAbove(threshold: int)
    | PredictionIs(prediction: Prediction)

  predicate Holds(c: Criterion, row: Row) {
    match c
    case StatusIs(l) => row.shipment.status.Label() == l
    case ScoreAbove(t) => row.shipment.score > t as real
    case PredictionIs(p) => row.prediction == p
  }

  /**
   * The rows a mask keeps, in their original order: exactly the rows that
   * satisfy it, each as often as it occurs.
   */
  function Where(rows: seq<Row>, c: Criterion): (kept: seq<Row>)
    ensures |kept| <= |rows|
    ensures forall r: Row :: r in kept ==> r in rows && Holds(c, r)
  {
    if rows == [] then []
    else
      assert rows == [rows[0]] + rows[1..];
      (if Holds(c, rows[0]) then [rows[0]] else []) + Where(rows[1..], c)
  }

  /** A mask keeps each row that satisfies it as often as it occurs, and no other row. */
  lemma {:induction false} WhereMultiset(rows: seq<Row>, c: Criterion)
    ensures forall r: Row :: multiset(Where(rows, c))[r] == if Holds(c, r) then multiset(rows)[r] else 0
  {
    if rows != [] {
      WhereMultiset(rows[1..], c);
      assert rows == [rows[0]] + rows[1..];
    }
  }

  /** Masking distributes over concatenation, so the relative order of kept rows is preserved. */
  lemma {:induction false} WhereAppend(a: seq<Row>, b: seq<Row>, c: Criterion)
    ensures Where(a + b, c) == Where(a, c) + Where(b, c)
  {
    if a == [] {
      assert a + b == b;
    } else {
      assert (a + b)[1..] == a[1..] + b;
      WhereAppend(a[1..], b, c);
    }
  }

  /** A mask keeps every row exactly when every row satisfies it. */
  lemma {:induction false} WhereKeepsAll(rows: seq<Row>, c: Criterion)
    ensures |Where(rows, c)| == |rows| <==> forall k :: 0 <= k < |rows| ==> Holds(c, rows[k])
  {
    if rows != [] {
      var tail := rows[1..];
      WhereKeepsAll(tail, c);
      assert |Where(rows, c)| == (if Holds(c, rows[0]) then 1 else 0) + |Where(tail, c)|;
      if forall k :: 0 <= k < |rows| ==> Holds(c, rows[k]) {
        assert forall k :: 0 <= k < |tail| ==> Holds(c, tail[k]) by {
          forall k | 0 <= k < |tail| ensures Holds(c, tail[k]) {
            assert tail[k] == rows[k + 1];
          }
        }
      } else {
        var k :| 0 <= k < |rows| && !Holds(c, rows[k]);
        if k > 0 {
          assert tail[k - 1] == rows[k];
        }
      }
    }
  }

  /** A mask keeps no row exactly when no row satisfies it. */
  lemma {:induction false} WhereKeepsNone(rows: seq<Row>, c: Criterion)
    ensures |Where(rows, c)| == 0 <==> forall k :: 0 <= k < |rows| ==> !Holds(c, rows[k])
  {
    if rows != [] {
      var tail := rows[1..];
      WhereKeepsNone(tail, c);
      assert |Where(rows, c)| == (if Holds(c, rows[0]) then 1 else 0) + |Where(tail, c)|;
      if forall k :: 0 <= k < |rows| ==> !Holds(c, rows[k]) {
        assert forall k :: 0 <= k < |tail| ==> !Holds(c, tail[k]) by {
          forall k | 0 <= k < |tail| ensures !Holds(c, tail[k]) {
            assert tail[k] == rows[k + 1];
          }
        }
      } else {
        var k :| 0 <= k < |rows| && Holds(c, rows[k]);
        if k > 0 {
          assert tail[k - 1] == rows[k];
        }
      }
    }
  }

  /** A mask that keeps at least the rows another one keeps keeps at least as many. */
  lemma {:induction false} WhereWeaker(rows: seq<Row>, c1: Criterion, c2: Criterion)
    requires forall k :: 0 <= k < |rows| && Holds(c1, rows[k]) ==> Holds(c2, rows[k])
    ensures |Where(rows, c1)| <= |Where(rows, c2)|
  {
    if rows != [] {
      WhereWeaker(rows[1..], c1, c2);
    }
  }

  /** The status filter of the map and of the table: "Todos" keeps everything. */
  function FilterByStatus(rows: seq<Row>, selected: string): (shown: seq<Row>)
    ensures selected == ShowAll ==> shown == rows
    ensures selected != ShowAll ==> forall r: Row :: r in shown ==> r.shipment.status.Label() == selected
  {
    if selected == ShowAll then rows else Where(rows, StatusIs(selected))
  }

  /** The filter drops no row with the selected status: each occurs as often as in the input. */
  lemma FilterByStatusKeepsMatches(rows: seq<Row>, selected: string)
    ensures forall r: Row :: multiset(FilterByStatus(rows, selected))[r] ==
              (if selected == ShowAll || r.shipment.status.Label() == selected then multiset(rows)[r] else 0)
  {
    if selected != ShowAll {
      WhereMultiset(rows, StatusIs(selected));
    }
  }

  /** The filter keeps the order of the rows it shows. */
  lemma FilterByStatusAppend(a: seq<Row>, b: seq<Row>, selected: string)
    ensures FilterByStatus(a + b, selected) == FilterByStatus(a, selected) + FilterByStatus(b, selected)
  {
    if selected != ShowAll {
      WhereAppend(a, b, StatusIs(selected));
    }
  }

  /** Rows in non-increasing order of score. */
  predicate NonIncreasing(rows: seq<Row>) {
    forall j, k :: 0 <= j < k < |rows| ==> rows[j].shipment.score >= rows[k].shipment.score
  }

  /** Inserts a row into a table sorted by descending score, before the rows with a score not above its own. */
  function InsertByScore(row: Row, sorted: seq<Row>): (r: seq<Row>)
    requires NonIncreasing(sorted)
    ensures NonIncreasing(r)
    ensures multiset(r) == multiset(sorted) + multiset{row}
    ensures |r| == |sorted| + 1
  {
    if sorted == [] || sorted[0].shipment.score <= row.shipment.score then [row] + sorted
    else
      var rest := InsertByScore(row, sorted[1..]);
      assert sorted == [sorted[0]] + sorted[1..];
      assert rest[0] in multiset(rest);
      [sorted[0]] + rest
  }

  /** Sorting by score, highest first: a permutation of the rows in non-increasing score order. */
  function SortByScoreDesc(rows: seq<Row>): (sorted: seq<Row>)
    ensures NonIncreasing(sorted)
    ensures multiset(sorted) == multiset(rows)
    ensures |sorted| == |rows|
  {
    if rows == [] then []
    else
      assert rows == [rows[0]] + rows[1..];
      InsertByScore(rows[0], SortByScoreDesc(rows[1..]))
  }

  /**
   * The table shown under the map: the filtered rows sorted by score, highest
   * first. It holds every row that passes the filter, as often as it occurs,
   * and no other.
   */
  function DisplayTable(rows: seq<Row>, selected: string): (shown: seq<Row>)
    ensures NonIncreasing(shown)
    ensures selected == ShowAll ==> multiset(shown) == multiset(rows)
    ensures forall r: Row :: multiset(shown)[r] ==
              (if selected == ShowAll || r.shipment.status.Label() == selected then multiset(rows)[r] else 0)
  {
    FilterByStatusKeepsMatches(rows, selected);
    SortByScoreDesc(FilterByStatus(rows, selected))
  }

  /** The "critical shipments" metric: the number of rows whose status is CRÍTICO. */
  function CriticalCount(rows: seq<Row>): (n: nat)
    ensures n <= |rows|
    ensures n == 0 <==> forall k :: 0 <= k < |rows| ==> rows[k].shipment.status != Critical
  {
    WhereKeepsNone(rows, StatusIs(Critical.Label()));
    |Where(rows, StatusIs(Critical.Label()))|
  }

  /** The "high risk shipments" metric: the number of rows whose score exceeds the configured threshold. */
  function HighRiskCount(rows: seq<Row>, threshold: int): (n: nat)
    ensures n <= |rows|
    ensures n == 0 <==> forall k :: 0 <= k < |rows| ==> rows[k].shipment.score <= threshold as real
    ensures n == |rows| <==> forall k :: 0 <= k < |rows| ==> rows[k].shipment.score > threshold as real
  {
    WhereKeepsNone(rows, ScoreAbove(threshold));
    WhereKeepsAll(rows, ScoreAbove(threshold));
    |Where(rows, ScoreAbove(threshold))|
  }

  /** Raising the threshold never increases the high-risk count. */
  lemma HighRiskCountAntitone(rows: seq<Row>, t1: int, t2: int)
    requires t1 <= t2
    ensures HighRiskCount(rows, t2) <= HighRiskCount(rows, t1)
  {
    WhereWeaker(rows, ScoreAbove(t2), ScoreAbove(t1));
  }

  /**
   * The configurable threshold is not the status threshold: with the
   * threshold at 70 or below, every ALTO RIESGO row is counted as high risk
   * (a CRÍTICO row may be counted too).
   */
  lemma {:induction false} HighRiskStatusCounted(rows: seq<Row>, threshold: int)
    requires threshold <= 70
    requires forall k :: 0 <= k < |rows| ==> Evaluated(rows[k].shipment)
    ensures |Where(rows, StatusIs(HighRisk.Label()))| <= HighRiskCount(rows, threshold)
  {
    forall k | 0 <= k < |rows| && Holds(StatusIs(HighRisk.Label()), rows[k])
      ensures Holds(ScoreAbove(threshold), rows[k])
    {
      LabelsDistinct(rows[k].shipment.status, HighRisk, Imminent, Imminent);
    }
    WhereWeaker(rows, StatusIs(HighRisk.Label()), ScoreAbove(threshold));
  }

  /**
   * On a table of evaluated shipments with their predictions, the critical
   * metric equals the number of rows predicted as an imminent stockout.
   */
  lemma {:induction false} CriticalCountIsImminentCount(shipments: seq<Shipment>, bufferDays: int)
    requires forall k :: 0 <= k < |shipments| ==> shipments[k].consumption > 0
    requires forall k :: 0 <= k < |shipments| ==> Evaluated(shipments[k])
    ensures CriticalCount(WithPredictions(shipments, bufferDays))
            == |Where(WithPredictions(shipments, bufferDays), PredictionIs(Imminent))|
  {
    var rows := WithPredictions(shipments, bufferDays);
    forall k | 0 <= k < |rows|
      ensures Holds(StatusIs(Critical.Label()), rows[k]) <==> Holds(PredictionIs(Imminent), rows[k])
    {
      LabelsDistinct(rows[k].shipment.status, Critical, Imminent, Imminent);
    }
    WhereWeaker(rows, StatusIs(Critical.Label()), PredictionIs(Imminent));
    WhereWeaker(rows, PredictionIs(Imminent), StatusIs(Critical.Label()));
  }

  /** The route colour of each status; any other value gets the default "blue". */
  const ColorMap: map<string, string> := map[
    "CRÍTICO" := "red",
    "ALTO RIESGO" := "orange",
    "RIESGO MEDIO" := "yellow",
    "NORMAL" := "green"
  ]

  /** The colour lookup with default: the mapped colour, or "blue" for a value the map lacks. */
  function RouteColor(status: string): (color: string)
    ensures status in ColorMap ==> color == ColorMap[status] && color != "blue"
    ensures status !in ColorMap ==> color == "blue"
  {
    if status in ColorMap then ColorMap[status] else "blue"
  }

  /** Every status has its own colour, and the default is never used for a status. */
  lemma StatusColors(s1: Status, s2: Status)
    ensures RouteColor(s1.Label()) != "blue"
    ensures RouteColor(s1.Label()) == RouteColor(s2.Label()) ==> s1 == s2
    ensures RouteColor(Critical.Label()) == "red" && RouteColor(Normal.Label()) == "green"
    ensures RouteColor(ShowAll) == "blue"
  {
  }

  /** The background of a row in the table, by its status label. */
  function RowStyle(status: string): string {
    if status == Critical.Label() then "background-color: #ffcccc"
    else if status == HighRisk.Label() then "background-color: #ffe6cc"
    else if status == MediumRisk.Label() then "background-color: #ffffcc"
    else ""
  }

  /** Row highlighting: the same style for every one of the row's cells. */
  function HighlightRisk(status: string, width: nat): (styles: seq<string>)
    ensures |styles| == width
    ensures forall k :: 0 <= k < width ==> styles[k] == RowStyle(status)
  {
    seq(width, _ => RowStyle(status))
  }

  /**
   * A row is highlighted exactly when its status is not NORMAL, that is when
   * its route colour is not green; each highlighted status has its own
   * background.
   */
  lemma HighlightMatchesColor(s1: Status, s2: Status, width: nat)
    requires width > 0
    ensures HighlightRisk(s1.Label(), width)[0] == "" <==> s1 == Normal
    ensures HighlightRisk(s1.Label(), width)[0] == "" <==> RouteColor(s1.Label()) == "green"
    ensures s1 != Normal && HighlightRisk(s1.Label(), width) == HighlightRisk(s2.Label(), width) ==> s1 == s2
  {
  }

  /**
   * The route map loop: one route line per filtered row, in the colour of its
   * status. No line gets the default colour, and with a status selected all
   * lines share that status's colour.
   */
  method RouteLineColors(rows: seq<Row>, selected: string) returns (colors: seq<string>)
    ensures |colors| == |FilterByStatus(rows, selected)|
    ensures forall k :: 0 <= k < |colors| ==>
              colors[k] == RouteColor(FilterByStatus(rows, selected)[k].shipment.status.Label())
    ensures forall k :: 0 <= k < |colors| ==> colors[k] != "blue"
    ensures selected != ShowAll ==> forall k :: 0 <= k < |colors| ==> colors[k] == RouteColor(selected)
  {
    var shown := FilterByStatus(rows, selected);
    colors := [];
    for i := 0 to |shown|
      invariant |colors| == i
      invariant forall k :: 0 <= k < i ==> colors[k] == RouteColor(shown[k].shipment.status.Label())
      invariant forall k :: 0 <= k < i ==> colors[k] != "blue"
      invariant selected != ShowAll ==> forall k :: 0 <= k < i ==> colors[k] == RouteColor(selected)
    {
      var status := shown[i].shipment.status;
      var color := RouteColor(status.Label());
      assert color != "blue" by {
        StatusColors(status, status);
      }
      assert selected != ShowAll ==> status.Label() == selected by {
        assert shown[i] in shown;
      }
      colors := colors + [color];
    }
  }
}
