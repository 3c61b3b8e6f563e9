# Supply chain risk evaluator — a Dafny model

This project models the business logic of the Supply Chain Resilience
Platform dashboard (`app.py`). The dashboard simulates maritime shipments
from Asian to Latin American ports. For each shipment it derives these
fields:

- a weighted risk score (30% climate, 50% port congestion, 20% social
  instability);
- a delay of up to 15 days, which gives the total transit time;
- the days of inventory left;
- a four-way status: CRÍTICO, ALTO RIESGO, RIESGO MEDIO or NORMAL.

It also adds a separate three-way stockout prediction (DESABASTO INMINENTE,
RIESGO ALTO or NORMAL) with an indicator symbol. Then it filters, sorts,
counts and colours the resulting table.

Modules:

- `Risk` (`risk.dfy`): risk score, delay, status decision table and
  stockout prediction, as pure functions. Arithmetic is exact: the score is
  a `real`. Python's `int()` is truncation toward zero. "Days to zero below
  N days" is computed by cross-multiplication, and `RunsOutBefore` proves it
  matches the real-division comparison the source writes.
- `Shipments` (`shipments.dfy`): the port lists and the values drawn at
  random per iteration. These values come in as a `Draw` parameter, with the
  `randint` ranges as preconditions. Also here: the per-shipment evaluation,
  the generator loop as a method that appends one evaluated record per
  iteration, and the prediction column added to the table.
- `Table` (`table.dfy`): pandas row masks, the "Todos"/status filter, the
  descending sort by score, the two metric counts, the status colour map with
  its `"blue"` default, row highlighting, and the loop that colours the route
  lines.

The main consequence proved is this: a shipment's status is CRÍTICO exactly
when its prediction is DESABASTO INMINENTE, for every buffer setting. The
reason is that the prediction is computed with `Tránsito_Total`, the same
quantity the status compares against. So the "critical shipments" metric
equals the number of 🔴 rows. Outside that case the two classifications are
independent.

Where the repository's description differs from the code, this model
follows the code:

- base transit is drawn from 25..40;
- the buffer slider runs from 3 to 10;
- the score compared with the configurable threshold is `Score_Riesgo`.

## Model

| member | source | states |
|---|---|---|
| `Risk.RiskScore` | app.py:45-51 | the score is (3·climate + 5·congestion + 2·social)/10, exactly the 0.3/0.5/0.2 weighted sum; for factors in [0,100] it lies in [0,100] |
| `Risk.WeightsSumToOne` | app.py:51 | equal factors x give score x: the weights sum to one |
| `Risk.RiskScoreMonotone` | app.py:51 | raising any factor never lowers the score |
| `Risk.RiskScoreExamples` | app.py:46-51 | (100,100,100) gives 100, (0,0,0) gives 0, (50,50,50) gives 50 |
| `Risk.ScoreIsTenths` | app.py:96 | the score is a whole number of tenths, so rounding `Score_Riesgo` to one decimal does not change it |
| `Risk.Truncate` | app.py:54 | `int()` truncates toward zero: the result is the integer between 0 and x that is within 1 of x |
| `Risk.TruncateMonotone` | app.py:54 | truncation toward zero is monotone |
| `Risk.Delay` | app.py:53-54 | the delay is the truncation of score/100·15; for a score in [0,100] it lies in [0,15]; a negative score gives no positive delay |
| `Risk.DelayMonotone` | app.py:54 | a higher score never gives a smaller delay |
| `Risk.DelayMaximalOnlyAtFullRisk` | app.py:54 | on [0,100] the 15-day maximum is reached exactly at score 100 |
| `Risk.DelayExamples` | app.py:54 | delays for scores 100, 0 and 66.6 are 15, 0 and 9 |
| `Risk.TotalTransitBounds` | app.py:88 | `Tránsito_Total` = base + delay lies between base and base + 15 |
| `Risk.RunsOutBefore` | app.py:63-69 | inventory/consumption < d holds exactly when inventory < d·consumption, for positive consumption |
| `Risk.ShipmentStatus` | app.py:68-76 | first match wins: CRÍTICO iff days to zero < total transit; otherwise ALTO RIESGO iff score > 70, RIESGO MEDIO iff 40 < score ≤ 70, NORMAL iff score ≤ 40 |
| `Risk.StatusExamples` | app.py:69-76 | risk 10 with 5 days of stock and 30 of transit is CRÍTICO; scores 71, 70, 41, 40 give ALTO RIESGO, RIESGO MEDIO, RIESGO MEDIO, NORMAL |
| `Risk.PredictStockoutRisk` | app.py:105-118 | with buffer = days to zero − transit: buffer < 0 is imminent, 0 ≤ buffer < threshold is high risk, otherwise normal |
| `Risk.PredictionExamples` | app.py:110-118 | (100,10,15,5) is imminent with label DESABASTO INMINENTE; (200,10,15,5), a buffer of exactly 5, is normal with 🟢; (180,10,15,5) is high risk |
| `Risk.CriticalIffImminent` | app.py:69-113 | a status computed with total transit T is CRÍTICO iff the prediction with transit T is imminent, for any threshold |
| `Risk.ClassificationsIndependent` | app.py:69-118 | a NORMAL status can carry a RIESGO ALTO prediction and an ALTO RIESGO status a NORMAL one |
| `Risk.PredictionMonotoneInThreshold` | app.py:115 | a larger buffer setting never gives a less severe prediction |
| `Risk.ImminentIgnoresThreshold` | app.py:113-114 | whether a stockout is imminent does not depend on the buffer setting |
| `Risk.LabelsDistinct` | app.py:68-76 | distinct statuses, and distinct predictions, have distinct labels and indicators |
| `Shipments.EvaluateShipment` | app.py:38-98 | the record of iteration i has id 1000+i and the drawn ports and inputs; its derived columns are consistent; its score is in [0,100], its delay in [0,15], and its total transit in [base, base+15] |
| `Shipments.GenerateSupplyChainData` | app.py:36-102 | one record per draw, record k being the evaluation of draw k; every record is consistent and ids strictly increase |
| `Shipments.WithPredictions` | app.py:246-253 | one row per shipment, holding the prediction for its total transit and buffer; on every evaluated shipment the row is CRÍTICO iff its prediction is imminent |
| `Table.Where` | app.py:126 | a mask keeps only rows that satisfy it, taken from the input |
| `Table.WhereMultiset` | app.py:126 | a mask keeps every satisfying row exactly as often as it occurs, and no other row |
| `Table.WhereAppend` | app.py:126 | masking distributes over concatenation, so the order of the kept rows is preserved |
| `Table.WhereKeepsAll` | app.py:126 | a mask keeps all rows iff every row satisfies it |
| `Table.WhereKeepsNone` | app.py:259-260 | a mask keeps no row iff no row satisfies it |
| `Table.WhereWeaker` | app.py:267 | a mask implied by another keeps at least as many rows |
| `Table.FilterByStatus` | app.py:287-290 | "Todos" returns the rows unchanged; any other value keeps only rows with that status |
| `Table.FilterByStatusKeepsMatches` | app.py:287-290 | the filter keeps each matching row as often as it occurs and drops the rest |
| `Table.FilterByStatusAppend` | app.py:125-128 | the filter preserves the relative order of the rows it keeps |
| `Table.InsertByScore` | app.py:293 | inserting into a descending table gives a descending table with that row added |
| `Table.SortByScoreDesc` | app.py:293 | the sort gives a permutation of the rows, with scores non-increasing |
| `Table.DisplayTable` | app.py:286-293 | the displayed table is sorted descending and holds exactly the rows passing the filter, with their multiplicity |
| `Table.CriticalCount` | app.py:259 | the number of CRÍTICO rows; at most the number of rows, and zero iff no row is CRÍTICO |
| `Table.HighRiskCount` | app.py:267 | the number of rows with score above the threshold; zero iff none is above, all iff all are |
| `Table.HighRiskCountAntitone` | app.py:267 | raising the threshold never increases the count |
| `Table.HighRiskStatusCounted` | app.py:267 | with the threshold at most 70, every ALTO RIESGO row is counted as high risk |
| `Table.CriticalCountIsImminentCount` | app.py:246-260 | the critical count equals the number of rows predicted DESABASTO INMINENTE, for every buffer |
| `Table.RouteColor` | app.py:133-142 | the colour map lookup returns the mapped colour, or "blue" when the status is not in the map |
| `Table.StatusColors` | app.py:133-138 | each status has its own colour and never the default; CRÍTICO is red, NORMAL green, "Todos" would get blue |
| `Table.HighlightRisk` | app.py:303-311 | one style per cell of the row, all equal to the style of its status |
| `Table.HighlightMatchesColor` | app.py:303-311 | a row is highlighted iff its status is not NORMAL, i.e. iff its route colour is not green; highlighted statuses have distinct styles |
| `Table.RouteLineColors` | app.py:124-142 | one route line per filtered row in its status colour; none is blue; with a status selected, all lines have that status's colour |

## Left out

- Streamlit page setup, sliders, select box, columns, metrics, markdown and dataframe rendering: UI with no behaviour to verify. The slider values are parameters (`threshold`, `bufferDays`, `selected`).
- Plotly figures: the `Scattergeo` traces and their markers, the layout, the histogram and the scatter chart. These are calls into a plotting library. Only the colour of each route line is modelled.
- Random sampling (`random.choice`, `random.randint`): the sampled values are the `Draw` parameters, with their ranges as preconditions.
- The ETA (`datetime.now()`, `timedelta`, `strftime`): clock and formatting.
- The formatted identifier `SHP-<n>`: the model keeps the number n = 1000 + i.
- `Días_Stock_Cero` rounding: the column is display only. The model keeps inventory and consumption, with `DaysToZero` as the exact quotient.
- The float means (average score, delay and risk factors) and the progress bars: float presentation output.
- `@st.cache_data` memoisation and the pandas `apply`/`zip` plumbing: the prediction column is a sequence built pointwise.
- IEEE-754 floating point: the score and the delay use exact arithmetic. Python floats can differ by an ulp at exactly 40, at exactly 70, or where score·15/100 is a whole number (scores 20, 40, 60, 80). There a float may land just below the boundary, so the status or the delay could differ from the model.
- A zero or negative daily consumption: the source divides without a guard (a `ZeroDivisionError` for zero). The generator only draws 5..25, so the model requires consumption > 0.
- Table.SortByScoreDesc: does not state the order of rows with equal scores, because the default pandas sort is not stable and gives no order for ties.
- Vessel position interpolation: no such function is in app.py; it is not part of this model.
