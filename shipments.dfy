/**
 * The synthetic shipment table: the ports, the values drawn at random for
 * each shipment, the evaluated shipment record, the loop that builds the
 * table, and the stockout prediction column added to it.
 */
module Shipments {
  import opened Risk

  datatype Port = Port(name: string, lat: real, lon: real)

  /** The Asian ports of origin. */
  const OriginPorts: seq<Port> := [
    Port("Ningbo, China", 29.8683, 121.5440),
    Port("Shanghai, China", 31.2304, 121.4737),
    Port("Busan, Corea del Sur", 35.1796, 129.0756),
    Port("Singapur", 1.3521, 103.8198)
  ]

  /** The Latin American ports of destination. */
  const DestinationPorts: seq<Port> := [
    Port("Puerto Caucedo, RD", 18.4264, -69.6618),
    Port("Puerto de Balboa, Panamá", 8.9517, -79.5671),
    Port("Puerto de Colón, Panamá", 9.3592, -79.9009)
  ]

  /** The values that one iteration of the generator draws at random. */
  datatype Draw = Draw(
    origin: nat,        // index into OriginPorts
    destination: nat,   // index into DestinationPorts
    baseTransit: int,
    climate: int,
    congestion: int,
    social: int,
    inventory: int,
    consumption: int)

  /** The ranges the generator draws from. */
  predicate ValidDraw(d: Draw) {
    d.origin < |OriginPorts| && d.destination < |DestinationPorts|
    && 25 <= d.baseTransit <= 40
    && IsPercentage(d.climate) && IsPercentage(d.congestion) && IsPercentage(d.social)
    && 50 <= d.inventory <= 500
    && 5 <= d.consumption <= 25
  }

  /** One row of the shipment table; `id` is the number in the identifier "SHP-<id>". */
  datatype Shipment = Shipment(
    id: nat,
    origin: Port,
    destination: Port,
    baseTransit: int,
    delay: int,
    totalTransit: int,
    inventory: int,
    consumption: int,
    climate: int,
    congestion: int,
    social: int,
    score: real,
    status: Status)

  /** A row whose derived columns are the ones its raw columns determine. */
  predicate Evaluated(s: Shipment) {
    && s.consumption > 0
    && s.score == RiskScore(s.climate, s.congestion, s.social)
    && s.delay == Delay(s.score)
    && s.totalTransit == s.baseTransit + s.delay
    && s.status == ShipmentStatus(s.score, s.inventory, s.consumption, s.totalTransit)
  }

  /** The record built from the draws of iteration i. */
  function EvaluateShipment(i: nat, d: Draw): (s: Shipment)
    requires ValidDraw(d)
    ensures Evaluated(s)
    ensures s.id == 1000 + i
    ensures s.origin == OriginPorts[d.origin] && s.destination == DestinationPorts[d.destination]
    ensures s.baseTransit == d.baseTransit && s.inventory == d.inventory && s.consumption == d.consumption
    ensures s.climate == d.climate && s.congestion == d.congestion && s.social == d.social
    ensures 0.0 <= s.score <= 100.0
    ensures 0 <= s.delay <= 15 && s.baseTransit <= s.totalTransit <= s.baseTransit + 15
  {
    var score := RiskScore(d.climate, d.congestion, d.social);
    var delay := Delay(score);
    var total := d.baseTransit + delay;
    Shipment(1000 + i, OriginPorts[d.origin], DestinationPorts[d.destination],
             d.baseTransit, delay, total, d.inventory, d.consumption,
             d.climate, d.congestion, d.social,
             score, ShipmentStatus(score, d.inventory, d.consumption, total))
  }

  /**
   * The generator loop: one evaluated record appended per iteration, the
   * random values of iteration i being draws[i].
   */
  method GenerateSupplyChainData(draws: seq<Draw>) returns (shipments: seq<Shipment>)
    requires forall k :: 0 <= k < |draws| ==> ValidDraw(draws[k])
    ensures |shipments| == |draws|
    ensures forall k :: 0 <= k < |draws| ==> shipments[k] == EvaluateShipment(k, draws[k])
    ensures forall k :: 0 <= k < |shipments| ==> Evaluated(shipments[k])
    ensures forall j, k :: 0 <= j < k < |shipments| ==> shipments[j].id < shipments[k].id
  {
    shipments := [];
    for i := 0 to |draws|
      invariant |shipments| == i
      invariant forall k :: 0 <= k < i ==> shipments[k] == EvaluateShipment(k, draws[k])
    {
      shipments := shipments + [EvaluateShipment(i, draws[i])];
    }
  }

  /** A table row after the prediction and indicator columns have been added. */
  datatype Row = Row(shipment: Shipment, prediction: Prediction)

  /**
   * Adds the stockout prediction of each shipment, computed with its total
   * transit and the given buffer. On an evaluated shipment the prediction is
   * an imminent stockout exactly when the status is critical.
   */
  function WithPredictions(shipments: seq<Shipment>, bufferDays: int): (rows: seq<Row>)
    requires forall k :: 0 <= k < |shipments| ==> shipments[k].consumption > 0
    ensures |rows| == |shipments|
    ensures forall k :: 0 <= k < |rows| ==> rows[k].shipment == shipments[k]
    ensures forall k :: 0 <= k < |rows| ==>
              rows[k].prediction == PredictStockoutRisk(shipments[k].inventory, shipments[k].consumption,
                                                        shipments[k].totalTransit, bufferDays)
    ensures forall k :: 0 <= k < |rows| && Evaluated(shipments[k]) ==>
              (rows[k].shipment.status == Critical <==> rows[k].prediction == Imminent)
  {
    seq(|shipments|, k requires 0 <= k < |shipments| =>
      Row(shipments[k],
          PredictStockoutRisk(shipments[k].inventory, shipments[k].consumption,
                              shipments[k].totalTransit, bufferDays)))
  }
}
