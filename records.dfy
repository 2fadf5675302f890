/** The enriched record the live loop appends for each reading it processes. */
module Records {
  import opened CauseRules
  import opened Timestamps

  /** A class label of the binary classifier. */
  type Bit = b: int | 0 <= b <= 1

  /** The probability `predict_proba` gives to the breakdown class. */
  type Probability = p: real | 0.0 <= p <= 1.0

  datatype Verdict = Verdict(predicted: Bit, probability: Probability)

  /** The pretrained model, as `predict` and `predict_proba` together: a
      function of the feature vector only. */
  type Classifier = seq<real> -> Verdict

  /** The feature vector `row[features]`, in the order the model was trained on. */
  function Features(r: Reading): (x: seq<real>)
    ensures |x| == 10 && x[2] == r.rpm && x[3] == r.speed
  {
    [r.coolantTemp, r.manifoldPressure, r.rpm, r.speed, r.intakeAirTemp,
     r.airflowRate, r.throttle, r.airTemp, r.pedalD, r.pedalE]
  }

  /** `row_log`: the reading's own columns plus the enrichment columns. */
  datatype Record = Record(
    reading: Reading,
    loggedAt: DateTime,       // timestamp
    vehicleId: string,        // vehicle_id
    driver: string,           // driver
    prediction: Bit,          // prediction
    probability: Probability, // probability
    breakdownCause: string)   // breakdown_cause

  /** The record for one reading processed at `at`. */
  function Enrich(row: Reading, at: DateTime, vehicle: string, driver: string, v: Verdict): Record {
    Record(row, at, vehicle, driver, v.predicted, v.probability, PrimaryCause(Causes(row)))
  }

  /** The record carries the reading, its context and the verdict unchanged;
      its cause is the sentinel exactly when no rule holds, and otherwise the
      first tag `get_causes` returns. */
  lemma EnrichedRecord(row: Reading, at: DateTime, vehicle: string, driver: string, v: Verdict)
    ensures var r := Enrich(row, at, vehicle, driver, v);
            r.reading == row && r.loggedAt == at && r.vehicleId == vehicle && r.driver == driver &&
            r.prediction == v.predicted && r.probability == v.probability &&
            (r.breakdownCause == NoCause <==> Causes(row) == []) &&
            (Causes(row) != [] ==> r.breakdownCause == Causes(row)[0])
  {
    if Causes(row) != [] {
      CausesInRuleOrder(row);
      var f := Fired(RuleOrder, row);
      TagsDistinct(f[0], f[0]);
    }
  }

  /** The records an uninterrupted pass over `rows` appends, row `i` being
      processed at `clock(i)`. */
  function EnrichAll(rows: seq<Reading>, vehicle: string, driver: string, classify: Classifier,
                     clock: nat -> DateTime): (records: seq<Record>)
    ensures |records| == |rows|
    ensures forall i :: 0 <= i < |rows| ==> records[i] == Enrich(rows[i], clock(i), vehicle, driver, classify(Features(rows[i])))
    ensures forall i :: 0 <= i < |rows| ==>
              records[i].reading == rows[i] && records[i].vehicleId == vehicle &&
              records[i].driver == driver && records[i].loggedAt == clock(i) &&
              records[i].prediction == classify(Features(rows[i])).predicted &&
              records[i].probability == classify(Features(rows[i])).probability &&
              records[i].breakdownCause == PrimaryCause(Causes(rows[i]))
  {
    seq(|rows|, i requires 0 <= i < |rows| => Enrich(rows[i], clock(i), vehicle, driver, classify(Features(rows[i]))))
  }

  /** Processing one more row appends exactly its record. */
  lemma EnrichAllSnoc(rows: seq<Reading>, i: nat, vehicle: string, driver: string, classify: Classifier,
                      clock: nat -> DateTime)
    requires i < |rows|
    ensures EnrichAll(rows[..i + 1], vehicle, driver, classify, clock) ==
            EnrichAll(rows[..i], vehicle, driver, classify, clock) +
            [Enrich(rows[i], clock(i), vehicle, driver, classify(Features(rows[i])))]
  {
    var longer := EnrichAll(rows[..i + 1], vehicle, driver, classify, clock);
    var shorter := EnrichAll(rows[..i], vehicle, driver, classify, clock);
    forall j | 0 <= j < i ensures longer[j] == shorter[j] {
      assert rows[..i + 1][j] == rows[..i][j];
    }
  }
}
