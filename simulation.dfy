/** The Live Monitoring page: the `running` flag, the `log_data` buffer and
    the loop that replays the data set through the classifier and the rules. */
module Simulation {
  import opened CauseRules
  import opened Timestamps
  import opened Fleet
  import opened Records
  import opened LogStore

  /** `base_df.head(15000)`: a run replays at most this many rows. */
  const MaxRows: nat := 15000

  /** How a pass of the page ends before its rows run out. `StopBefore(k)`:
      the Stop press, honoured before row `k` is read. `CutAfter(k)`: a
      re-run that is not a Stop press (the page radio or the vehicle
      selector changed, or the classifier raised) abandons the pass once `k`
      rows are buffered. */
  datatype Interruption = Uninterrupted | StopBefore(row: nat) | CutAfter(row: nat)

  /** The rows a pass would replay if nothing interrupted it. */
  function PassLength(rowCount: nat): (n: nat)
    ensures n <= MaxRows && n <= rowCount
    ensures n == MaxRows || n == rowCount
  {
    if rowCount < MaxRows then rowCount else MaxRows
  }

  /** How many rows a pass processes: none when the session is idle, else
      the rows before the interruption, at most `MaxRows` and at most all rows. */
  function Processed(wasRunning: bool, rowCount: nat, pass: Interruption): (k: nat)
    ensures !wasRunning ==> k == 0
    ensures wasRunning ==> k <= PassLength(rowCount)
    ensures wasRunning && pass.Uninterrupted? ==> k == PassLength(rowCount)
    ensures wasRunning && !pass.Uninterrupted? ==>
              k <= pass.row && (k == pass.row || k == PassLength(rowCount))
  {
    if !wasRunning then 0
    else match pass
      case Uninterrupted => PassLength(rowCount)
      case StopBefore(row) => if row < PassLength(rowCount) then row else PassLength(rowCount)
      case CutAfter(row) => if row < PassLength(rowCount) then row else PassLength(rowCount)
  }

  /** Whether a pass is abandoned by a re-run before the final save. A cut
      after the last row is buffered, while that row is displayed, still
      comes before the save. An abandoned pass leaves `running` set and
      saves nothing. */
  predicate Abandoned(wasRunning: bool, rowCount: nat, pass: Interruption) {
    wasRunning && pass.CutAfter? && pass.row <= PassLength(rowCount)
  }

  /** The session state kept across page re-runs. */
  class Session {
    var running: bool
    var logData: seq<Record>
    var logs: Store

    /** First visit: idle, with an empty buffer, over the logs saved before. */
    constructor (saved: Store)
      ensures !running && logData == [] && logs == saved
    {
      running := false;
      logData := [];
      logs := saved;
    }

    /** "Start Simulation", offered only while idle. */
    method Start()
      requires !running
      modifies this
      ensures running && logData == [] && logs == old(logs)
    {
      running := true;
      logData := [];
    }

    /** The conditional save shared by Stop and exhaustion. */
    method SaveLog(vehicle: string, at: DateTime)
      requires Valid(at)
      modifies this
      ensures running == old(running) && logData == old(logData)
      ensures logs == Persist(old(logs), vehicle, at, logData)
    {
      logs := Persist(logs, vehicle, at, logData);
    }

    /** "Stop Simulation", offered only while running: the buffer is saved
        when it holds records, and kept in memory until the next Start. */
    method Stop(vehicle: string, at: DateTime)
      requires running && Valid(at)
      modifies this
      ensures !running && logData == old(logData)
      ensures logs == Persist(old(logs), vehicle, at, old(logData))
    {
      running := false;
      SaveLog(vehicle, at);
    }

    /** The body of the replay loop: classify one reading, explain it with
        the rules, and buffer its record. */
    method ProcessRow(row: Reading, at: DateTime, vehicle: string, driver: string, classify: Classifier)
      modifies this
      ensures running == old(running) && logs == old(logs)
      ensures logData == old(logData) + [Enrich(row, at, vehicle, driver, classify(Features(row)))]
    {
      var verdict := classify(Features(row));
      var causes := GetCauses(row);
      var mainCause := PrimaryCause(causes);
      var record := Record(row, at, vehicle, driver, verdict.predicted, verdict.probability, mainCause);
      logData := logData + [record];
    }

    /** One pass of the page while `running`: replays the rows from the
        first, enriching and buffering each one, until the pass is
        interrupted or the rows run out. A Stop press or running out of rows
        saves the buffer; a pass abandoned by another re-run leaves `running`
        set and saves nothing. Row `i` is processed at `clock(i)` and a save
        after `k` rows happens at `clock(k)`. */
    method Run(rows: seq<Reading>, vehicle: string, classify: Classifier, clock: nat -> DateTime, pass: Interruption)
      requires vehicle in DriverMapping
      requires forall i :: Valid(clock(i))
      modifies this
      ensures running == Abandoned(old(running), |rows|, pass)
      ensures var k := Processed(old(running), |rows|, pass);
              logData == old(logData) + EnrichAll(rows[..k], vehicle, DriverMapping[vehicle], classify, clock)
      ensures var k := Processed(old(running), |rows|, pass);
              logs == if old(running) && !running then Persist(old(logs), vehicle, clock(k), logData) else old(logs)
    {
      var driver := DriverMapping[vehicle];
      var n := PassLength(|rows|);
      if running {
        ghost var k := Processed(true, |rows|, pass);
        assert k < n ==> pass == StopBefore(k) || pass == CutAfter(k);
        var i := 0;
        while i < n
          invariant 0 <= i <= k
          invariant running && logs == old(logs)
          invariant logData == old(logData) + EnrichAll(rows[..i], vehicle, driver, classify, clock)
        {
          if pass == StopBefore(i) {
            // the Stop press, honoured before the next row is read
            Stop(vehicle, clock(i));
          }
          if !running {
            break;
          }
          if pass == CutAfter(i) {
            // the page re-runs for another reason: this pass ends here
            assert i == k && Abandoned(true, |rows|, pass);
            return;
          }
          ProcessRow(rows[i], clock(i), vehicle, driver, classify);
          EnrichAllSnoc(rows, i, vehicle, driver, classify, clock);
          i := i + 1;
        }
        assert i == k;
        if pass == CutAfter(i) {
          // a re-run while the last row is displayed, before the flush
          return;
        }
        assert !Abandoned(true, |rows|, pass);
        if running {
          // the rows ran out while still running
          running := false;
          SaveLog(vehicle, clock(i));
        }
      }
    }
  }

  /** Start followed at once by Stop saves nothing: a vehicle without logs
      still has none. */
  method StartThenStopSavesNothing(saved: Store, vehicle: string, at: DateTime) returns (after: Store)
    requires Valid(at)
    ensures after == saved
    ensures vehicle !in saved ==> vehicle !in after
  {
    var session := new Session(saved);
    session.Start();
    session.Stop(vehicle, at);
    after := session.logs;
  }

  /** A fresh session run to the end of its rows saves one log holding an
      enriched record for each of the first `min(15000, |rows|)` rows, in order,
      tagged with the selected vehicle and its driver. */
  method FullRunSavesEveryRow(saved: Store, rows: seq<Reading>, vehicle: string, classify: Classifier,
                              clock: nat -> DateTime) returns (after: Store, log: Log)
    requires vehicle in DriverMapping
    requires forall i :: Valid(clock(i))
    ensures var k := PassLength(|rows|);
            |log| == k &&
            log == EnrichAll(rows[..k], vehicle, DriverMapping[vehicle], classify, clock) &&
            after == Persist(saved, vehicle, clock(k), log)
    ensures rows != [] ==>
            vehicle in after && LogFileName(clock(|log|)) in after[vehicle] &&
              after[vehicle][LogFileName(clock(|log|))] == log
    ensures forall i :: 0 <= i < |log| ==>
              log[i].reading == rows[i] && log[i].vehicleId == vehicle &&
              log[i].driver == DriverMapping[vehicle] &&
              log[i].breakdownCause == PrimaryCause(Causes(rows[i]))
  {
    var session := new Session(saved);
    session.Start();
    session.Run(rows, vehicle, classify, clock, Uninterrupted);
    after, log := session.logs, session.logData;
  }

  /** The buffer a pass cut after `k` rows and a replay of `n` rows leave
      holds the first `k` readings twice: first under the vehicle selected
      during the cut pass, then under the vehicle selected for the replay. */
  lemma ReplayRepeatsCutReadings(log: Log, rows: seq<Reading>, k: nat, n: nat, first: string, second: string,
                                 classify: Classifier, clock: nat -> DateTime, later: nat -> DateTime)
    requires first in DriverMapping && second in DriverMapping && k <= n <= |rows|
    requires log == EnrichAll(rows[..k], first, DriverMapping[first], classify, clock) +
                    EnrichAll(rows[..n], second, DriverMapping[second], classify, later)
    ensures |log| == k + n
    ensures forall i :: 0 <= i < k ==> log[i].reading == rows[i] && log[i].vehicleId == first
    ensures forall i :: k <= i < k + k ==> log[i].reading == rows[i - k] && log[i].vehicleId == second
  {
    var cut := EnrichAll(rows[..k], first, DriverMapping[first], classify, clock);
    var replay := EnrichAll(rows[..n], second, DriverMapping[second], classify, later);
    forall i | 0 <= i < k ensures log[i].reading == rows[i] && log[i].vehicleId == first {
      assert log[i] == cut[i];
    }
    forall i | k <= i < k + k ensures log[i].reading == rows[i - k] && log[i].vehicleId == second {
      assert log[i] == replay[i - k];
    }
  }

  /** A pass abandoned after `k` rows leaves the session running and saves
      nothing; the next pass replays from the first row into the same buffer
      and saves it, cut pass included, under the vehicle selected then. */
  method CutPassIsReplayedFromFirstRow(saved: Store, rows: seq<Reading>, k: nat, first: string, second: string,
                                       classify: Classifier, clock: nat -> DateTime, later: nat -> DateTime)
    returns (after: Store, log: Log)
    requires first in DriverMapping && second in DriverMapping
    requires forall i :: Valid(clock(i)) && Valid(later(i))
    requires k <= PassLength(|rows|)
    ensures log == EnrichAll(rows[..k], first, DriverMapping[first], classify, clock) +
                   EnrichAll(rows[..PassLength(|rows|)], second, DriverMapping[second], classify, later)
    ensures |log| == k + PassLength(|rows|)
    ensures after == Persist(saved, second, later(PassLength(|rows|)), log)
    ensures rows != [] ==> FolderOf(after, second)[LogFileName(later(PassLength(|rows|)))] == log
  {
    ghost var cut := EnrichAll(rows[..k], first, DriverMapping[first], classify, clock);
    ghost var replay := EnrichAll(rows[..PassLength(|rows|)], second, DriverMapping[second], classify, later);
    assert Processed(true, |rows|, CutAfter(k)) == k && Abandoned(true, |rows|, CutAfter(k));
    assert Processed(true, |rows|, Uninterrupted) == PassLength(|rows|) && !Abandoned(true, |rows|, Uninterrupted);
    var session := new Session(saved);
    session.Start();
    session.Run(rows, first, classify, clock, CutAfter(k));
    assert session.running && session.logs == saved;
    assert session.logData == cut by {
      assert [] + cut == cut;
    }
    session.Run(rows, second, classify, later, Uninterrupted);
    after, log := session.logs, session.logData;
    assert log == cut + replay;
    assert after == Persist(saved, second, later(PassLength(|rows|)), log);
    assert |log| == k + PassLength(|rows|) && (rows != [] ==> log != []);
  }
}
