/** The Dashboard page: the latest log of the selected vehicle and its
    summary metrics. */
module Dashboard {
  import opened Options
  import opened Records
  import opened LogStore
  import opened Timestamps
  import opened LexOrder

  /** "Total Records", "Breakdown Events", "Avg. Speed" and "Avg. RPM";
      a mean of no values is absent. */
  datatype Summary = Summary(totalRecords: nat, breakdownEvents: int, avgSpeed: Option<real>, avgRpm: Option<real>)

  /** "No logs found for this vehicle.", "No log files found.", or the
      loaded log's name and metrics. */
  datatype View = NoLogsFound | NoLogFiles | Loaded(file: string, summary: Summary)

  /** `log_df['prediction'].sum()`. */
  function SumPredictions(log: Log): (n: int)
    ensures 0 <= n <= |log|
    decreases |log|
  {
    if log == [] then 0 else SumPredictions(log[..|log| - 1]) + log[|log| - 1].prediction
  }

  /** The positions of the records classified as breakdowns. */
  function BreakdownIndices(log: Log): set<nat> {
    set i: nat | i < |log| && log[i].prediction == 1
  }

  function Sum(xs: seq<real>): real
    decreases |xs|
  {
    if xs == [] then 0.0 else Sum(xs[..|xs| - 1]) + xs[|xs| - 1]
  }

  /** `Series.mean()`, with no value for an empty column. */
  function Mean(xs: seq<real>): (m: Option<real>)
    ensures m.None? <==> xs == []
    ensures m.Some? ==> m.value * (|xs| as real) == Sum(xs)
  {
    if xs == [] then None else Some(Sum(xs) / (|xs| as real))
  }

  function Speeds(log: Log): (xs: seq<real>)
    ensures |xs| == |log| && forall i :: 0 <= i < |log| ==> xs[i] == log[i].reading.speed
  {
    seq(|log|, i requires 0 <= i < |log| => log[i].reading.speed)
  }

  function Rpms(log: Log): (xs: seq<real>)
    ensures |xs| == |log| && forall i :: 0 <= i < |log| ==> xs[i] == log[i].reading.rpm
  {
    seq(|log|, i requires 0 <= i < |log| => log[i].reading.rpm)
  }

  /** The four metrics of one log. */
  function Summarize(log: Log): (s: Summary)
    ensures s.totalRecords == |log|
    ensures s.breakdownEvents == |BreakdownIndices(log)|
    ensures s.avgSpeed == Mean(Speeds(log)) && s.avgRpm == Mean(Rpms(log))
    ensures s.avgSpeed.None? <==> log == []
    ensures s.avgRpm.None? <==> log == []
  {
    BreakdownsCounted(log);
    Summary(|log|, SumPredictions(log), Mean(Speeds(log)), Mean(Rpms(log)))
  }

  /** Summing 0/1 predictions counts the records classified as breakdowns. */
  lemma {:induction false} BreakdownsCounted(log: Log)
    ensures SumPredictions(log) == |BreakdownIndices(log)|
    decreases |log|
  {
    if log != [] {
      var n := |log| - 1;
      var front := log[..n];
      BreakdownsCounted(front);
      var last: set<nat> := if log[n].prediction == 1 then {n} else {};
      assert BreakdownIndices(log) == BreakdownIndices(front) + last by {
        forall i: nat | i < n ensures log[i] == front[i] {}
      }
      assert n !in BreakdownIndices(front);
    }
  }

  lemma {:induction false} SumBounds(xs: seq<real>, lo: real, hi: real)
    requires forall i :: 0 <= i < |xs| ==> lo <= xs[i] <= hi
    ensures (|xs| as real) * lo <= Sum(xs) <= (|xs| as real) * hi
    decreases |xs|
  {
    if xs != [] {
      var front := xs[..|xs| - 1];
      assert forall i :: 0 <= i < |front| ==> front[i] == xs[i];
      SumBounds(front, lo, hi);
      var m, x := |front| as real, xs[|xs| - 1];
      assert Sum(xs) == Sum(front) + x && lo <= x <= hi;
      assert |xs| as real == m + 1.0;
      assert (m + 1.0) * lo == m * lo + lo && (m + 1.0) * hi == m * hi + hi;
      assert m * lo + lo <= Sum(front) + x <= m * hi + hi;
    }
  }

  /** A mean lies between any lower and upper bound of its values. */
  lemma MeanWithinBounds(xs: seq<real>, lo: real, hi: real)
    requires xs != []
    requires forall i :: 0 <= i < |xs| ==> lo <= xs[i] <= hi
    ensures Mean(xs).Some? && lo <= Mean(xs).value <= hi
  {
    SumBounds(xs, lo, hi);
    var n := |xs| as real;
    assert Sum(xs) / n >= lo by {
      assert Sum(xs) >= n * lo;
    }
    assert Sum(xs) / n <= hi by {
      assert Sum(xs) <= n * hi;
    }
  }

  /** The page shown for `vehicle`: the latest file of its folder, if any. */
  ghost function Show(store: Store, vehicle: string): (view: View)
    ensures view == NoLogsFound <==> vehicle !in store
    ensures view == NoLogFiles <==> vehicle in store && store[vehicle] == map[]
    ensures view.Loaded? ==>
              LatestFile(store, vehicle) == Some(view.file) &&
              view.summary == Summarize(store[vehicle][view.file])
  {
    if vehicle !in store then NoLogsFound
    else match LatestFile(store, vehicle)
      case None => NoLogFiles
      case Some(name) => Loaded(name, Summarize(store[vehicle][name]))
  }

  /** Saving a session and then opening the Dashboard reports that session's
      own record count, breakdown count and means, provided no file of the
      folder was saved later. */
  lemma SavedSessionIsReported(store: Store, vehicle: string, at: DateTime, buffer: Log)
    requires Valid(at) && buffer != []
    requires forall f :: f in FolderOf(store, vehicle) ==>
               exists t :: Valid(t) && f == LogFileName(t) && !Earlier(at, t)
    ensures Show(Persist(store, vehicle, at, buffer), vehicle) == Loaded(LogFileName(at), Summarize(buffer))
  {
    MostRecentSessionIsLatest(store, vehicle, at, buffer);
  }
}
