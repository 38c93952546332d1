/** The two programs' `checkStats` variables, updated in place as the sources do. */
module StatisticsObject {
  import opened Sites
  import opened Statistics

  class WorkerStats {
    var checkStats: Stats

    constructor ()
      ensures checkStats == map[]
    {
      checkStats := map[];
    }

    /** One check has ended with this status, HTTP code, error code and round-trip time. */
    method Add(status: Status, code: int, errorCode: int, rtt: int)
      modifies this
      ensures checkStats == Record(old(checkStats), Result(status, code, errorCode, rtt))
    {
      var millis := (rtt + 500) / 1000;
      if status in checkStats {
        var b := checkStats[status];
        b := b.(codes := b.codes[code := Count(b.codes, code) + 1]);
        if errorCode != 0 {
          b := b.(errors := b.errors[errorCode := Count(b.errors, errorCode) + 1]);
        }
        b := b.(count := b.count + 1, sum := b.sum + millis);
        b := b.(max := Max(b.max, millis), min := Min(b.min, millis));
        checkStats := checkStats[status := b];
      } else {
        var b := Bucket(map[], map[], 1, millis, millis, millis);
        b := b.(codes := b.codes[code := 1]);
        if errorCode != 0 {
          b := b.(errors := b.errors[errorCode := 1]);
        }
        checkStats := checkStats[status := b];
      }
    }

    /** The timer's report: what was gathered since the last one. */
    method Report() returns (stats: Stats)
      modifies this
      ensures stats == old(checkStats) && checkStats == map[]
    {
      stats := checkStats;
      checkStats := map[];
    }
  }

  /** The loop that adds the counts of a report to the master's own. */
  method AddCounts(mine: map<int, nat>, theirs: map<int, nat>) returns (r: map<int, nat>)
    ensures r == MergeCounts(mine, theirs)
  {
    r := mine;
    MergeCountsFirst(mine, 0);
    assert theirs - theirs.Keys == map[];
    var keys := theirs.Keys;
    while keys != {}
      invariant keys <= theirs.Keys
      invariant r == MergeCounts(mine, theirs - keys)
      decreases |keys|
    {
      var k :| k in keys;
      CountOneMore(mine, theirs, keys, k);
      if k in r && r[k] != 0 {
        r := r[k := r[k] + theirs[k]];
      } else {
        r := r[k := theirs[k]];
      }
      keys := keys - {k};
    }
    assert theirs - {} == theirs;
  }

  /** Merging counts key by key. */
  lemma CountOneMore(a: map<int, nat>, b: map<int, nat>, left: set<int>, k: int)
    requires k in left && left <= b.Keys
    ensures
      var before := MergeCounts(a, b - left);
      MergeCounts(a, b - (left - {k})) == before[k := Count(before, k) + b[k]]
  {
    var before := MergeCounts(a, b - left);
    assert (b - (left - {k})).Keys == (b - left).Keys + {k};
    SameCounts(MergeCounts(a, b - (left - {k})), before[k := Count(before, k) + b[k]]);
  }

  /** The figures of one status of a report are added to the master's own. */
  method AddBucket(mine: Bucket, theirs: Bucket) returns (b: Bucket)
    ensures b == MergeBuckets(mine, theirs)
  {
    var codes := AddCounts(mine.codes, theirs.codes);
    var errors := AddCounts(mine.errors, theirs.errors);
    b := mine.(codes := codes, errors := errors, count := mine.count + theirs.count, sum := mine.sum + theirs.sum);
    b := b.(max := Max(b.max, theirs.max), min := Min(b.min, theirs.min));
  }

  class MasterStats {
    var checkStats: Stats

    constructor ()
      ensures checkStats == map[]
    {
      checkStats := map[];
    }

    /** A worker's report arrives. */
    method OnStats(report: Stats)
      modifies this
      ensures checkStats == Merge(old(checkStats), report)
    {
      var statuses := report.Keys;
      MergeNothing(checkStats, report);
      while statuses != {}
        invariant statuses <= report.Keys
        invariant checkStats == Merge(old(checkStats), report - statuses)
        decreases |statuses|
      {
        var status :| status in statuses;
        MergeOneMore(old(checkStats), report, statuses, status);
        statuses := statuses - {status};
        if status in checkStats {
          var b := AddBucket(checkStats[status], report[status]);
          checkStats := checkStats[status := b];
        } else {
          checkStats := checkStats[status := report[status]];
        }
      }
    }

    /** The figures are handed to the metrics service and dropped. */
    method Flush() returns (stats: Stats)
      modifies this
      ensures stats == old(checkStats) && checkStats == map[]
    {
      stats := checkStats;
      checkStats := map[];
    }
  }

  lemma MergeNothing(a: Stats, report: Stats)
    ensures Merge(a, report - report.Keys) == a && report - {} == report
  {
    assert report - report.Keys == map[];
  }

  /** Merging a report status by status. */
  lemma MergeOneMore(a: Stats, report: Stats, left: set<Status>, status: Status)
    requires status in left && left <= report.Keys
    ensures
      var before, after := Merge(a, report - left), Merge(a, report - (left - {status}));
      && (status in before <==> status in a)
      && after == before[status := if status in before then MergeBuckets(before[status], report[status])
                                   else report[status]]
  {
    var before, after := Merge(a, report - left), Merge(a, report - (left - {status}));
    assert (report - (left - {status})).Keys == (report - left).Keys + {status};
    assert after.Keys == before.Keys + {status};
  }
}
