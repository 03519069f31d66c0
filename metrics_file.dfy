/**
 * The bootmetrics file (`./logs/bootmetrics.txt`), modelled as the sequence
 * of the strings the program's `file.write` calls wrote, one element per call.
 * Each written string ends in a newline; a metric that already ends in one
 * (as lines read over SSH do) makes its element two file lines. The date a
 * stamp or header carries is the rendering of a clock reading, passed in as
 * an opaque string.
 */
module MetricsLog {
  import opened Wrappers

  const StampPrefix: string := "------- "
  const HeaderPrefix: string := "======== Test Started "
  const HeaderSuffix: string := " ========\n"

  /** The line `timestamp_metrics` writes for the clock rendering `when`. */
  function StampLine(when: string): (line: string)
    ensures |line| > |StampPrefix| && line[..|StampPrefix|] == StampPrefix && line[|line| - 1] == '\n'
  {
    StampPrefix + when + "\n"
  }

  /** The header written when the file is truncated at the start of a run. */
  function HeaderLine(when: string): (line: string)
    ensures |line| > |HeaderPrefix| && line[..|HeaderPrefix|] == HeaderPrefix && line[|line| - 1] == '\n'
    ensures |line| >= |HeaderPrefix| + |HeaderSuffix| && line[|line| - |HeaderSuffix|..] == HeaderSuffix
  {
    HeaderPrefix + when + HeaderSuffix
  }

  /** A header line is never taken for an iteration's timestamp line, whatever the two dates. */
  lemma HeaderIsNotStamp(start: string, when: string)
    ensures HeaderLine(start) != StampLine(when)
  {
    assert HeaderLine(start)[0] == '=' && StampLine(when)[0] == '-';
  }

  /** The lines `store_metrics` writes for a metric result: each metric followed by a newline, in order. */
  function MetricLines(metrics: seq<string>): (r: seq<string>)
    ensures |r| == |metrics|
  {
    if metrics == [] then []
    else MetricLines(metrics[..|metrics| - 1]) + [metrics[|metrics| - 1] + "\n"]
  }

  /** Line `i` written for a result is its metric `i`, newline-terminated: nothing is dropped, reordered or altered. */
  lemma {:induction false} MetricLineAt(metrics: seq<string>, i: nat)
    requires i < |metrics|
    ensures MetricLines(metrics)[i] == metrics[i] + "\n"
  {
    if i < |metrics| - 1 {
      var init := metrics[..|metrics| - 1];
      MetricLineAt(init, i);
      assert MetricLines(metrics)[i] == MetricLines(init)[i];
    }
  }

  /**
   * What `store_metrics` adds for a collected result: nothing for an absent
   * result (a failed connection) or an empty one, the metric lines otherwise.
   */
  function Entries(metrics: Option<seq<string>>): (r: seq<string>)
    ensures metrics.None? ==> r == []
    ensures metrics.Some? ==> |r| == |metrics.value|
  {
    match metrics
    case None => []
    case Some(ms) => MetricLines(ms)
  }

  /** Entry `i` of a collected result is its metric `i`, newline-terminated. */
  lemma EntryAt(metrics: Option<seq<string>>, i: nat)
    requires metrics.Some? && i < |metrics.value|
    ensures Entries(metrics)[i] == metrics.value[i] + "\n"
  {
    MetricLineAt(metrics.value, i);
  }

  /** Nothing is written exactly when the result is absent or empty (Python's `not metrics`). */
  lemma EntriesEmptyIff(metrics: Option<seq<string>>)
    ensures Entries(metrics) == [] <==> (metrics.None? || metrics.value == [])
  {
    if metrics.Some? && metrics.value != [] {
      assert |Entries(metrics)| == |metrics.value|;
    }
  }

  /** Storing two results one after the other writes the same lines as storing them together. */
  lemma {:induction false} MetricLinesAppend(a: seq<string>, b: seq<string>)
    ensures MetricLines(a + b) == MetricLines(a) + MetricLines(b)
  {
    var l, r := MetricLines(a + b), MetricLines(a) + MetricLines(b);
    assert |l| == |r|;
    forall i | 0 <= i < |l|
      ensures l[i] == r[i]
    {
      MetricLineAt(a + b, i);
      if i < |a| {
        assert (a + b)[i] == a[i];
        MetricLineAt(a, i);
      } else {
        assert (a + b)[i] == b[i - |a|];
        MetricLineAt(b, i - |a|);
      }
    }
  }

  /** The bootmetrics file: its lines, in the order written. */
  class MetricsFile {
    var lines: seq<string>

    /** A file that already holds `existing`, perhaps left over from an earlier run. */
    constructor (existing: seq<string>)
      ensures lines == existing
    {
      lines := existing;
    }

    /** Opening the file with "w" and writing the run header: whatever it held is gone. */
    method Restart(when: string)
      modifies this
      ensures lines == [HeaderLine(when)]
    {
      lines := [HeaderLine(when)];
    }

    /** `timestamp_metrics`: appends one timestamp line. */
    method TimestampMetrics(when: string)
      modifies this
      ensures lines == old(lines) + [StampLine(when)]
    {
      lines := lines + [StampLine(when)];
    }

    /** `store_metrics`: appends the result's lines, and nothing for an absent or empty result. */
    method StoreMetrics(metrics: Option<seq<string>>)
      modifies this
      ensures lines == old(lines) + Entries(metrics)
    {
      if metrics.None? || metrics.value == [] {
        return;
      }
      var ms := metrics.value;
      for k := 0 to |ms|
        invariant lines == old(lines) + MetricLines(ms[..k])
      {
        assert ms[..k + 1][..k] == ms[..k];
        lines := lines + [ms[k] + "\n"];
      }
      assert ms[..|ms|] == ms;
    }
  }
}
