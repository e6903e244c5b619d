/** The merge engine (MergeWorker.run): read every source in order, append all
    of its pages to one in-memory writer, report progress after each source,
    and only then create the destination's directory and write the output.
    Any exception ends the run with a single failure message. */
module Merge {
  import opened Types

  /** The operations the merge performs on the outside world, each of which
      may raise: parsing a source, `mkdir(parents=True, exist_ok=True)` of the
      destination's parent, `open(output, "wb")`, and `writer.write`. */
  datatype MergeEnv = MergeEnv(
    read: Path -> ReadResult,
    makeParentDirs: Path -> IoResult,
    open: Path -> IoResult,
    write: (Path, seq<Page>) -> IoResult)

  /** Everything the merge does that can be observed, in order: the sources it
      reads, the `progress` values it emits, the filesystem actions on the
      destination, and the one terminal signal (`finished_ok` or `failed`). */
  datatype MergeEvent =
    | ReadSource(source: Path)
    | Progress(percent: int)
    | MakeParentDirs(output: Path)
    | OpenOutput(output: Path)
    | WriteOutput(output: Path, pages: seq<Page>)
    | FinishedOk(output: Path)
    | Failed(message: string)
  {
    predicate IsTerminal() { FinishedOk? || Failed? }
    predicate TouchesOutput() { MakeParentDirs? || OpenOutput? || WriteOutput? }
  }

  /** The progress value after `done` of `total` sources: `int(done / max(1,
      total) * 100)`, taken as the exact floor of 100·done/max(1, total). */
  function Percent(done: nat, total: nat): int
  {
    done * 100 / Max(1, total)
  }

  /** Every report of a run lies within 0..100, and the report after the last
      source is exactly 100. */
  lemma PercentRange(done: nat, total: nat)
    requires done <= total
    ensures 0 <= Percent(done, total) <= 100
    ensures 0 < total && done == total ==> Percent(done, total) == 100
  {
    var m := Max(1, total);
    DivBelow(done * 100, m * 100, m);
    MulDiv(100, m);
  }

  lemma MulDiv(a: nat, m: nat)
    requires m > 0
    ensures a * m / m == a
  {
    var q := a * m / m;
    assert q * m <= a * m < (q + 1) * m;
    assert (a + 1) * m == a * m + m;
    MulCancel(q, a + 1, m);
    MulCancel(a, q + 1, m);
  }

  lemma MulCancel(a: int, b: int, m: int)
    requires m > 0 && a * m < b * m
    ensures a < b
  {
    assert (b - a) * m == b * m - a * m;
  }

  /** Floor division is monotone in the dividend. */
  lemma DivBelow(x: nat, y: nat, m: nat)
    requires m > 0 && x <= y
    ensures x / m <= y / m
  {
    var q, r := x / m, y / m;
    assert q * m <= x;
    assert y < (r + 1) * m;
    MulCancel(q, r + 1, m);
  }

  /** Progress never goes backwards. */
  lemma PercentMonotone(a: nat, b: nat, total: nat)
    requires a <= b
    ensures Percent(a, total) <= Percent(b, total)
  {
    DivBelow(a * 100, b * 100, Max(1, total));
  }

  /** The index of the first source that cannot be read, if any. */
  function FirstFailure(sources: seq<Path>, read: Path -> ReadResult): (r: Option<nat>)
    ensures r.Some? ==> r.value < |sources| && read(sources[r.value]).ReadError?
    ensures r.Some? ==> AllReadable(sources, r.value, read)
    ensures r.None? ==> AllReadable(sources, |sources|, read)
  {
    if sources == [] then None
    else if read(sources[0]).ReadError? then Some(0)
    else
      match FirstFailure(sources[1..], read)
      case None => None
      case Some(k) => Some(k + 1)
  }

  predicate AllReadable(sources: seq<Path>, k: nat, read: Path -> ReadResult)
    requires k <= |sources|
  {
    forall j :: 0 <= j < k ==> read(sources[j]).Pages?
  }

  /** The writer's pages after the first `k` sources: their pages, source by
      source, in input order. */
  function PagesOf(sources: seq<Path>, k: nat, read: Path -> ReadResult): seq<Page>
    requires k <= |sources| && AllReadable(sources, k, read)
  {
    if k == 0 then [] else PagesOf(sources, k - 1, read) + read(sources[k - 1]).pages
  }

  /** The events of the first `k` loop iterations when all of them succeed. */
  function ReadEvents(sources: seq<Path>, k: nat, total: nat): seq<MergeEvent>
    requires k <= |sources|
  {
    if k == 0 then []
    else ReadEvents(sources, k - 1, total) + [ReadSource(sources[k - 1]), Progress(Percent(k, total))]
  }

  /** The events after the loop: make the directory, open, write, report. */
  function WriteEvents(output: Path, pages: seq<Page>, env: MergeEnv): seq<MergeEvent>
  {
    [MakeParentDirs(output)] +
    match env.makeParentDirs(output)
    case IoError(m) => [Failed(m)]
    case IoOk =>
      [OpenOutput(output)] +
      match env.open(output)
      case IoError(m) => [Failed(m)]
      case IoOk =>
        [WriteOutput(output, pages)] +
        match env.write(output, pages)
        case IoError(m) => [Failed(m)]
        case IoOk => [FinishedOk(output)]
  }

  /** The whole run: the loop stops at the first unreadable source and
      reports its error; otherwise the output is written after the loop. */
  function MergeTrace(sources: seq<Path>, output: Path, env: MergeEnv): seq<MergeEvent>
  {
    var n := |sources|;
    match FirstFailure(sources, env.read)
    case Some(i) => ReadEvents(sources, i, n) + [ReadSource(sources[i]), Failed(env.read(sources[i]).msg)]
    case None => ReadEvents(sources, n, n) + WriteEvents(output, PagesOf(sources, n, env.read), env)
  }

  /** MergeWorker.run. */
  method RunMerge(sources: seq<Path>, output: Path, env: MergeEnv) returns (events: seq<MergeEvent>)
    ensures events == MergeTrace(sources, output, env)
  {
    var written: seq<Page> := [];
    var total := |sources|;
    events := [];
    var i := 0;
    while i < total
      invariant 0 <= i <= total
      invariant AllReadable(sources, i, env.read)
      invariant written == PagesOf(sources, i, env.read)
      invariant events == ReadEvents(sources, i, total)
    {
      var p := sources[i];
      events := events + [ReadSource(p)];
      match env.read(p)
      case ReadError(m) =>
        events := events + [Failed(m)];
        return;
      case Pages(pages) =>
        written := written + pages;
        i := i + 1;
        events := events + [Progress(Percent(i, total))];
    }
    events := events + [MakeParentDirs(output)];
    match env.makeParentDirs(output)
    case IoError(m) =>
      events := events + [Failed(m)];
      return;
    case IoOk =>
    events := events + [OpenOutput(output)];
    match env.open(output)
    case IoError(m) =>
      events := events + [Failed(m)];
      return;
    case IoOk =>
    events := events + [WriteOutput(output, written)];
    match env.write(output, written)
    case IoError(m) =>
      events := events + [Failed(m)];
      return;
    case IoOk =>
    events := events + [FinishedOk(output)];
  }

  /** The sources read, in the order the trace reads them. */
  function ReadsOf(t: seq<MergeEvent>): seq<Path>
  {
    if t == [] then []
    else ReadsOf(t[..|t| - 1]) + (if t[|t| - 1].ReadSource? then [t[|t| - 1].source] else [])
  }

  /** The values carried by the `progress` signal, in emission order. */
  function ProgressOf(t: seq<MergeEvent>): seq<int>
  {
    if t == [] then []
    else ProgressOf(t[..|t| - 1]) + (if t[|t| - 1].Progress? then [t[|t| - 1].percent] else [])
  }

  lemma {:induction false} FiltersAppend(a: seq<MergeEvent>, b: seq<MergeEvent>)
    ensures ReadsOf(a + b) == ReadsOf(a) + ReadsOf(b)
    ensures ProgressOf(a + b) == ProgressOf(a) + ProgressOf(b)
    decreases |b|
  {
    if b != [] {
      var b' := b[..|b| - 1];
      assert (a + b)[..|a + b| - 1] == a + b';
      FiltersAppend(a, b');
    } else {
      assert a + b == a;
    }
  }

  /** The progress values after each of the first `k` sources. */
  function Percents(k: nat, total: nat): (ps: seq<int>)
    ensures |ps| == k
  {
    if k == 0 then [] else Percents(k - 1, total) + [Percent(k, total)]
  }

  /** None of the loop's events is terminal or touches the output. */
  lemma {:induction false} ReadEventsKinds(sources: seq<Path>, k: nat, total: nat)
    requires k <= |sources|
    ensures |ReadEvents(sources, k, total)| == 2 * k
    ensures forall e :: e in ReadEvents(sources, k, total) ==> e.ReadSource? || e.Progress?
  {
    if k > 0 {
      ReadEventsKinds(sources, k - 1, total);
    }
  }

  lemma StepFilters(p: Path, v: int)
    ensures ReadsOf([ReadSource(p), Progress(v)]) == [p]
    ensures ProgressOf([ReadSource(p), Progress(v)]) == [v]
  {
    var one := [ReadSource(p)];
    assert one[..0] == [];
    assert ReadsOf(one) == [p] && ProgressOf(one) == [];
    var step := [ReadSource(p), Progress(v)];
    assert step[..1] == one;
  }

  /** The loop reads the first `k` sources in input order and reports
      Percent(j, total) after the j-th. */
  lemma {:induction false} ReadEventsFilters(sources: seq<Path>, k: nat, total: nat)
    requires k <= |sources|
    ensures ReadsOf(ReadEvents(sources, k, total)) == sources[..k]
    ensures ProgressOf(ReadEvents(sources, k, total)) == Percents(k, total)
  {
    if k > 0 {
      ReadEventsFilters(sources, k - 1, total);
      FiltersAppend(ReadEvents(sources, k - 1, total), [ReadSource(sources[k - 1]), Progress(Percent(k, total))]);
      StepFilters(sources[k - 1], Percent(k, total));
      assert sources[..k] == sources[..k - 1] + [sources[k - 1]];
    }
  }

  /** A stretch of events with no read and no progress report contributes
      nothing to either filter. */
  lemma {:induction false} NoReadsNoProgress(t: seq<MergeEvent>)
    requires forall e :: e in t ==> !e.ReadSource? && !e.Progress?
    ensures ReadsOf(t) == [] && ProgressOf(t) == []
    decreases |t|
  {
    if t != [] {
      assert t[|t| - 1] in t;
      NoReadsNoProgress(t[..|t| - 1]);
    }
  }

  /** The events after the loop: the directory step always comes first, every
      event but the last touches the output, and exactly one terminal signal
      ends them. */
  lemma WriteEventsShape(output: Path, pages: seq<Page>, env: MergeEnv)
    ensures var w := WriteEvents(output, pages, env);
      && 2 <= |w| <= 4
      && w[0] == MakeParentDirs(output)
      && w[|w| - 1].IsTerminal()
      && (forall j :: 0 <= j < |w| - 1 ==> w[j].TouchesOutput())
      && ReadsOf(w) == [] && ProgressOf(w) == []
      && (forall j :: 0 <= j < |w| && w[j].WriteOutput? ==> w[j] == WriteOutput(output, pages))
  {
    var w := WriteEvents(output, pages, env);
    var d, o := MakeParentDirs(output), OpenOutput(output);
    var wr := WriteOutput(output, pages);
    if env.makeParentDirs(output).IoError? {
      assert w == [d, Failed(env.makeParentDirs(output).msg)];
    } else if env.open(output).IoError? {
      assert w == [d, o, Failed(env.open(output).msg)];
    } else if env.write(output, pages).IoError? {
      assert w == [d, o, wr, Failed(env.write(output, pages).msg)];
    } else {
      assert w == [d, o, wr, FinishedOk(output)];
    }
    NoReadsNoProgress(w);
  }

  /** The order of the steps after the loop: the output is opened only when
      the directory step succeeded, and then exactly once, as the second
      event; it is written only when the open succeeded, and then exactly
      once, as the third event, with all pages; success needs all three. */
  lemma WriteEventsSteps(output: Path, pages: seq<Page>, env: MergeEnv)
    ensures var w := WriteEvents(output, pages, env);
      && 2 <= |w| <= 4
      && w[0] == MakeParentDirs(output)
      && (|w| >= 3 <==> env.makeParentDirs(output).IoOk?)
      && (|w| == 4 <==> env.makeParentDirs(output).IoOk? && env.open(output).IoOk?)
      && (forall j :: 0 <= j < |w| && w[j].OpenOutput? ==> j == 1)
      && (forall j :: 0 <= j < |w| && w[j].WriteOutput? ==> j == 2)
      && (|w| >= 3 ==> w[1] == OpenOutput(output))
      && (|w| == 4 ==> w[2] == WriteOutput(output, pages))
      && (w[|w| - 1].FinishedOk? ==> |w| == 4)
  {
    var w := WriteEvents(output, pages, env);
    var d, o := MakeParentDirs(output), OpenOutput(output);
    var wr := WriteOutput(output, pages);
    if env.makeParentDirs(output).IoError? {
      assert w == [d, Failed(env.makeParentDirs(output).msg)];
    } else if env.open(output).IoError? {
      assert w == [d, o, Failed(env.open(output).msg)];
    } else if env.write(output, pages).IoError? {
      assert w == [d, o, wr, Failed(env.write(output, pages).msg)];
    } else {
      assert w == [d, o, wr, FinishedOk(output)];
    }
  }

  /** Progress reports stay within 0..100, never go backwards, and reach 100
      once every source has been read. */
  lemma {:induction false} PercentsNondecreasing(k: nat, total: nat)
    requires k <= total
    ensures forall i, j :: 0 <= i <= j < k ==> 0 <= Percents(k, total)[i] <= Percents(k, total)[j] <= 100
    ensures 0 < k == total ==> Percents(k, total)[k - 1] == 100
  {
    if k > 0 {
      PercentsNondecreasing(k - 1, total);
      var ps := Percents(k, total);
      assert ps[..k - 1] == Percents(k - 1, total);
      forall i | 0 <= i < k - 1
        ensures ps[i] <= ps[k - 1]
      {
        PercentsAt(k - 1, total, i);
        PercentMonotone(i + 1, k, total);
        PercentRange(i + 1, total);
      }
      PercentRange(k, total);
    }
  }

  lemma {:induction false} PercentsAt(k: nat, total: nat, i: nat)
    requires i < k
    ensures Percents(k, total)[i] == Percent(i + 1, total)
  {
    if i < k - 1 {
      PercentsAt(k - 1, total, i);
    }
  }

  /** The writer holds the sources' pages source by source: the pages of the
      first `j` sources are a prefix of those of the first `k`. */
  lemma {:induction false} PagesOfPrefix(sources: seq<Path>, j: nat, k: nat, read: Path -> ReadResult)
    requires j <= k <= |sources| && AllReadable(sources, k, read)
    ensures PagesOf(sources, j, read) <= PagesOf(sources, k, read)
  {
    if j < k {
      PagesOfPrefix(sources, j, k - 1, read);
    }
  }

  /** ... and the pages of source `j` follow them immediately, unchanged. */
  lemma PagesOfSegment(sources: seq<Path>, j: nat, k: nat, read: Path -> ReadResult)
    requires j < k <= |sources| && AllReadable(sources, k, read)
    ensures |PagesOf(sources, j, read)| + |read(sources[j]).pages| <= |PagesOf(sources, k, read)|
    ensures PagesOf(sources, k, read)[|PagesOf(sources, j, read)|..|PagesOf(sources, j + 1, read)|]
            == read(sources[j]).pages
  {
    PagesOfPrefix(sources, j + 1, k, read);
    SliceOfPrefix(PagesOf(sources, j, read), read(sources[j]).pages, PagesOf(sources, k, read));
  }

  lemma SliceOfPrefix<T>(a: seq<T>, b: seq<T>, c: seq<T>)
    requires a + b <= c
    ensures |a| + |b| <= |c| && c[|a|..|a| + |b|] == b
  {
    assert c[..|a + b|] == a + b;
  }

  /** The sources the run reads: all of them in input order, or those up to
      and including the first one that cannot be read, after which nothing
      more is read. */
  lemma MergeReadsInOrder(sources: seq<Path>, output: Path, env: MergeEnv)
    ensures ReadsOf(MergeTrace(sources, output, env)) ==
      match FirstFailure(sources, env.read)
      case Some(i) => sources[..i + 1]
      case None => sources
  {
    var n := |sources|;
    match FirstFailure(sources, env.read)
    case Some(i) =>
      ReadEventsFilters(sources, i, n);
      FiltersAppend(ReadEvents(sources, i, n), [ReadSource(sources[i]), Failed(env.read(sources[i]).msg)]);
      FailedStepFilters(sources[i], env.read(sources[i]).msg);
      assert sources[..i + 1] == sources[..i] + [sources[i]];
    case None =>
      ReadEventsFilters(sources, n, n);
      WriteEventsShape(output, PagesOf(sources, n, env.read), env);
      FiltersAppend(ReadEvents(sources, n, n), WriteEvents(output, PagesOf(sources, n, env.read), env));
      assert sources[..n] == sources;
  }

  lemma FailedStepFilters(p: Path, m: string)
    ensures ReadsOf([ReadSource(p), Failed(m)]) == [p]
    ensures ProgressOf([ReadSource(p), Failed(m)]) == []
  {
    var one := [ReadSource(p)];
    assert one[..0] == [];
    assert ReadsOf(one) == [p] && ProgressOf(one) == [];
    var step := [ReadSource(p), Failed(m)];
    assert step[..1] == one;
  }

  /** The `progress` values: Percent(j, n) after the j-th source, for every
      source read successfully, so they never decrease, stay within 0..100
      and end at 100 when every source was read. */
  lemma MergeProgress(sources: seq<Path>, output: Path, env: MergeEnv)
    ensures var n := |sources|;
      var ps := ProgressOf(MergeTrace(sources, output, env));
      var f := FirstFailure(sources, env.read);
      && ps == Percents(if f.Some? then f.value else n, n)
      && (forall i, j :: 0 <= i <= j < |ps| ==> 0 <= ps[i] <= ps[j] <= 100)
      && (f.None? && n > 0 ==> ps[n - 1] == 100)
  {
    var n := |sources|;
    match FirstFailure(sources, env.read)
    case Some(i) =>
      ReadEventsFilters(sources, i, n);
      FiltersAppend(ReadEvents(sources, i, n), [ReadSource(sources[i]), Failed(env.read(sources[i]).msg)]);
      FailedStepFilters(sources[i], env.read(sources[i]).msg);
      PercentsNondecreasing(i, n);
    case None =>
      ReadEventsFilters(sources, n, n);
      WriteEventsShape(output, PagesOf(sources, n, env.read), env);
      FiltersAppend(ReadEvents(sources, n, n), WriteEvents(output, PagesOf(sources, n, env.read), env));
      PercentsNondecreasing(n, n);
  }

  /** Every run ends with exactly one of `finished_ok` and `failed`, as its
      last event. */
  lemma MergeSignalsOnce(sources: seq<Path>, output: Path, env: MergeEnv)
    ensures var t := MergeTrace(sources, output, env);
      && |t| >= 2
      && t[|t| - 1].IsTerminal()
      && forall j :: 0 <= j < |t| - 1 ==> !t[j].IsTerminal()
  {
    var n := |sources|;
    match FirstFailure(sources, env.read)
    case Some(i) =>
      ReadEventsKinds(sources, i, n);
      OneSignalAtEnd(ReadEvents(sources, i, n), [ReadSource(sources[i]), Failed(env.read(sources[i]).msg)]);
    case None =>
      ReadEventsKinds(sources, n, n);
      WriteEventsShape(output, PagesOf(sources, n, env.read), env);
      OneSignalAtEnd(ReadEvents(sources, n, n), WriteEvents(output, PagesOf(sources, n, env.read), env));
  }

  lemma OneSignalAtEnd(r: seq<MergeEvent>, w: seq<MergeEvent>)
    requires forall e :: e in r ==> e.ReadSource? || e.Progress?
    requires |w| >= 2 && w[|w| - 1].IsTerminal()
    requires forall j :: 0 <= j < |w| - 1 ==> !w[j].IsTerminal()
    ensures |r + w| >= 2 && (r + w)[|r + w| - 1].IsTerminal()
    ensures forall j :: 0 <= j < |r + w| - 1 ==> !(r + w)[j].IsTerminal()
  {
    var t := r + w;
    forall j | 0 <= j < |t| - 1 ensures !t[j].IsTerminal() {
      if j < |r| { assert t[j] == r[j] && r[j] in r; }
      else { assert t[j] == w[j - |r|]; }
    }
  }

  /** The destination is touched only after every source has been read: a
      source that cannot be read aborts the run with that source's error and
      leaves the output alone, and the one write carries all pages, source by
      source. */
  lemma MergeOutputAfterReads(sources: seq<Path>, output: Path, env: MergeEnv)
    ensures var t := MergeTrace(sources, output, env);
      var n := |sources|;
      && (forall j :: 0 <= j < |t| && t[j].TouchesOutput() ==>
            AllReadable(sources, n, env.read) && j >= 2 * n)
      && (forall j :: 0 <= j < |t| && t[j].WriteOutput? ==>
            AllReadable(sources, n, env.read) && t[j] == WriteOutput(output, PagesOf(sources, n, env.read)))
      && (FirstFailure(sources, env.read).Some? ==>
            t[|t| - 1] == Failed(env.read(sources[FirstFailure(sources, env.read).value]).msg))
  {
    var n := |sources|;
    var t := MergeTrace(sources, output, env);
    match FirstFailure(sources, env.read)
    case Some(i) =>
      ReadEventsKinds(sources, i, n);
      var r := ReadEvents(sources, i, n);
      forall j | 0 <= j < |t| ensures !t[j].TouchesOutput() {
        if j < |r| { assert t[j] == r[j] && r[j] in r; }
      }
    case None =>
      ReadEventsKinds(sources, n, n);
      WriteEventsShape(output, PagesOf(sources, n, env.read), env);
      var r := ReadEvents(sources, n, n);
      forall j | 0 <= j < |r| ensures !t[j].TouchesOutput() {
        assert t[j] == r[j] && r[j] in r;
      }
  }

  /** The destination is opened at most once, right after the directory step,
      and written at most once, right after it was opened; a successful run
      does both exactly once. */
  lemma MergeOutputOnce(sources: seq<Path>, output: Path, env: MergeEnv)
    ensures var t := MergeTrace(sources, output, env);
      var n := |sources|;
      && (forall j :: 0 <= j < |t| && t[j].OpenOutput? ==>
            j == 2 * n + 1 && t[j - 1] == MakeParentDirs(output))
      && (forall j :: 0 <= j < |t| && t[j].WriteOutput? ==>
            j == 2 * n + 2 && t[j - 1] == OpenOutput(output))
      && (t[|t| - 1] == FinishedOk(output) ==>
            |t| == 2 * n + 4 && t[2 * n + 1].OpenOutput? && t[2 * n + 2].WriteOutput?)
  {
    var n := |sources|;
    var t := MergeTrace(sources, output, env);
    match FirstFailure(sources, env.read)
    case Some(i) =>
      ReadEventsKinds(sources, i, n);
      var r := ReadEvents(sources, i, n);
      forall j | 0 <= j < |t| ensures !t[j].TouchesOutput() {
        if j < |r| { assert t[j] == r[j] && r[j] in r; }
      }
    case None =>
      ReadEventsKinds(sources, n, n);
      var w := WriteEvents(output, PagesOf(sources, n, env.read), env);
      WriteEventsSteps(output, PagesOf(sources, n, env.read), env);
      var r := ReadEvents(sources, n, n);
      OutputStepsAfter(r, w, output);
      assert t == r + w;
  }

  /** Lifts the positions of the open and write steps from the events after
      the loop to the whole run, past events that only read and report. */
  lemma OutputStepsAfter(r: seq<MergeEvent>, w: seq<MergeEvent>, output: Path)
    requires forall e :: e in r ==> e.ReadSource? || e.Progress?
    requires |w| >= 2 && w[0] == MakeParentDirs(output)
    requires forall j :: 0 <= j < |w| && w[j].OpenOutput? ==> j == 1
    requires forall j :: 0 <= j < |w| && w[j].WriteOutput? ==> j == 2
    requires |w| >= 3 ==> w[1] == OpenOutput(output)
    ensures forall j :: 0 <= j < |r + w| && (r + w)[j].OpenOutput? ==>
              j == |r| + 1 && (r + w)[j - 1] == MakeParentDirs(output)
    ensures forall j :: 0 <= j < |r + w| && (r + w)[j].WriteOutput? ==>
              j == |r| + 2 && (r + w)[j - 1] == OpenOutput(output)
  {
    var t := r + w;
    forall j | 0 <= j < |r| ensures !t[j].OpenOutput? && !t[j].WriteOutput? {
      assert t[j] == r[j] && r[j] in r;
    }
  }

  /** The run reports `finished_ok(output)` exactly when every source can be
      read and the directory, open and write steps all succeed. */
  lemma MergeSucceedsIff(sources: seq<Path>, output: Path, env: MergeEnv)
    ensures var t := MergeTrace(sources, output, env);
      t[|t| - 1] == FinishedOk(output) <==>
        && AllReadable(sources, |sources|, env.read)
        && env.makeParentDirs(output).IoOk?
        && env.open(output).IoOk?
        && env.write(output, PagesOf(sources, |sources|, env.read)).IoOk?
  {
    MergeSignalsOnce(sources, output, env);
    var n := |sources|;
    match FirstFailure(sources, env.read)
    case Some(i) =>
    case None =>
      WriteEventsShape(output, PagesOf(sources, n, env.read), env);
  }

  /** Three sources of 3, 2 and 4 pages merged in that order: one write of
      all nine pages, source by source, progress 33, 66, 100, then success. */
  lemma ThreeSourceMerge(a: Path, b: Path, c: Path, pa: seq<Page>, pb: seq<Page>, pc: seq<Page>,
                         output: Path, env: MergeEnv)
    requires env.read(a) == Pages(pa) && env.read(b) == Pages(pb) && env.read(c) == Pages(pc)
    requires |pa| == 3 && |pb| == 2 && |pc| == 4
    requires env.makeParentDirs(output).IoOk? && env.open(output).IoOk?
    requires env.write(output, pa + pb + pc).IoOk?
    ensures var t := MergeTrace([a, b, c], output, env);
      && ProgressOf(t) == [33, 66, 100]
      && WriteOutput(output, pa + pb + pc) in t
      && |pa + pb + pc| == 9
      && t[|t| - 1] == FinishedOk(output)
  {
    var sources := [a, b, c];
    assert FirstFailure(sources, env.read) == None by {
      assert sources[1..] == [b, c] && sources[1..][1..] == [c] && [c][1..] == [];
    }
    assert PagesOf(sources, 1, env.read) == pa by {
      assert PagesOf(sources, 0, env.read) == [];
    }
    assert PagesOf(sources, 2, env.read) == pa + pb;
    assert PagesOf(sources, 3, env.read) == pa + pb + pc;
    MergeProgress(sources, output, env);
    MergeSucceedsIff(sources, output, env);
    assert Percents(3, 3) == [33, 66, 100];
    var t := MergeTrace(sources, output, env);
    var r := ReadEvents(sources, 3, 3);
    ReadEventsKinds(sources, 3, 3);
    assert t[|r| + 2] == WriteOutput(output, pa + pb + pc);
  }
}
