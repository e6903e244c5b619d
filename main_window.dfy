/** The main window's file list and the pending-file pipeline that feeds the
    analysis workers: admission of new paths, the 500 ms debounce, the batch
    that hands one path at a time to a thumbnail/page-count worker pair, and
    the totals shown in the count label. Timer expiries and worker signals are
    explicit method calls; the workers themselves are in module Workers. */
module MainWindow {
  import opened Types
  import PathNames

  /** One row of the list: its path (UserRole) and, once the page-count worker
      has reported, its page count (UserRole + 1) and size in bytes (UserRole + 2). */
  datatype Item = Item(path: Path, pages: Option<nat>, fileSize: Option<nat>)

  /** The count label: "No files loaded", or the number of files, the total
      pages and the total size. */
  datatype CountLabel = NoFilesLoaded | Summary(files: nat, pages: nat, bytes: nat)

  /** `value or 0`: a missing value counts as 0. */
  function OrZero(o: Option<nat>): nat
  {
    match o
    case Some(v) => v
    case None => 0
  }

  function SumPages(items: seq<Item>): nat
  {
    if items == [] then 0 else SumPages(items[..|items| - 1]) + OrZero(items[|items| - 1].pages)
  }

  function SumSizes(items: seq<Item>): nat
  {
    if items == [] then 0 else SumSizes(items[..|items| - 1]) + OrZero(items[|items| - 1].fileSize)
  }

  /** What `_update_count` shows for a list. */
  function LabelFor(items: seq<Item>): CountLabel
  {
    if items == [] then NoFilesLoaded else Summary(|items|, SumPages(items), SumSizes(items))
  }

  /** The totals are additive over any split of the list. */
  lemma {:induction false} SumsAppend(a: seq<Item>, b: seq<Item>)
    ensures SumPages(a + b) == SumPages(a) + SumPages(b)
    ensures SumSizes(a + b) == SumSizes(a) + SumSizes(b)
    decreases |b|
  {
    if b == [] {
      assert a + b == a;
    } else {
      var b' := b[..|b| - 1];
      assert (a + b)[..|a + b| - 1] == a + b';
      SumsAppend(a, b');
    }
  }

  /** Replacing one row changes each total by exactly the difference between
      the new and the old value of that row. */
  lemma SumsAfterUpdate(items: seq<Item>, i: nat, x: Item)
    requires i < |items|
    ensures SumPages(items[i := x]) + OrZero(items[i].pages) == SumPages(items) + OrZero(x.pages)
    ensures SumSizes(items[i := x]) + OrZero(items[i].fileSize) == SumSizes(items) + OrZero(x.fileSize)
  {
    var pre, post := items[..i], items[i + 1..];
    assert items == pre + [items[i]] + post;
    assert items[i := x] == pre + [x] + post;
    SumsAppend(pre + [items[i]], post);
    SumsAppend(pre + [x], post);
    SumsAppend(pre, [items[i]]);
    SumsAppend(pre, [x]);
    assert [items[i]][..0] == [] && [x][..0] == [];
  }

  /** The rows `add_paths` creates: the path only, still being analysed. */
  function NewItems(paths: seq<Path>): (r: seq<Item>)
    ensures |r| == |paths|
    ensures forall i :: 0 <= i < |paths| ==> r[i] == Item(paths[i], None, None)
  {
    seq(|paths|, i requires 0 <= i < |paths| => Item(paths[i], None, None))
  }

  /** Rows still being analysed add nothing to the totals. */
  lemma {:induction false} NewItemsCountZero(paths: seq<Path>)
    ensures SumPages(NewItems(paths)) == 0 && SumSizes(NewItems(paths)) == 0
    decreases |paths|
  {
    if paths != [] {
      var p := paths[..|paths| - 1];
      assert NewItems(paths)[..|paths| - 1] == NewItems(p);
      NewItemsCountZero(p);
    }
  }

  /** The paths of the rows, in row order (the `existing` set of `add_paths`). */
  function PathsOf(items: seq<Item>): (r: seq<Path>)
    ensures |r| == |items|
    ensures forall i :: 0 <= i < |items| ==> r[i] == items[i].path
  {
    seq(|items|, i requires 0 <= i < |items| => items[i].path)
  }

  /** The test a path passes in `add_paths`: not already listed, present on
      disk, and passing the suffix test `isPdf` (the window uses
      `PathNames.HasPdfSuffix`, a ".pdf" suffix in any case). */
  predicate Admissible(p: Path, existing: seq<Path>, onDisk: Path -> bool, isPdf: Path -> bool)
  {
    p !in existing && onDisk(p) && isPdf(p)
  }

  /** The paths `add_paths` accepts, in input order. `existing` is taken once
      before the loop, so a path given twice in one call is accepted twice. */
  function Accepted(paths: seq<Path>, existing: seq<Path>, onDisk: Path -> bool, isPdf: Path -> bool): seq<Path>
  {
    if paths == [] then []
    else
      var last := paths[|paths| - 1];
      Accepted(paths[..|paths| - 1], existing, onDisk, isPdf) +
      (if Admissible(last, existing, onDisk, isPdf) then [last] else [])
  }

  /** Each admissible path is accepted as many times as it occurs in the
      input, and no other path is accepted. */
  lemma {:induction false} AcceptedCounts(paths: seq<Path>, existing: seq<Path>,
                                          onDisk: Path -> bool, isPdf: Path -> bool)
    ensures forall q :: multiset(Accepted(paths, existing, onDisk, isPdf))[q] ==
                        (if Admissible(q, existing, onDisk, isPdf) then multiset(paths)[q] else 0)
    decreases |paths|
  {
    if paths != [] {
      var init, last := paths[..|paths| - 1], paths[|paths| - 1];
      assert paths == init + [last];
      AcceptedCounts(init, existing, onDisk, isPdf);
    }
  }

  /** Accepting is a filter: it keeps the input order, so it distributes over
      concatenation. */
  lemma {:induction false} AcceptedAppend(a: seq<Path>, b: seq<Path>, existing: seq<Path>,
                                          onDisk: Path -> bool, isPdf: Path -> bool)
    ensures Accepted(a + b, existing, onDisk, isPdf) ==
            Accepted(a, existing, onDisk, isPdf) + Accepted(b, existing, onDisk, isPdf)
    decreases |b|
  {
    if b == [] {
      assert a + b == a;
    } else {
      var b' := b[..|b| - 1];
      assert (a + b)[..|a + b| - 1] == a + b';
      assert (a + b)[|a + b| - 1] == b[|b| - 1];
      AcceptedAppend(a, b', existing, onDisk, isPdf);
    }
  }

  /** The index of the first row showing `path`, as `_on_pages_ready` finds it. */
  function FirstMatch(items: seq<Item>, path: Path): (r: Option<nat>)
    ensures r.Some? ==> r.value < |items| && items[r.value].path == path
    ensures r.Some? ==> forall j :: 0 <= j < r.value ==> items[j].path != path
    ensures r.None? ==> forall j :: 0 <= j < |items| ==> items[j].path != path
  {
    if items == [] then None
    else if items[0].path == path then Some(0)
    else
      match FirstMatch(items[1..], path)
      case None => None
      case Some(k) => Some(k + 1)
  }

  /** SimpleMainWindow, restricted to the state of the list and the pipeline.
      `currentBatch` is None while the `_current_batch` attribute is absent.
      `started` records every path handed to a worker pair, in order; the ghost
      `batchStart` is its length when the current batch was installed. */
  class Window {
    var items: seq<Item>
    var countLabel: CountLabel
    var pending: seq<Path>
    /** The single-shot 500 ms debounce timer is running. */
    var batchTimerArmed: bool
    /** How many times the debounce was (re)started with `start(500)`. */
    var batchTimerStarts: nat
    var currentBatch: Option<seq<Path>>
    var batchIndex: nat
    /** `QTimer.singleShot(100, _process_next_in_batch)` calls not yet fired. */
    var stepTimers: nat
    var started: seq<Path>
    ghost var batchStart: nat

    /** The label always describes the list (every insertion emits
        `itemsChanged`, which runs `_update_count`), and the paths started
        since the current batch was installed are exactly its first
        `batchIndex` paths, in batch order. */
    ghost predicate Valid()
      reads this
    {
      && countLabel == LabelFor(items)
      && (currentBatch.Some? ==>
            && batchIndex <= |currentBatch.value|
            && batchStart + batchIndex == |started|
            && started[batchStart..] == currentBatch.value[..batchIndex])
    }

    constructor ()
      ensures Valid()
      ensures items == [] && countLabel == NoFilesLoaded && pending == []
      ensures !batchTimerArmed && batchTimerStarts == 0
      ensures currentBatch == None && stepTimers == 0 && started == []
    {
      items := [];
      countLabel := NoFilesLoaded;
      pending := [];
      batchTimerArmed := false;
      batchTimerStarts := 0;
      currentBatch := None;
      batchIndex := 0;
      stepTimers := 0;
      started := [];
      batchStart := 0;
    }

    /** The loop of `_update_count`: total pages and total size, a missing
        value counting as 0. */
    method ComputeTotals() returns (pages: nat, bytes: nat)
      ensures pages == SumPages(items) && bytes == SumSizes(items)
    {
      pages, bytes := 0, 0;
      var i := 0;
      while i < |items|
        invariant 0 <= i <= |items|
        invariant pages == SumPages(items[..i]) && bytes == SumSizes(items[..i])
      {
        assert items[..i + 1][..i] == items[..i];
        pages := pages + OrZero(items[i].pages);
        bytes := bytes + OrZero(items[i].fileSize);
        i := i + 1;
      }
      assert items[..i] == items;
    }

    /** `_update_count`. */
    method UpdateCount()
      modifies this
      ensures countLabel == LabelFor(items)
      ensures items == old(items) && pending == old(pending)
      ensures batchTimerArmed == old(batchTimerArmed) && batchTimerStarts == old(batchTimerStarts)
      ensures currentBatch == old(currentBatch) && batchIndex == old(batchIndex)
      ensures stepTimers == old(stepTimers) && started == old(started) && batchStart == old(batchStart)
    {
      var pages, bytes := ComputeTotals();
      if |items| == 0 {
        countLabel := NoFilesLoaded;
      } else {
        countLabel := Summary(|items|, pages, bytes);
      }
    }

    /** `add_paths`. `onDisk` stands for `Path.exists`. Every accepted path
        becomes a new row at the end of the list and joins the pending list,
        in input order; the debounce restarts only when something was
        accepted; an empty call changes nothing. */
    method AddPaths(paths: seq<Path>, onDisk: Path -> bool)
      requires Valid()
      modifies this
      ensures Valid()
      ensures paths == [] ==> unchanged(this)
      ensures var accepted := Accepted(paths, PathsOf(old(items)), onDisk, PathNames.HasPdfSuffix);
        && items == old(items) + NewItems(accepted)
        && pending == old(pending) + accepted
        && batchTimerArmed == (old(batchTimerArmed) || accepted != [])
        && batchTimerStarts == old(batchTimerStarts) + (if accepted != [] then 1 else 0)
      ensures currentBatch == old(currentBatch) && batchIndex == old(batchIndex)
      ensures stepTimers == old(stepTimers) && started == old(started) && batchStart == old(batchStart)
    {
      if paths == [] {
        return;
      }
      var newPaths := AppendAccepted(paths, PathsOf(items), onDisk, PathNames.HasPdfSuffix);
      if newPaths != [] {
        pending := pending + newPaths;
        batchTimerArmed := true;
        batchTimerStarts := batchTimerStarts + 1;
      }
    }

    /** The loop of `add_paths`: one new row per accepted path. */
    method AppendAccepted(paths: seq<Path>, existing: seq<Path>,
                          onDisk: Path -> bool, isPdf: Path -> bool)
      returns (newPaths: seq<Path>)
      requires Valid()
      modifies this
      ensures Valid()
      ensures newPaths == Accepted(paths, existing, onDisk, isPdf)
      ensures items == old(items) + NewItems(newPaths)
      ensures SamePipeline(this)
    {
      newPaths := [];
      var i := 0;
      while i < |paths|
        invariant 0 <= i <= |paths|
        invariant Valid()
        invariant newPaths == Accepted(paths[..i], existing, onDisk, isPdf)
        invariant items == old(items) + NewItems(newPaths)
        invariant SamePipeline(this)
      {
        var p := paths[i];
        AcceptedStep(paths, i, existing, onDisk, isPdf);
        if Admissible(p, existing, onDisk, isPdf) {
          AppendRow(p);
          NewItemsSnoc(newPaths, p);
          ConcatAssoc(old(items), NewItems(newPaths), [Item(p, None, None)]);
          newPaths := newPaths + [p];
        }
        i := i + 1;
      }
      assert paths[..i] == paths;
    }

    /** `addItem` of a fresh row; the insertion emits `itemsChanged`, which
        runs `_update_count`. */
    method AppendRow(p: Path)
      requires Valid()
      modifies this
      ensures Valid()
      ensures items == old(items) + [Item(p, None, None)]
      ensures SamePipeline(this)
    {
      items := items + [Item(p, None, None)];
      UpdateCount();
    }

    /** The debounce timer fires: `_process_pending_files`. */
    method BatchTimerFires()
      requires Valid() && batchTimerArmed
      modifies this
      ensures Valid() && !batchTimerArmed
      ensures Drained(this)
    {
      batchTimerArmed := false;
      ProcessPendingFiles();
    }

    /** `_process_pending_files`: with nothing pending, nothing happens;
        otherwise the whole pending list becomes the current batch (replacing
        any batch still in progress), pending is left empty, and its first
        path is started at once. */
    method ProcessPendingFiles()
      requires Valid()
      modifies this
      ensures Valid()
      ensures batchTimerArmed == old(batchTimerArmed)
      ensures Drained(this)
    {
      if pending == [] {
        return;
      }
      var files := pending;
      pending := [];
      currentBatch := Some(files);
      batchIndex := 0;
      batchStart := |started|;
      ProcessNextInBatch();
    }

    /** `_process_next_in_batch`: start the worker pair for the next path of
        the batch, or, once every path has been started, delete the batch. */
    method ProcessNextInBatch()
      requires Valid()
      modifies this
      ensures Valid()
      ensures items == old(items) && countLabel == old(countLabel) && pending == old(pending)
      ensures batchTimerArmed == old(batchTimerArmed) && batchTimerStarts == old(batchTimerStarts)
      ensures stepTimers == old(stepTimers)
      ensures Stepped(this)
    {
      if currentBatch.None? {
        return;
      }
      var batch := currentBatch.value;
      if batchIndex >= |batch| {
        currentBatch := None;
        batchIndex := 0;
        return;
      }
      var path := batch[batchIndex];
      batchIndex := batchIndex + 1;
      started := started + [path];
      assert batch[..batchIndex] == batch[..batchIndex - 1] + [path];
    }

    /** The thumbnail worker's `finished` signal: `_on_thumbnail_finished`
        arms a 100 ms single shot that continues the batch. */
    method OnThumbnailFinished()
      requires Valid()
      modifies this
      ensures Valid()
      ensures stepTimers == old(stepTimers) + 1
      ensures items == old(items) && countLabel == old(countLabel) && pending == old(pending)
      ensures batchTimerArmed == old(batchTimerArmed) && batchTimerStarts == old(batchTimerStarts)
      ensures currentBatch == old(currentBatch) && batchIndex == old(batchIndex)
      ensures started == old(started) && batchStart == old(batchStart)
    {
      stepTimers := stepTimers + 1;
    }

    /** One of those single shots fires. */
    method StepTimerFires()
      requires Valid() && stepTimers > 0
      modifies this
      ensures Valid()
      ensures stepTimers == old(stepTimers) - 1
      ensures items == old(items) && countLabel == old(countLabel) && pending == old(pending)
      ensures batchTimerArmed == old(batchTimerArmed) && batchTimerStarts == old(batchTimerStarts)
      ensures Stepped(this)
    {
      stepTimers := stepTimers - 1;
      ProcessNextInBatch();
    }

    /** The loop of `_on_pages_ready` that looks for the row. */
    method FindItem(path: Path) returns (r: Option<nat>)
      ensures r == FirstMatch(items, path)
    {
      var i := 0;
      while i < |items|
        invariant 0 <= i <= |items|
        invariant forall j :: 0 <= j < i ==> items[j].path != path
      {
        if items[i].path == path {
          FirstMatchIs(items, path, i);
          return Some(i);
        }
        i := i + 1;
      }
      FirstMatchNone(items, path);
      return None;
    }

    /** The page-count worker's `counted` signal: `_on_pages_ready` records
        the page count and size on the first row with that path only, then
        refreshes the countLabel. */
    method OnPagesReady(path: Path, pages: nat, fileSize: nat)
      requires Valid()
      modifies this
      ensures Valid()
      ensures items == match FirstMatch(old(items), path)
        case None => old(items)
        case Some(i) => old(items)[i := Item(path, Some(pages), Some(fileSize))]
      ensures pending == old(pending)
      ensures batchTimerArmed == old(batchTimerArmed) && batchTimerStarts == old(batchTimerStarts)
      ensures currentBatch == old(currentBatch) && batchIndex == old(batchIndex)
      ensures stepTimers == old(stepTimers) && started == old(started) && batchStart == old(batchStart)
    {
      var found := FindItem(path);
      if found.Some? {
        var i := found.value;
        items := items[i := Item(path, Some(pages), Some(fileSize))];
      }
      UpdateCount();
    }
  }

  /** What `_process_pending_files` leaves behind. */
  twostate predicate Drained(w: Window)
    reads w
  {
    && w.items == old(w.items) && w.countLabel == old(w.countLabel)
    && w.batchTimerStarts == old(w.batchTimerStarts) && w.stepTimers == old(w.stepTimers)
    && if old(w.pending) == [] then
         && w.pending == [] && w.currentBatch == old(w.currentBatch)
         && w.batchIndex == old(w.batchIndex) && w.started == old(w.started)
       else
         && w.pending == []
         && w.currentBatch == Some(old(w.pending))
         && w.batchIndex == 1
         && w.started == old(w.started) + [old(w.pending)[0]]
  }

  /** What one `_process_next_in_batch` call does to the batch. */
  twostate predicate Stepped(w: Window)
    reads w
  {
    match old(w.currentBatch)
    case None =>
      w.currentBatch == None && w.batchIndex == old(w.batchIndex) && w.started == old(w.started)
    case Some(batch) =>
      if old(w.batchIndex) >= |batch| then
        w.currentBatch == None && w.batchIndex == 0 && w.started == old(w.started)
      else
        && w.currentBatch == old(w.currentBatch)
        && w.batchIndex == old(w.batchIndex) + 1
        && w.started == old(w.started) + [batch[old(w.batchIndex)]]
  }

  lemma FirstMatchIs(items: seq<Item>, path: Path, i: nat)
    requires i < |items| && items[i].path == path
    requires forall j :: 0 <= j < i ==> items[j].path != path
    ensures FirstMatch(items, path) == Some(i)
  {
  }

  lemma FirstMatchNone(items: seq<Item>, path: Path)
    requires forall j :: 0 <= j < |items| ==> items[j].path != path
    ensures FirstMatch(items, path) == None
  {
  }

  /** Nothing of the pending-file pipeline changes. */
  twostate predicate SamePipeline(w: Window)
    reads w
  {
    && w.pending == old(w.pending)
    && w.batchTimerArmed == old(w.batchTimerArmed) && w.batchTimerStarts == old(w.batchTimerStarts)
    && w.currentBatch == old(w.currentBatch) && w.batchIndex == old(w.batchIndex)
    && w.stepTimers == old(w.stepTimers) && w.started == old(w.started) && w.batchStart == old(w.batchStart)
  }

  lemma AcceptedStep(paths: seq<Path>, i: nat, existing: seq<Path>,
                     onDisk: Path -> bool, isPdf: Path -> bool)
    requires i < |paths|
    ensures Accepted(paths[..i + 1], existing, onDisk, isPdf) ==
      Accepted(paths[..i], existing, onDisk, isPdf) +
      (if Admissible(paths[i], existing, onDisk, isPdf) then [paths[i]] else [])
  {
    assert paths[..i + 1][..i] == paths[..i];
  }

  lemma NewItemsSnoc(paths: seq<Path>, p: Path)
    ensures NewItems(paths + [p]) == NewItems(paths) + [Item(p, None, None)]
  {
  }

  lemma ConcatAssoc<T>(a: seq<T>, b: seq<T>, c: seq<T>)
    ensures (a + b) + c == a + (b + c)
  {
  }

  /** Adding rows raises the file count and leaves the page and size totals
      as they were: the new rows are still being analysed. */
  lemma LabelAfterAdd(items: seq<Item>, paths: seq<Path>)
    requires items + NewItems(paths) != []
    ensures LabelFor(items + NewItems(paths)) ==
      Summary(|items| + |paths|, SumPages(items), SumSizes(items))
  {
    SumsAppend(items, NewItems(paths));
    NewItemsCountZero(paths);
  }

  /** Every path of the sequence is admissible. */
  predicate AllAdmissible(paths: seq<Path>, existing: seq<Path>, onDisk: Path -> bool, isPdf: Path -> bool)
  {
    paths == [] ||
    (&& AllAdmissible(paths[..|paths| - 1], existing, onDisk, isPdf)
     && Admissible(paths[|paths| - 1], existing, onDisk, isPdf))
  }

  /** When every given path is admissible, all of them are accepted. */
  lemma {:induction false} AcceptedAll(paths: seq<Path>, existing: seq<Path>,
                                       onDisk: Path -> bool, isPdf: Path -> bool)
    requires AllAdmissible(paths, existing, onDisk, isPdf)
    ensures Accepted(paths, existing, onDisk, isPdf) == paths
    decreases |paths|
  {
    if paths != [] {
      var init, last := paths[..|paths| - 1], paths[|paths| - 1];
      AcceptedAll(init, existing, onDisk, isPdf);
      assert paths == init + [last];
    }
  }

  /** A new window is given two different admissible paths `a` and `b`: both
      are listed and queued. */
  method TwoQueued(a: Path, b: Path, onDisk: Path -> bool) returns (w: Window)
    requires a != b
    requires Admissible(a, [], onDisk, PathNames.HasPdfSuffix)
    requires Admissible(b, [], onDisk, PathNames.HasPdfSuffix)
    ensures fresh(w) && w.Valid()
    ensures PathsOf(w.items) == [a, b] && w.pending == [a, b]
    ensures w.batchTimerArmed && w.currentBatch == None && w.started == [] && w.stepTimers == 0
  {
    w := new Window();
    assert PathsOf(w.items) == [];
    assert [a, b][..1] == [a] && [a][..0] == [];
    AcceptedAll([a, b], [], onDisk, PathNames.HasPdfSuffix);
    w.AddPaths([a, b], onDisk);
    assert PathsOf(w.items) == [a, b];
  }

  /** ... the debounce fires: the batch [a, b] is installed and `a` is started. */
  method FirstBatchStarted(a: Path, b: Path, onDisk: Path -> bool) returns (w: Window)
    requires a != b
    requires Admissible(a, [], onDisk, PathNames.HasPdfSuffix)
    requires Admissible(b, [], onDisk, PathNames.HasPdfSuffix)
    ensures fresh(w) && w.Valid()
    ensures PathsOf(w.items) == [a, b] && w.pending == []
    ensures w.currentBatch == Some([a, b]) && w.batchIndex == 1
    ensures w.started == [a] && w.stepTimers == 0
  {
    w := TwoQueued(a, b, onDisk);
    w.BatchTimerFires();
  }

  /** ... a third path `c` is added and the debounce fires again before
      `a`'s thumbnail has finished: the batch [c] replaces [a, b] and `c` is
      started. */
  method SecondDrain(w: Window, a: Path, b: Path, c: Path, onDisk: Path -> bool)
    requires w.Valid() && a != c && b != c
    requires Admissible(c, [], onDisk, PathNames.HasPdfSuffix)
    requires PathsOf(w.items) == [a, b] && w.pending == []
    requires w.currentBatch == Some([a, b]) && w.batchIndex == 1
    requires w.started == [a] && w.stepTimers == 0
    modifies w
    ensures w.Valid()
    ensures w.currentBatch == Some([c]) && w.batchIndex == 1
    ensures w.started == [a, c] && w.stepTimers == 0
  {
    assert Admissible(c, [a, b], onDisk, PathNames.HasPdfSuffix) && [c][..0] == [];
    AcceptedAll([c], [a, b], onDisk, PathNames.HasPdfSuffix);
    w.AddPaths([c], onDisk);
    w.BatchTimerFires();
  }

  /** A second drain replaces a batch still in progress. Two PDFs `a` and `b`
      are added and drained, which starts `a`; a third, `c`, is added and
      drained before `a`'s thumbnail has finished. The two thumbnail workers
      then finish and both 100 ms steps fire: `b`, queued in the first batch
      but never started, is dropped. */
  method ReplacedBatchScenario(a: Path, b: Path, c: Path, onDisk: Path -> bool)
    returns (startedPaths: seq<Path>)
    requires a != b && a != c && b != c
    requires Admissible(a, [], onDisk, PathNames.HasPdfSuffix)
    requires Admissible(b, [], onDisk, PathNames.HasPdfSuffix)
    requires Admissible(c, [], onDisk, PathNames.HasPdfSuffix)
    ensures startedPaths == [a, c] && b !in startedPaths
  {
    var w := FirstBatchStarted(a, b, onDisk);
    SecondDrain(w, a, b, c, onDisk);
    w.OnThumbnailFinished();
    w.OnThumbnailFinished();
    w.StepTimerFires();
    w.StepTimerFires();
    startedPaths := w.started;
  }
}
