# PDF Merger: verified model of the analysis pipeline and the merge engine

This project models the sequential logic of `pdf_merger_simple.py`, a PyQt
desktop tool that lists PDF files, shows a thumbnail and page count for each,
and merges them in list order into one output file. Documents, bitmaps, the
renderer and the filesystem are abstract values and parameters. Qt threads,
signals and timers become explicit method calls made one after another.

Seven modules, one per file:

- `Types` (`types.dfy`): paths, pages, icons, and the results of `stat`, of
  parsing a PDF, and of a filesystem action.
- `Platform` (`platform.dfy`): the subprocess creation flags and the
  thumbnail/preview DPI choice.
- `PathNames` (`path_names.dfy`): `PurePath.name`, `PurePath.suffix` and the
  case-insensitive ".pdf" test used when files are added.
- `ThumbnailCache` (`thumbnail_cache.dfy`): the process-wide `THUMBNAIL_CACHE`.
  It is a class over an insertion-ordered sequence of (key, icon) pairs with a
  ghost history of every insertion. Its invariant says the dictionary is always
  the last `min(n, 50)` insertions. That invariant is the FIFO eviction policy.
  The composite key `f"{path}_{w}x{h}_{mtime}"` is proved injective.
- `Workers` (`workers.dfy`): `SimpleThumbnailWorker.run` (cache hit, miss,
  render, evict-then-insert, the three error outcomes) and
  `SimplePageCountWorker.run`.
- `Merge` (`merge.dfy`): `MergeWorker.run`. The loop is a method proved equal
  to a trace function of observable events: sources read, `progress` values,
  the directory/open/write steps on the destination, and the final
  `finished_ok`/`failed` signal. Lemmas about that trace state the merge's
  guarantees.
- `MainWindow` (`main_window.dfy`): the list rows, the count label, and the
  pending-file pipeline of `SimpleMainWindow` (`add_paths`, the 500 ms
  debounce, `_process_pending_files`, `_process_next_in_batch`,
  `_on_thumbnail_finished`, `_update_count`, `_on_pages_ready`). It is a class
  whose invariant keeps the label in step with the rows. The invariant also
  says the paths started since the current batch was installed are exactly
  the batch's first `batchIndex` paths, in order.

Facts about the code that shape the model:

- The cache holds at most `CACHE_MAX_SIZE = 50` entries (pdf_merger_simple.py:114).
- `test_app.py:92` imports a `WorkerManager` that `pdf_merger_simple.py` never
  defines, so there is no worker manager to model.
- Draining the pending list dispatches one path per step: one on the drain,
  then one per 100 ms continuation (pdf_merger_simple.py:652-705).
- A merge failure emits `str(e)` only (pdf_merger_simple.py:269).
- The thumbnail cache key includes `st_mtime` (pdf_merger_simple.py:168).
- The dispatch at pdf_merger_simple.py:691 passes a QSize where the worker
  indexes a tuple; see "## Findings".

## Model

| member | source | states |
|---|---|---|
| Platform.CreationFlags | pdf_merger_simple.py:49-55 | 0 unless the platform name starts with "win" and the app is frozen. In that case the flags are `CREATE_NO_WINDOW` when the module defines it, else 0x08000000. |
| Platform.RenderDpi | pdf_merger_simple.py:889 | The DPI is 120 or 150. It is 120 exactly when a width is given, is non-zero (truthy) and is below 200. |
| PathNames.PdfSuffixIff | pdf_merger_simple.py:633 | `p.suffix.lower() == ".pdf"` holds exactly when the final component is longer than four characters and ends in ".pdf" in any letter case. A bare ".pdf" and "a.pdf.bak" fail. |
| PathNames.PlainPdfName | pdf_merger_simple.py:633 | A separator-free name longer than four characters that ends in ".pdf" passes the suffix test. |
| ThumbnailCache.CacheKeyInjective | pdf_merger_simple.py:168 | Two cache keys are equal if and only if path, width, height and modification time are all equal. So a resized thumbnail or a modified file is a miss. |
| ThumbnailCache.DecimalInjective | pdf_merger_simple.py:168 | Different sizes print differently inside the key. |
| ThumbnailCache.Lookup | pdf_merger_simple.py:170-172 | The lookup misses exactly when the key is absent. A hit returns an icon stored under that key. |
| ThumbnailCache.InsertFifo | pdf_merger_simple.py:198-203 | Evict-then-insert keeps at most 50 entries. It drops exactly the first-inserted entry when 50 are held, otherwise none. The new entry goes last, the survivors keep their order, and keys stay distinct. |
| ThumbnailCache.InsertFifoWindow | pdf_merger_simple.py:198-203 | Inserting into the last `min(n,50)` insertions yields the last `min(n+1,50)` insertions. Eviction is FIFO, not LRU. |
| ThumbnailCache.Cache.constructor | pdf_merger_simple.py:113-114 | The cache starts empty and valid. |
| ThumbnailCache.Cache.EvictThenInsert | pdf_merger_simple.py:198-203 | The in-place update equals `InsertFifo` of the old contents. The ghost history grows by the new entry, and the FIFO-window invariant is kept. |
| Workers.KeyFor | pdf_merger_simple.py:168 | The key is built exactly when the size is a tuple and `stat` succeeds. An unindexable QSize raises the TypeError first, before `stat`. Otherwise a failing `stat` raises its own error. |
| Workers.DefaultSizeKey | pdf_merger_simple.py:160-168 | A worker built with the default size keys a readable file by its path, 140x180 and its modification time. |
| Workers.DispatchedRunRaises | pdf_merger_simple.py:691 | As written, the QSize passed at dispatch makes every thumbnail run raise while building its key, even for a readable file. |
| Workers.DispatchedSize | pdf_merger_simple.py:691 | The intended argument is a tuple holding the icon size's width and height. |
| Workers.DispatchedRunKeys | pdf_merger_simple.py:691 | With the intended argument, a readable file is keyed by path, icon size and modification time. Runs at two icon sizes use the same key exactly when the sizes are equal. |
| Workers.RunThumbnailWorker | pdf_merger_simple.py:165-216 | An exception while the key is built (an unindexable size, a failing `stat`) gives an error with the exception text, no render and an unchanged cache. A hit returns the cached icon without rendering and without reordering the cache. A miss behaves as `MissHandled` describes. |
| Workers.RenderAndCache | pdf_merger_simple.py:174-212 | If `signal.signal` raises, the result is an error and there is no render. Otherwise page 0 is rendered once at the thumbnail size. A pixmap is cached by evict-then-insert and returned. A null pixmap gives "Failed to generate thumbnail", a TimeoutError gives "Thumbnail generation timed out", and in both cases the cache is unchanged. |
| Workers.PageCountRun | pdf_merger_simple.py:225-237 | A `counted` result is emitted exactly when both `stat` and parsing succeed. It carries the path, the number of pages and the size. On failure nothing is emitted. |
| Merge.PercentRange | pdf_merger_simple.py:259 | After `done <= total` sources, the progress value lies in 0..100. After the last of at least one source it is 100. |
| Merge.PercentMonotone | pdf_merger_simple.py:259 | Progress values never decrease as more sources are done. |
| Merge.FirstFailure | pdf_merger_simple.py:255-257 | Returns the index of the first unreadable source, with every earlier source readable, or None when all are readable. |
| Merge.RunMerge | pdf_merger_simple.py:249-269 | The loop and the steps after it produce exactly the events of `MergeTrace`. |
| Merge.MergeReadsInOrder | pdf_merger_simple.py:255-257 | The sources read are all of them in input order, or those up to and including the first unreadable one. Nothing is read after a failure. |
| Merge.MergeProgress | pdf_merger_simple.py:252-259 | One progress value is emitted per successfully read source: Percent(j, n) after the j-th. The values are non-decreasing and within 0..100, and the last is 100 when all n ≥ 1 sources were read. |
| Merge.MergeSignalsOnce | pdf_merger_simple.py:265-269 | Every run ends with exactly one `finished_ok` or `failed`, and it is the last event. |
| Merge.MergeOutputAfterReads | pdf_merger_simple.py:255-269 | mkdir, open and write happen only after every source has been read, and only if all were readable. The one write carries all pages. An unreadable source ends the run with that source's error, and the output is untouched. |
| Merge.MergeSucceedsIff | pdf_merger_simple.py:255-266 | The run ends in `finished_ok(output)` if and only if every source is readable and mkdir, open and write all succeed. |
| Merge.WriteEventsShape | pdf_merger_simple.py:261-266 | After the loop: mkdir comes first, every event but the last touches the output, exactly one final signal ends them, and a write carries all pages. |
| Merge.WriteEventsSteps | pdf_merger_simple.py:261-266 | After the loop the output is opened only if mkdir succeeded, and then once, as the second event. It is written only if the open succeeded, and then once, as the third event. Success means all four events happened. |
| Merge.MergeOutputOnce | pdf_merger_simple.py:252-266 | In the whole run the output is opened at most once, right after mkdir, and written at most once, right after the open. A successful run does each exactly once, after the two events per source. |
| Merge.ReadEventsFilters | pdf_merger_simple.py:255-259 | The first k loop iterations read `sources[..k]` in order and report Percent(1..k, n). |
| Merge.ReadEventsKinds | pdf_merger_simple.py:255-259 | The loop emits two events per source, and none of them is a final signal or touches the output. |
| Merge.PercentsNondecreasing | pdf_merger_simple.py:259 | The per-source progress sequence is non-decreasing, within 0..100, and ends at 100 when complete. |
| Merge.PagesOfPrefix | pdf_merger_simple.py:255-257 | The writer's pages after j sources are a prefix of those after k ≥ j sources. |
| Merge.PagesOfSegment | pdf_merger_simple.py:255-257 | Source j's pages sit, unchanged, immediately after the pages of the sources before it. So the output is the concatenation in input order. |
| Merge.ThreeSourceMerge | pdf_merger_simple.py:249-266 | Sources of 3, 2 and 4 pages give progress 33, 66, 100, one write of all 9 pages in order, and success. |
| MainWindow.SumsAppend | pdf_merger_simple.py:601-606 | The page and size totals are additive over any split of the list. |
| MainWindow.SumsAfterUpdate | pdf_merger_simple.py:742-752 | Replacing one row changes each total by exactly the new value minus the old, with missing values counted as 0. |
| MainWindow.NewItemsCountZero | pdf_merger_simple.py:636-641 | Rows that are still being analysed add 0 pages and 0 bytes. |
| MainWindow.LabelAfterAdd | pdf_merger_simple.py:597-617 | After rows are added, the label shows the new file count and the unchanged page and size totals. |
| MainWindow.AcceptedCounts | pdf_merger_simple.py:623-642 | Every admissible path (not yet listed, on disk, passing the suffix test) is accepted as many times as it occurs in the call. So a path given twice in one call is accepted twice. No other path is accepted. |
| MainWindow.AcceptedAppend | pdf_merger_simple.py:630-642 | Acceptance is an order-preserving filter: accepting a concatenation gives the concatenation of the results. |
| MainWindow.AcceptedAll | pdf_merger_simple.py:630-642 | When every given path is admissible, all are accepted in input order. |
| MainWindow.FirstMatch | pdf_merger_simple.py:743-745 | Returns the index of the first row with the path, with no earlier row having it, or None when no row has it. |
| MainWindow.Window.constructor | pdf_merger_simple.py:467-476 | The window starts with no rows, "No files loaded", nothing pending, the timer idle and no batch. |
| MainWindow.Window.ComputeTotals | pdf_merger_simple.py:598-606 | The loop's totals are the sums over all rows, with a missing value counted as 0. |
| MainWindow.Window.UpdateCount | pdf_merger_simple.py:597-617 | Afterwards the label describes the rows: "No files loaded" for none, otherwise files, pages and bytes. Nothing else changes. |
| MainWindow.Window.AddPaths | pdf_merger_simple.py:623-650 | An empty call changes nothing. Otherwise the accepted paths (`Accepted` against the rows present before the call, with `PathNames.HasPdfSuffix` as the suffix test) become new rows at the end and join the pending list, in input order. The debounce is restarted only when something was accepted. The batch, the timers and the started paths are untouched. |
| MainWindow.Window.AppendAccepted | pdf_merger_simple.py:630-642 | The loop adds exactly one row per accepted path, in order. |
| MainWindow.Window.AppendRow | pdf_merger_simple.py:641 | `addItem` appends one row and, through `rowsInserted` and `itemsChanged`, refreshes the label. |
| MainWindow.Window.BatchTimerFires | pdf_merger_simple.py:471-473 | When the debounce fires, the timer stops and the pending files are drained as `Drained` states. |
| MainWindow.Window.ProcessPendingFiles | pdf_merger_simple.py:652-666 | With nothing pending nothing changes. Otherwise the whole pending list replaces any current batch, pending becomes empty, and the batch's first path is started at once. |
| MainWindow.Window.ProcessNextInBatch | pdf_merger_simple.py:668-700 | With no batch nothing happens. With the index past the end the batch is deleted. Otherwise `batch[index]` is started and the index moves up by one. |
| MainWindow.Window.OnThumbnailFinished | pdf_merger_simple.py:702-705 | One more 100 ms continuation is armed, and nothing else changes. |
| MainWindow.Window.StepTimerFires | pdf_merger_simple.py:705 | A continuation fires and performs one `ProcessNextInBatch` step. |
| MainWindow.Window.FindItem | pdf_merger_simple.py:743-745 | The search loop finds `FirstMatch`. |
| MainWindow.Window.OnPagesReady | pdf_merger_simple.py:742-752 | Only the first row with the path gets the page count and size. With no such row the rows are unchanged. The label is refreshed either way. |
| MainWindow.TwoQueued | pdf_merger_simple.py:623-650 | Two distinct admissible paths added to a new window are listed and pending, and the timer is armed. |
| MainWindow.FirstBatchStarted | pdf_merger_simple.py:652-700 | When the debounce fires, the batch [a, b] is installed and only `a` is started. |
| MainWindow.SecondDrain | pdf_merger_simple.py:652-679 | When a third path `c` is added and drained while [a, b] is the current batch, the batch becomes [c], `c` is started, and the started paths are [a, c]. |
| MainWindow.ReplacedBatchScenario | pdf_merger_simple.py:652-679 | A second drain before the first batch finishes replaces it. Of a, b, c only a and c are ever started, and b is dropped. |

## Left out

- Qt presentation is left out as UI: widgets, styles, the grid resize, drag and drop, menus, dialogs, the preview pane and the text of each row.
- The count label's MB/GB text is modelled as the byte total, because formatting is float arithmetic.
- Merge.Percent: the model takes the exact floor of 100·i/max(1, n). The code computes `int(i / max(1, total) * 100)` in IEEE doubles, which can be one lower (29 of 100 gives 28). Range, monotonicity and the final 100 also hold for the float formula, but the exact values proved here are an idealisation.
- Rendering and parsing (`render_page_qpix`, pdf2image/poppler, PIL, `PdfReader`/`PdfWriter`) are foreign calls. They appear as "render gives a pixmap, a null pixmap or a timeout" and "read gives pages or an error". Only the DPI choice is modelled.
- Workers.RunThumbnailWorker: an exception raised after the key is built, other than by `signal.signal` or the renderer (for example while building the icon), is not modelled.
- Workers.RenderAndCache: the alarm installation is a parameter. `signal.signal` raises ValueError outside the main thread, and a worker runs in a QThread, so on CPython the handler is refused and the worker reports that error. The ten-second timing itself is left out.
- Concurrency and timing are left out. Each worker `run` is one call, and each timer expiry and signal is one explicit method call. The quit/wait of previous workers, the unused `THUMBNAIL_POOL`, and `closeEvent`/`cleanup_resources` are not modelled.
- `_on_thumb_ready` and `_on_thumb_error` set a row's icon and status text, which is presentation only.
- The size argument a dispatched worker receives (`listw.iconSize()`, which changes on resize) is not recorded in `started`. `RunThumbnailWorker` takes it as a parameter. `DispatchedSizeAsWritten` and `DispatchedSize` give the argument as written and as intended.
- Path identity is string equality of POSIX-style paths. Windows separators, case-insensitive Windows path equality and `pathlib` normalisation are not modelled.
- `p.exists()` and `stat()` are parameters (`onDisk`, `StatResult`). The modification time is its printed text, which contains no underscore.
- PathNames.Lower lowers ASCII letters only. This is exact for the comparison with ".pdf", because no other character lowers to '.', 'p', 'd' or 'f'.
- `is_frozen`, `get_resource_path`, `get_poppler_path`, icon generation and the build scripts depend on the environment and are left out. The frozen test is a parameter of `CreationFlags`.
- Folder scanning (`on_add_folder`), removal, reset and `on_merge` are UI entry points and are left out. `MergeWorker.run` itself is modelled.
- `WorkerManager` is imported by `test_app.py` but not defined by the application, so it is not part of this model.

## Findings

| source | as written | input that shows it | evidently intended | confidence | as-written member | corrected member |
|---|---|---|---|---|---|---|
| pdf_merger_simple.py:691 | `SimpleThumbnailWorker(path, self.listw.iconSize())` passes a QSize. `run` indexes it as `self.thumb_size[0]` at :168, and a QSize has no `__getitem__`. So every dispatched run raises TypeError before `stat`, emits `error(path, "'QSize' object is not subscriptable")` and never renders or caches. | Any readable PDF reaching `_process_next_in_batch` | Pass `(size.width(), size.height())`, the `Tuple[int, int]` the constructor's annotation and default (140, 180) describe | medium; not executed (it rests on PyQt6's QSize having no indexing) | Workers.DispatchedRunRaises | Workers.DispatchedRunKeys |
