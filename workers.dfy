/** The two background analysis workers started for every dispatched path:
    the thumbnail worker (which reads and fills the shared cache) and the
    page-count worker. Each `run` is modelled as one sequential call; the
    filesystem, the alarm set-up and the renderer are parameters. */
module Workers {
  import opened Types
  import opened ThumbnailCache

  /** The (width, height) a worker renders to. */
  datatype ThumbSize = ThumbSize(width: nat, height: nat)

  /** The worker's default `thumb_size`. */
  const DefaultThumbSize := ThumbSize(140, 180)

  /** What `QListWidget.iconSize()` returns: a QSize object, read through its
      `width()` and `height()` methods. */
  datatype QSize = QSize(width: nat, height: nat)

  /** The `thumb_size` a worker is built with: a (width, height) tuple, as the
      annotation and the default have it, or a QSize object. */
  datatype SizeArgument = SizeTuple(size: ThumbSize) | SizeObject(qsize: QSize)

  /** The TypeError text for indexing an object without `__getitem__`. */
  const NotSubscriptableMessage := "'QSize' object is not subscriptable"

  /** The cache key expression evaluated left to right: the path, then
      `thumb_size[0]` and `thumb_size[1]`, then `path.stat().st_mtime`. */
  datatype KeyStep = KeyReady(key: CacheKey) | KeyRaised(msg: string)

  function KeyFor(path: Path, size: SizeArgument, stat: StatResult): (r: KeyStep)
    ensures r.KeyReady? <==> size.SizeTuple? && stat.StatOk?
    ensures size.SizeObject? ==> r == KeyRaised(NotSubscriptableMessage)
    ensures size.SizeTuple? && stat.StatError? ==> r == KeyRaised(stat.msg)
  {
    match size
    case SizeObject(_) => KeyRaised(NotSubscriptableMessage)
    case SizeTuple(ThumbSize(w, h)) =>
      match stat
      case StatError(m) => KeyRaised(m)
      case StatOk(_, mtime) => KeyReady(CacheKeyOf(path, w, h, mtime))
  }

  /** A worker built with the default size keys a readable file by its path,
      140x180 and its modification time. */
  lemma DefaultSizeKey(path: Path, stat: StatResult)
    requires stat.StatOk?
    ensures KeyFor(path, SizeTuple(DefaultThumbSize), stat) == KeyReady(CacheKeyOf(path, 140, 180, stat.mtime))
  {
  }

  /** The argument `_process_next_in_batch` passes as written: the QSize itself. */
  function DispatchedSizeAsWritten(iconSize: QSize): SizeArgument
  {
    SizeObject(iconSize)
  }

  /** As written, every dispatched thumbnail run raises while building its
      key, even for a readable file, so it reports the TypeError and never
      reaches the cache or the renderer. */
  lemma DispatchedRunRaises(path: Path, iconSize: QSize, stat: StatResult)
    ensures KeyFor(path, DispatchedSizeAsWritten(iconSize), stat) == KeyRaised(NotSubscriptableMessage)
  {
  }

  /** The evidently intended argument: the icon size as a (width, height) tuple. */
  function DispatchedSize(iconSize: QSize): (r: SizeArgument)
    ensures r.SizeTuple? && r.size.width == iconSize.width && r.size.height == iconSize.height
  {
    SizeTuple(ThumbSize(iconSize.width, iconSize.height))
  }

  /** With the intended argument, a dispatched run keys every readable file by
      its path, the current icon size and its modification time, and a run
      after the icon size changed looks under a different key. */
  lemma DispatchedRunKeys(path: Path, iconSize: QSize, other: QSize, stat: StatResult)
    requires stat.StatOk? && '_' !in stat.mtime
    ensures KeyFor(path, DispatchedSize(iconSize), stat)
            == KeyReady(CacheKeyOf(path, iconSize.width, iconSize.height, stat.mtime))
    ensures KeyFor(path, DispatchedSize(iconSize), stat) == KeyFor(path, DispatchedSize(other), stat)
            <==> iconSize == other
  {
    CacheKeyInjective(path, iconSize.width, iconSize.height, stat.mtime,
                      path, other.width, other.height, stat.mtime);
  }

  /** What happens when the worker arms its ten-second SIGALRM timeout: the
      platform has no SIGALRM, the handler is installed, or `signal.signal`
      raises (CPython refuses it outside the main thread). */
  datatype AlarmSetup = NoAlarm | AlarmInstalled | AlarmRefused(msg: string)

  /** The arguments of `render_page_qpix(path, page_index, max_w, max_h)`. */
  datatype RenderRequest = RenderRequest(path: Path, pageIndex: nat, maxWidth: nat, maxHeight: nat)

  /** What the renderer hands back: a non-null pixmap (kept as its icon), a
      null pixmap (every failure inside the renderer ends here), or the
      alarm's TimeoutError raised outside the renderer's own handler. */
  datatype RenderOutcome = Rendered(icon: Icon) | NullPixmap | TimedOut

  /** The one signal a thumbnail run emits: `result` or `error`. */
  datatype ThumbOutcome = ThumbReady(path: Path, icon: Icon) | ThumbError(path: Path, message: string)

  const NullPixmapMessage := "Failed to generate thumbnail"
  const TimedOutMessage := "Thumbnail generation timed out"

  /** SimpleThumbnailWorker.run. `rendered` tells whether the renderer was
      called. An exception while building the key (an unindexable size, a
      failing `stat`) is reported with its text. A hit answers from the cache
      without rendering and without reordering it; only a successful render
      on a miss inserts, evicting the first-inserted entry first when the
      cache is full. */
  method RunThumbnailWorker(cache: Cache, path: Path, size: SizeArgument, stat: StatResult,
                            alarm: AlarmSetup, render: RenderRequest -> RenderOutcome)
    returns (outcome: ThumbOutcome, rendered: bool)
    requires cache.Valid()
    modifies cache
    ensures cache.Valid()
    ensures KeyFor(path, size, stat).KeyRaised? ==>
      outcome == ThumbError(path, KeyFor(path, size, stat).msg) && !rendered && unchanged(cache)
    ensures KeyFor(path, size, stat).KeyReady? ==>
      var key := KeyFor(path, size, stat).key;
      var cached := Lookup(old(cache.entries), key);
      && (cached.Some? ==>
            outcome == ThumbReady(path, cached.value) && !rendered && unchanged(cache))
      && (cached.None? ==> MissHandled(cache, key, path, size.size, alarm, render, outcome, rendered))
  {
    rendered := false;
    var k := KeyFor(path, size, stat);
    if k.KeyRaised? {
      outcome := ThumbError(path, k.msg);
      return;
    }
    var cached := Lookup(cache.entries, k.key);
    if cached.Some? {
      outcome := ThumbReady(path, cached.value);
      return;
    }
    outcome, rendered := RenderAndCache(cache, k.key, path, size.size, alarm, render);
  }

  /** What a cache miss leads to: when the alarm cannot be armed, an error
      without rendering; otherwise one render of page 0 at the thumbnail size,
      and on a non-null pixmap an evict-then-insert of the new entry. */
  twostate predicate MissHandled(cache: Cache, key: CacheKey, path: Path, size: ThumbSize,
                                 alarm: AlarmSetup, render: RenderRequest -> RenderOutcome,
                                 outcome: ThumbOutcome, rendered: bool)
    reads cache
  {
    if alarm.AlarmRefused? then
      outcome == ThumbError(path, alarm.msg) && !rendered && unchanged(cache)
    else
      rendered &&
      match render(RenderRequest(path, 0, size.width, size.height))
      case Rendered(icon) =>
        && outcome == ThumbReady(path, icon)
        && cache.entries == InsertFifo(old(cache.entries), (key, icon))
        && cache.inserted == old(cache.inserted) + [(key, icon)]
      case NullPixmap =>
        outcome == ThumbError(path, NullPixmapMessage) && unchanged(cache)
      case TimedOut =>
        outcome == ThumbError(path, TimedOutMessage) && unchanged(cache)
  }

  /** The body of the worker after a cache miss: arm the alarm, render, and
      cache a non-null result. */
  method RenderAndCache(cache: Cache, key: CacheKey, path: Path, size: ThumbSize,
                        alarm: AlarmSetup, render: RenderRequest -> RenderOutcome)
    returns (outcome: ThumbOutcome, rendered: bool)
    requires cache.Valid() && key !in KeysOf(cache.entries)
    modifies cache
    ensures cache.Valid()
    ensures MissHandled(cache, key, path, size, alarm, render, outcome, rendered)
  {
    rendered := false;
    if alarm.AlarmRefused? {
      outcome := ThumbError(path, alarm.msg);
      return;
    }
    rendered := true;
    var r := render(RenderRequest(path, 0, size.width, size.height));
    match r
    case Rendered(icon) =>
      cache.EvictThenInsert(key, icon);
      outcome := ThumbReady(path, icon);
    case NullPixmap =>
      outcome := ThumbError(path, NullPixmapMessage);
    case TimedOut =>
      outcome := ThumbError(path, TimedOutMessage);
  }

  /** The `counted` signal: path, page count, size in bytes. */
  datatype PagesReady = PagesReady(path: Path, pages: nat, fileSize: nat)

  /** SimplePageCountWorker.run: stat, then parse. It emits a result only when
      both succeed; on any failure it emits nothing at all, so a parse failure
      never reaches the window as "0 pages" with the real size. */
  function PageCountRun(path: Path, stat: StatResult, read: ReadResult): (r: Option<PagesReady>)
    ensures r.Some? <==> stat.StatOk? && read.Pages?
    ensures r.Some? ==> r.value.path == path && r.value.pages == |read.pages| && r.value.fileSize == stat.size
  {
    match stat
    case StatError(_) => None
    case StatOk(size, _) =>
      match read
      case ReadError(_) => None
      case Pages(pages) => Some(PagesReady(path, |pages|, size))
  }
}
