/** The process-wide thumbnail cache: an insertion-ordered dictionary from a
    composite text key to an icon, bounded to 50 entries and evicting in
    insertion (FIFO) order. */
module ThumbnailCache {
  import opened Types
  import PathNames

  /** CACHE_MAX_SIZE. */
  const CacheMaxSize: nat := 50

  type CacheKey = string

  /** One dictionary item; the sequence order is the dictionary's insertion order. */
  type Entry = (CacheKey, Icon)

  function Digit(d: nat): (c: char)
    requires d < 10
    ensures '0' <= c <= '9'
  {
    ('0' as int + d) as char
  }

  /** `str(n)` for a non-negative integer. */
  function Decimal(n: nat): (r: string)
    ensures |r| >= 1
    ensures n >= 10 ==> |r| >= 2
    ensures forall i :: 0 <= i < |r| ==> '0' <= r[i] <= '9'
  {
    if n < 10 then [Digit(n)] else Decimal(n / 10) + [Digit(n % 10)]
  }

  /** Distinct numbers print differently. */
  lemma {:induction false} DecimalInjective(a: nat, b: nat)
    requires Decimal(a) == Decimal(b)
    ensures a == b
  {
    if a >= 10 && b >= 10 {
      var da, db := Decimal(a), Decimal(b);
      assert da[..|da| - 1] == Decimal(a / 10);
      assert db[..|db| - 1] == Decimal(b / 10);
      DecimalInjective(a / 10, b / 10);
      assert Digit(a % 10) == Digit(b % 10);
    }
  }

  /** The key `f"{path}_{width}x{height}_{mtime}"`, where `mtime` is the text
      of the file's modification time. */
  function CacheKeyOf(path: Path, width: nat, height: nat, mtime: string): CacheKey
  {
    path + "_" + Decimal(width) + "x" + Decimal(height) + "_" + mtime
  }

  lemma NoSeparatorAfter(x: string, y: string, sep: char)
    requires sep !in y
    ensures (x + [sep] + y)[|x|] == sep
    ensures forall j :: |x| < j < |x + [sep] + y| ==> (x + [sep] + y)[j] != sep
  {
    var xs := x + [sep];
    var s := xs + y;
    forall j | |xs| <= j < |s| ensures s[j] != sep {
      assert s[j] == y[j - |xs|];
    }
  }

  lemma LastSeparatorSplits(x: string, y: string, sep: char)
    requires sep !in y
    ensures PathNames.LastIndexOf(x + [sep] + y, sep) == |x|
  {
    NoSeparatorAfter(x, y, sep);
    PathNames.LastIndexOfIsLast(x + [sep] + y, sep);
  }

  /** Two strings that each end in a separator followed by separator-free text
      are equal exactly when both parts are. */
  lemma SplitAtLast(x1: string, y1: string, x2: string, y2: string, sep: char)
    requires sep !in y1 && sep !in y2
    requires x1 + [sep] + y1 == x2 + [sep] + y2
    ensures x1 == x2 && y1 == y2
  {
    LastSeparatorSplits(x1, y1, sep);
    LastSeparatorSplits(x2, y2, sep);
    var s := x1 + [sep] + y1;
    assert x1 == s[..|x1|] && x2 == s[..|x2|];
    assert y1 == s[|x1| + 1..] && y2 == s[|x2| + 1..];
  }

  /** The composite key tells every component apart: a different path,
      thumbnail size or modification time yields a different key, so a resized
      thumbnail or a modified file is a cache miss. Python prints a float
      modification time without underscores. */
  lemma CacheKeyInjective(p1: Path, w1: nat, h1: nat, m1: string,
                          p2: Path, w2: nat, h2: nat, m2: string)
    requires '_' !in m1 && '_' !in m2
    ensures CacheKeyOf(p1, w1, h1, m1) == CacheKeyOf(p2, w2, h2, m2) <==>
            p1 == p2 && w1 == w2 && h1 == h2 && m1 == m2
  {
    if CacheKeyOf(p1, w1, h1, m1) == CacheKeyOf(p2, w2, h2, m2) {
      var d1, e1 := Decimal(w1), Decimal(h1);
      var d2, e2 := Decimal(w2), Decimal(h2);
      SplitAtLast(p1 + "_" + d1 + "x" + e1, m1, p2 + "_" + d2 + "x" + e2, m2, '_');
      assert 'x' !in e1 && 'x' !in e2;
      SplitAtLast(p1 + "_" + d1, e1, p2 + "_" + d2, e2, 'x');
      assert '_' !in d1 && '_' !in d2;
      SplitAtLast(p1, d1, p2, d2, '_');
      DecimalInjective(w1, w2);
      DecimalInjective(h1, h2);
    }
  }

  function KeysOf(entries: seq<Entry>): (keys: seq<CacheKey>)
    ensures |keys| == |entries|
    ensures forall i :: 0 <= i < |entries| ==> keys[i] == entries[i].0
  {
    seq(|entries|, i requires 0 <= i < |entries| => entries[i].0)
  }

  /** A dictionary holds each key at most once. */
  predicate DistinctKeys(entries: seq<Entry>)
  {
    forall i, j :: 0 <= i < j < |entries| ==> entries[i].0 != entries[j].0
  }

  /** `THUMBNAIL_CACHE.get(key)`. */
  function Lookup(entries: seq<Entry>, key: CacheKey): (r: Option<Icon>)
    ensures r.None? <==> key !in KeysOf(entries)
    ensures r.Some? ==> (key, r.value) in entries
  {
    if entries == [] then None
    else if entries[0].0 == key then Some(entries[0].1)
    else
      assert KeysOf(entries) == [entries[0].0] + KeysOf(entries[1..]);
      Lookup(entries[1..], key)
  }

  /** Evict-then-insert: when the cache already holds CACHE_MAX_SIZE entries the
      first-inserted one is deleted, then the new entry goes last. */
  function InsertFifo(entries: seq<Entry>, e: Entry): (r: seq<Entry>)
    ensures |entries| <= CacheMaxSize ==> |r| <= CacheMaxSize
    ensures |r| == if |entries| >= CacheMaxSize then |entries| else |entries| + 1
    ensures r[|r| - 1] == e
    ensures r[..|r| - 1] == entries[|entries| + 1 - |r|..]
    ensures DistinctKeys(entries) && e.0 !in KeysOf(entries) ==> DistinctKeys(r)
  {
    var kept := if |entries| >= CacheMaxSize then entries[1..] else entries;
    assert (kept + [e])[..|kept|] == kept;
    kept + [e]
  }

  /** The last min(n, CACHE_MAX_SIZE) of a sequence of insertions. */
  function Window(inserted: seq<Entry>): (w: seq<Entry>)
    ensures |w| == Min(|inserted|, CacheMaxSize)
  {
    inserted[|inserted| - Min(|inserted|, CacheMaxSize)..]
  }

  /** FIFO eviction keeps exactly the most recent CACHE_MAX_SIZE insertions:
      one more insertion into the window of a history is the window of the
      longer history. */
  lemma {:induction false} InsertFifoWindow(inserted: seq<Entry>, e: Entry)
    ensures InsertFifo(Window(inserted), e) == Window(inserted + [e])
  {
    var h := inserted + [e];
    var w := Window(inserted);
    if |inserted| >= CacheMaxSize {
      assert w[1..] == inserted[|inserted| - CacheMaxSize + 1..];
      assert Window(h) == h[|h| - CacheMaxSize..];
      assert h[|h| - CacheMaxSize..] == inserted[|inserted| - CacheMaxSize + 1..] + [e];
    } else {
      assert w == inserted;
      assert Window(h) == h;
    }
  }

  /** THUMBNAIL_CACHE. The ghost `inserted` records every insertion ever made;
      the invariant says the dictionary is the FIFO window of that history. */
  class Cache {
    var entries: seq<Entry>
    ghost var inserted: seq<Entry>

    ghost predicate Valid()
      reads this
    {
      DistinctKeys(entries) && entries == Window(inserted)
    }

    constructor ()
      ensures Valid() && entries == [] && inserted == []
    {
      entries := [];
      inserted := [];
    }

    /** Store a freshly rendered icon under a key the cache does not hold:
        delete the first-inserted entry when CACHE_MAX_SIZE are held, then add
        the new one last. */
    method EvictThenInsert(key: CacheKey, icon: Icon)
      requires Valid() && key !in KeysOf(entries)
      modifies this
      ensures Valid()
      ensures entries == InsertFifo(old(entries), (key, icon))
      ensures inserted == old(inserted) + [(key, icon)]
    {
      InsertFifoWindow(inserted, (key, icon));
      ghost var before := entries;
      if |entries| >= CacheMaxSize {
        entries := entries[1..];
      }
      entries := entries + [(key, icon)];
      inserted := inserted + [(key, icon)];
      assert entries == InsertFifo(before, (key, icon));
    }
  }
}
