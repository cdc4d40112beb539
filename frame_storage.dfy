// The frame storage optimizer: an in-memory cache of decoded frames bounded
// by a byte budget, with eviction of arbitrary entries, and the disk-usage
// guard and step order of `optimize_storage`. An image is its byte buffer;
// its size is the buffer's length.

module FrameStorage {
  import opened Strings
  import opened Errors
  import Frames

  type Image = seq<bv8>
  type Cache = map<Id, Image>

  const MiB: nat := 1024 * 1024

  /** `MAX_FRAME_STORAGE_BYTES`: 10 GiB. */
  const MaxFrameStorageBytes: nat := 10 * 1024 * 1024 * 1024

  /** Total size of the images held in a cache. */
  ghost function Bytes(m: Cache): nat
    decreases |m.Keys|
  {
    if m == map[] then 0
    else
      var k :| k in m;
      |m[k]| + Bytes(m - {k})
  }

  /** The total does not depend on which entry is taken out first. */
  lemma {:induction false} BytesRemove(m: Cache, k: Id)
    requires k in m
    ensures Bytes(m) == |m[k]| + Bytes(m - {k})
    decreases |m.Keys|
  {
    var j :| j in m && Bytes(m) == |m[j]| + Bytes(m - {j});
    if j != k {
      assert |(m - {j}).Keys| < |m.Keys| by {
        assert m.Keys == (m - {j}).Keys + {j};
      }
      assert |(m - {k}).Keys| < |m.Keys| by {
        assert m.Keys == (m - {k}).Keys + {k};
      }
      BytesRemove(m - {j}, k);
      BytesRemove(m - {k}, j);
      assert m - {j} - {k} == m - {k} - {j};
    }
  }

  /** Replacing or adding one entry changes the total by the sizes involved. */
  lemma BytesUpdate(m: Cache, k: Id, v: Image)
    ensures Bytes(m[k := v]) == Bytes(m - {k}) + |v|
    ensures k in m ==> Bytes(m) == Bytes(m - {k}) + |m[k]|
    ensures k !in m ==> Bytes(m - {k}) == Bytes(m)
  {
    BytesRemove(m[k := v], k);
    assert m[k := v] - {k} == m - {k};
    if k in m {
      BytesRemove(m, k);
    } else {
      assert m - {k} == m;
    }
  }

  /** What one run of the eviction loop may have done: remove the keys
      `evicted`, only while the budget was reached, and stop once the new
      image fits or nothing is left. The key removed last was removed while
      the budget was still reached. */
  ghost predicate Evicts(m: Cache, cur: int, max: nat, size: nat, evicted: set<Id>)
  {
    var rem := m - evicted;
    var curRem := cur - (Bytes(m) - Bytes(rem));
    evicted <= m.Keys &&
    (evicted != {} ==> cur + size >= max) &&
    (rem == map[] || curRem + size < max) &&
    (evicted != {} ==> exists k :: k in evicted && curRem + |m[k]| + size >= max)
  }

  /** `cache_frame` as written: after eviction the new image is inserted and
      its size added, even when it replaces an image already cached under
      the same id. */
  ghost predicate AsWrittenOutcome(m: Cache, cur: int, max: nat, id: Id, img: Image,
                                   evicted: set<Id>, m': Cache, cur': int)
  {
    Evicts(m, cur, max, |img|, evicted) &&
    m' == (m - evicted)[id := img] &&
    cur' == cur - (Bytes(m) - Bytes(m - evicted)) + |img|
  }

  /** The intended `cache_frame`: a replaced image's size is taken off first. */
  ghost predicate CorrectedOutcome(m: Cache, cur: int, max: nat, id: Id, img: Image,
                                   evicted: set<Id>, m': Cache, cur': int)
  {
    var rem := m - evicted;
    Evicts(m, cur, max, |img|, evicted) &&
    m' == rem[id := img] &&
    cur' == cur - (Bytes(m) - Bytes(rem)) - (if id in rem then |rem[id]| else 0) + |img|
  }

  /** One eviction step, seen from the original cache. */
  lemma EvictOne(m: Cache, evicted: set<Id>, id: Id)
    requires id in m - evicted
    ensures (m - evicted) - {id} == m - (evicted + {id})
    ensures (m - evicted)[id] == m[id] && id in m && id !in evicted
    ensures |((m - evicted) - {id}).Keys| < |(m - evicted).Keys|
    ensures Bytes(m - evicted) == |m[id]| + Bytes((m - evicted) - {id})
  {
    var rem := m - evicted;
    BytesRemove(rem, id);
    assert rem.Keys == (rem - {id}).Keys + {id};
  }

  class FrameStorageOptimizer {
    var frameCache: Cache
    var maxCacheBytes: nat
    var currentCacheBytes: nat

    /** The running count never falls below the cached bytes. */
    ghost predicate Valid()
      reads this
    {
      currentCacheBytes >= Bytes(frameCache)
    }

    /** The running count is exactly the cached bytes. */
    ghost predicate Tallied()
      reads this
    {
      currentCacheBytes == Bytes(frameCache)
    }

    /** `new` (and `Default`): an empty cache with a 100 MiB budget. */
    constructor ()
      ensures frameCache == map[] && maxCacheBytes == 100 * MiB && currentCacheBytes == 0
      ensures Valid() && Tallied()
    {
      frameCache := map[];
      maxCacheBytes := 100 * MiB;
      currentCacheBytes := 0;
    }

    /** `with_cache_size`: an empty cache with a budget of `maxCacheMb` MiB. */
    constructor WithCacheSize(maxCacheMb: nat)
      ensures frameCache == map[] && maxCacheBytes == maxCacheMb * MiB && currentCacheBytes == 0
      ensures Valid() && Tallied()
    {
      frameCache := map[];
      maxCacheBytes := maxCacheMb * 1024 * 1024;
      currentCacheBytes := 0;
    }

    /** The eviction loop of `cache_frame`: while the new image would reach
        the budget, drop some cached entry (the map's iteration order is
        unspecified, so any key may go). */
    method EvictFor(size: nat) returns (ghost evicted: set<Id>)
      requires Valid()
      modifies this
      ensures Valid() && (old(Tallied()) ==> Tallied())
      ensures maxCacheBytes == old(maxCacheBytes)
      ensures frameCache == old(frameCache) - evicted
      ensures currentCacheBytes == old(currentCacheBytes) - (Bytes(old(frameCache)) - Bytes(frameCache))
      ensures Evicts(old(frameCache), old(currentCacheBytes), maxCacheBytes, size, evicted)
    {
      evicted := {};
      while currentCacheBytes + size >= maxCacheBytes && frameCache != map[]
        invariant Valid() && (old(Tallied()) ==> Tallied())
        invariant maxCacheBytes == old(maxCacheBytes)
        invariant evicted <= old(frameCache).Keys
        invariant frameCache == old(frameCache) - evicted
        invariant currentCacheBytes == old(currentCacheBytes) - (Bytes(old(frameCache)) - Bytes(frameCache))
        invariant evicted != {} ==> old(currentCacheBytes) + size >= maxCacheBytes
        invariant evicted != {} ==> exists k :: k in evicted && currentCacheBytes + |old(frameCache)[k]| + size >= maxCacheBytes
        decreases |frameCache.Keys|
      {
        var id :| id in frameCache;
        var cached := frameCache[id];
        EvictOne(old(frameCache), evicted, id);
        ghost var before := currentCacheBytes;
        frameCache := frameCache - {id};
        currentCacheBytes := currentCacheBytes - |cached|;
        evicted := evicted + {id};
        assert currentCacheBytes + |old(frameCache)[id]| == before;
        assert id in evicted && currentCacheBytes + |old(frameCache)[id]| + size >= maxCacheBytes;
      }
    }

    /** `cache_frame`, as the program has it. */
    method CacheFrame(frameId: Id, img: Image) returns (ghost evicted: set<Id>)
      requires Valid()
      modifies this
      ensures Valid()
      ensures maxCacheBytes == old(maxCacheBytes)
      ensures frameId in frameCache && frameCache[frameId] == img
      ensures AsWrittenOutcome(old(frameCache), old(currentCacheBytes), maxCacheBytes, frameId, img,
                               evicted, frameCache, currentCacheBytes)
    {
      evicted := EvictFor(|img|);
      BytesUpdate(frameCache, frameId, img);
      frameCache := frameCache[frameId := img];
      currentCacheBytes := currentCacheBytes + |img|;
    }

    /** `cache_frame` with the replaced image's size taken off, which keeps
        the running count equal to the cached bytes. */
    method CacheFrameCorrected(frameId: Id, img: Image) returns (ghost evicted: set<Id>)
      requires Valid()
      modifies this
      ensures Valid() && (old(Tallied()) ==> Tallied())
      ensures maxCacheBytes == old(maxCacheBytes)
      ensures frameId in frameCache && frameCache[frameId] == img
      ensures CorrectedOutcome(old(frameCache), old(currentCacheBytes), maxCacheBytes, frameId, img,
                               evicted, frameCache, currentCacheBytes)
    {
      evicted := EvictFor(|img|);
      BytesUpdate(frameCache, frameId, img);
      if frameId in frameCache {
        currentCacheBytes := currentCacheBytes - |frameCache[frameId]|;
      }
      frameCache := frameCache[frameId := img];
      currentCacheBytes := currentCacheBytes + |img|;
    }

    /** `get_cached_frame`. */
    function GetCachedFrame(frameId: Id): (r: Option<Image>)
      reads this
      ensures r.Some? <==> frameId in frameCache
      ensures r.Some? ==> r.value == frameCache[frameId]
    {
      if frameId in frameCache then Some(frameCache[frameId]) else None
    }

    /** `clear_cache`. */
    method ClearCache()
      modifies this
      ensures frameCache == map[] && currentCacheBytes == 0 && maxCacheBytes == old(maxCacheBytes)
      ensures Valid() && Tallied()
    {
      frameCache := map[];
      currentCacheBytes := 0;
    }
  }

  /** The corrected insertion keeps an exact count exact. */
  lemma CorrectedKeepsTally(m: Cache, cur: int, max: nat, id: Id, img: Image,
                            evicted: set<Id>, m': Cache, cur': int)
    requires cur == Bytes(m)
    requires CorrectedOutcome(m, cur, max, id, img, evicted, m', cur')
    ensures cur' == Bytes(m')
  {
    BytesUpdate(m - evicted, id, img);
  }

  /** The program's insertion over-counts by exactly the size of the image it
      replaces, and never under-counts. */
  lemma AsWrittenDrift(m: Cache, cur: int, max: nat, id: Id, img: Image,
                       evicted: set<Id>, m': Cache, cur': int)
    requires cur >= Bytes(m)
    requires AsWrittenOutcome(m, cur, max, id, img, evicted, m', cur')
    ensures cur' - Bytes(m') == cur - Bytes(m) + (if id in m - evicted then |(m - evicted)[id]| else 0)
  {
    BytesUpdate(m - evicted, id, img);
  }

  /** Caching a one-byte image and then caching two bytes under the same id,
      far below the budget, leaves a count of 3 for 2 cached bytes. */
  lemma CacheDriftExample(a: Id, evicted: set<Id>, m': Cache, cur': int)
    requires AsWrittenOutcome(map[a := [0]], 1, 100, a, [0, 0], evicted, m', cur')
    ensures m' == map[a := [0, 0]] && cur' == 3 && Bytes(m') == 2
  {
    var m: Cache := map[a := [0]];
    var e: Cache := map[];
    BytesUpdate(e, a, [0]);
    assert m == e[a := [0]];
    assert e - {a} == e;
    assert evicted == {};
    assert m - evicted == m;
    BytesUpdate(m, a, [0, 0]);
    assert m - {a} == map[];
    assert m[a := [0, 0]] == map[a := [0, 0]];
  }

  /** An image at least as large as the budget empties the cache and is
      inserted anyway, so the count can exceed the budget. */
  lemma OversizedImageEmptiesCache(m: Cache, cur: int, max: nat, id: Id, img: Image,
                                   evicted: set<Id>, m': Cache, cur': int)
    requires cur >= Bytes(m) && |img| >= max
    requires AsWrittenOutcome(m, cur, max, id, img, evicted, m', cur')
    ensures evicted == m.Keys && m' == map[id := img] && cur' >= max
  {
    var rem := m - evicted;
    assert cur - (Bytes(m) - Bytes(rem)) + |img| >= max;
    assert rem == map[];
    forall k | k in m.Keys
      ensures k in evicted
    {
      assert k !in rem;
    }
    assert evicted == m.Keys;
    assert Bytes(rem) == 0;
    assert m' == map[id := img];
  }

  /** Nothing is evicted while the new image fits under the budget. */
  lemma NoEvictionUnderBudget(m: Cache, cur: int, max: nat, id: Id, img: Image,
                              evicted: set<Id>, m': Cache, cur': int)
    requires cur + |img| < max
    requires AsWrittenOutcome(m, cur, max, id, img, evicted, m', cur')
    ensures m' == m[id := img] && cur' == cur + |img|
  {
    assert evicted == {};
    assert m - evicted == m;
  }

  datatype TemporaryFramesCleaned = TemporaryFramesCleaned(
    videoId: Id, directory: string, framesDeleted: nat, spaceFreedBytes: nat)

  /** `optimize_storage` with its file-system steps as inputs: whether the
      directory exists, its measured size, the compression outcome (new size
      and frame count), the frame count and the cleanup outcome. Each step's
      error is returned as soon as that step is reached. */
  function OptimizeStorage(cmd: Frames.OptimizeStorageCommand, dirExists: bool, originalSize: Result<nat>,
                           compressed: Result<(nat, nat)>, counted: Result<nat>,
                           cleaned: Result<TemporaryFramesCleaned>)
    : (r: Result<(Frames.StorageOptimized, Option<TemporaryFramesCleaned>)>)
    ensures !dirExists ==> r == Err(FrameExtractionFailed("Frames directory not found: " + cmd.framesDir))
    ensures dirExists && originalSize.Ok? && originalSize.value > MaxFrameStorageBytes ==>
      r == Err(InsufficientDiskSpace(10240, originalSize.value / MiB))
    ensures r.Ok? ==> originalSize.Ok? && originalSize.value <= MaxFrameStorageBytes
    ensures r.Ok? ==> r.value.0.originalSizeBytes == originalSize.value
    ensures r.Ok? && cmd.compress ==>
      compressed.Ok? && r.value.0.optimizedSizeBytes == compressed.value.0 && r.value.0.frameCount == compressed.value.1
    ensures r.Ok? && !cmd.compress ==>
      counted.Ok? && r.value.0.optimizedSizeBytes == originalSize.value && r.value.0.frameCount == counted.value
    ensures r.Ok? ==> (r.value.1.Some? <==> cmd.cleanupTemp)
  {
    if !dirExists then Err(FrameExtractionFailed("Frames directory not found: " + cmd.framesDir))
    else if originalSize.Err? then Err(originalSize.error)
    else if originalSize.value > MaxFrameStorageBytes then
      Err(InsufficientDiskSpace(MaxFrameStorageBytes / MiB, originalSize.value / MiB))
    else
      var sizes :=
        if cmd.compress then compressed
        else if counted.Err? then Err(counted.error)
        else Ok((originalSize.value, counted.value));
      if sizes.Err? then Err(sizes.error)
      else
        // `handle_optimize_storage` never fails, so its `?` passes nothing on.
        var optimized := Frames.HandleOptimizeStorage(cmd, originalSize.value, sizes.value.0, sizes.value.1).value;
        if cmd.cleanupTemp then
          (if cleaned.Err? then Err(cleaned.error) else Ok((optimized, Some(cleaned.value))))
        else Ok((optimized, None))
  }

  /** An over-size frames directory is refused whatever compression or
      cleanup would have produced. */
  lemma OversizeRefusedBeforeCompression(cmd: Frames.OptimizeStorageCommand, size: nat,
                                         c1: Result<(nat, nat)>, c2: Result<(nat, nat)>,
                                         n1: Result<nat>, n2: Result<nat>,
                                         t1: Result<TemporaryFramesCleaned>, t2: Result<TemporaryFramesCleaned>)
    requires size > MaxFrameStorageBytes
    ensures OptimizeStorage(cmd, true, Ok(size), c1, n1, t1) == OptimizeStorage(cmd, true, Ok(size), c2, n2, t2)
    ensures OptimizeStorage(cmd, true, Ok(size), c1, n1, t1).Err?
  {
  }
}
