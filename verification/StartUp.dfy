/**
 The start-up order of a serving process, on the objects it creates.
 */
module StartUp {
  import opened Values
  import opened Evaluation
  import opened FlagCaches
  import opened Writes
  import opened Replicas
  import opened Protocol
  import opened Coherence

  /**
   `lifespan` up to the point where requests are accepted: the rows are loaded and installed before
   the listener exists, so the cache is complete and ready and nothing has been received yet.
   */
  method Lifespan(rows: Rows, listing: seq<Row>) returns (cache: FlagCache, listener: Listener)
    requires WellKeyed(rows) && IsListing(listing, rows)
    ensures cache.State() == CacheState(map k | k in rows :: SnapshotOf(rows[k]), 1, true)
    ensures Keyed(cache.flags)
    ensures forall k | k in rows ::
      var f, row := cache.flags[k], rows[k];
      && f.id == Some(row.id) && f.key == Some(k) && f.name == Some(row.name) && f.flagType == Some(row.flagType)
      && f.defaultValue == Some(row.defaultValue) && f.environments == Some(row.environments)
      && f.version == Some(row.version)
    ensures listener.cache == cache && listener.State() == NOT_LISTENING
  {
    LoadedSnapshots(rows, listing);
    var loaded: seq<FlagDict> := [];
    for i := 0 to |listing|
      invariant |loaded| == i && forall j | 0 <= j < i :: loaded[j] == SnapshotOf(listing[j])
    {
      loaded := loaded + [SnapshotOf(listing[i])];
    }
    assert loaded == Snapshots(listing);
    cache := new FlagCache();
    var ok := cache.WarmUp(loaded);
    assert ok;
    assert cache.flags == map k | k in rows :: SnapshotOf(rows[k]);
    listener := new Listener(cache);
  }
}
