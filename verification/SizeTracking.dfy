/** Per-item byte estimates with a running total (size_tracking.py). */
module SizeTracking {
  import opened MapSums

  function SizeOf<K>(entry: K, size: int): int { size }

  class SizeTracker<K(==)> {
    var entries: map<K, int>
    var totalBytes: int

    /** The running total is the sum of the entries, none of them negative. */
    ghost predicate Valid()
      reads this
    {
      && totalBytes == SumOver(entries, SizeOf<K>)
      && forall k :: k in entries ==> 0 <= entries[k]
    }

    constructor ()
      ensures Valid() && entries == map[]
    {
      entries, totalBytes := map[], 0;
    }

    method SetSize(entry: K, sizeBytes: int)
      requires Valid()
      modifies this
      ensures Valid()
      ensures entries == old(entries)[entry := if sizeBytes < 0 then 0 else sizeBytes]
    {
      var size := if sizeBytes < 0 then 0 else sizeBytes;
      var oldSize := if entry in entries then entries[entry] else 0;
      SumUpdate(entries, SizeOf<K>, entry, size);
      entries := entries[entry := size];
      totalBytes := totalBytes + (size - oldSize);
    }

    method Remove(entry: K) returns (sizeBytes: int)
      requires Valid()
      modifies this
      ensures Valid()
      ensures entries == old(entries) - {entry}
      ensures sizeBytes == if entry in old(entries) then old(entries)[entry] else 0
      ensures totalBytes == old(totalBytes) - sizeBytes
    {
      sizeBytes := if entry in entries then entries[entry] else 0;
      if entry in entries {
        SumRemove(entries, SizeOf<K>, entry);
      } else {
        assert entries - {entry} == entries;
      }
      entries := entries - {entry};
      totalBytes := totalBytes - sizeBytes;
    }

    method Clear()
      modifies this
      ensures Valid() && entries == map[]
    {
      entries, totalBytes := map[], 0;
    }
  }
}
