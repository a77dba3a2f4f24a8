/**
 * The in-memory asset table backed by one JSON file (attackdiff/storage.py).
 * Reading and writing the file are outside the model: `Load` is given the
 * file's state, already decoded.
 */
module Storage {
  import opened Wrappers
  import opened Assets

  /** What `load` finds at the storage path. */
  datatype StoredFile =
    | Missing
    | Empty
      /** A non-empty file holding a JSON object of asset records keyed by asset id. */
    | Json(entries: map<string, AssetRecord>)

  class AssetStorage {
    const path: string
    var assets: map<string, Asset>

    constructor (path: string)
      ensures this.path == path && assets == map[]
    {
      this.path := path;
      assets := map[];
    }

    /**
     * Replaces the table with the file's contents. A missing or zero-byte file
     * gives an empty table; a record without "host" aborts the load and leaves
     * the table as it was. Entries are keyed by the file's keys, not by the
     * rebuilt assets' ids.
     */
    method Load(file: StoredFile, now: Timestamp) returns (r: Outcome<RecordError>)
      modifies this
      ensures !file.Json? ==> r.Pass? && assets == map[]
      ensures file.Json? ==> (r.Pass? <==> forall id :: id in file.entries ==> file.entries[id].host.Some?)
      ensures r.Fail? ==> assets == old(assets)
      ensures r.Pass? && file.Json? ==>
        && assets.Keys == file.entries.Keys
        && forall id :: id in assets ==>
             fresh(assets[id]) && Restored(file.entries[id], now) == Success(assets[id].Value())
      ensures r.Pass? ==> forall a, b :: a in assets && b in assets && a != b ==> assets[a] != assets[b]
    {
      if file.Missing? || file.Empty? {
        assets := map[];
        return Pass;
      }
      var entries := file.entries;
      var loaded: map<string, Asset> := map[];
      var pending := entries.Keys;
      while pending != {}
        invariant pending <= entries.Keys
        invariant assets == old(assets)
        invariant loaded.Keys == entries.Keys - pending
        invariant forall id :: id in loaded ==>
          fresh(loaded[id]) && Restored(entries[id], now) == Success(loaded[id].Value())
        invariant forall a, b :: a in loaded && b in loaded && a != b ==> loaded[a] != loaded[b]
        decreases pending
      {
        var id :| id in pending;
        var restored := Asset.FromDict(entries[id], now);
        if restored.Failure? {
          return Fail(restored.error);
        }
        loaded := loaded[id := restored.value];
        pending := pending - {id};
      }
      assets := loaded;
      return Pass;
    }

    /**
     * Inserts `asset` under its id, or replaces the entry already there. On
     * replacement the new asset takes over the old entry's `firstSeen`; the old
     * entry's lists are dropped, not merged.
     */
    method Upsert(asset: Asset)
      modifies this, asset`firstSeen, asset`lastSeen
      ensures assets == old(assets)[asset.id := asset]
      ensures asset.Value() == old(asset.Value()).(firstSeen :=
        if asset.id in old(assets) then old(assets[asset.id].firstSeen) else old(asset.firstSeen))
    {
      var existing := if asset.id in assets then Some(assets[asset.id]) else None;
      if existing.Some? {
        asset.firstSeen := existing.value.firstSeen;
        asset.lastSeen := asset.lastSeen;
        assets := assets[asset.id := asset];
      } else {
        assets := assets[asset.id := asset];
      }
    }
  }
}
