/**
 * One discovered host and its observed attributes (attackdiff/asset.py).
 * `Asset` is the mutable object the program passes around; `AssetValue`
 * is the value of its fields at one moment, on which merge, the diff and
 * the serialised form are specified.
 */
module Assets {
  import opened Wrappers
  import opened SortedSets

  /** An ISO-8601 instant as produced by the caller's clock; the model never looks inside. */
  type Timestamp = string

  datatype AssetValue = AssetValue(
    id: string,
    host: string,
    ip: Option<string>,
    ports: seq<int>,
    services: seq<string>,
    sources: seq<string>,
    firstSeen: Timestamp,
    lastSeen: Timestamp)

  /**
   * The dictionary `to_dict` builds and `from_dict` reads. `None` stands for a
   * key that is absent; for "ip", "ports", "services" and "sources" a JSON null
   * reads the same way.
   */
  datatype AssetRecord = AssetRecord(
    id: Option<string>,
    host: Option<string>,
    ip: Option<string>,
    ports: Option<seq<int>>,
    services: Option<seq<string>>,
    sources: Option<seq<string>>,
    firstSeen: Option<Timestamp>,
    lastSeen: Option<Timestamp>)

  /** `from_dict` reads `data["host"]`, which raises when the key is absent. */
  datatype RecordError = MissingHost

  /** Python truthiness of an optional string: present and non-empty. */
  predicate Truthy(ip: Option<string>) {
    ip.Some? && ip.value != ""
  }

  /**
   * The fields of an asset after it has merged another observation `b` at time `now`.
   */
  function Merged(a: AssetValue, b: AssetValue, now: Timestamp): (r: AssetValue)
    ensures r.id == a.id && r.host == a.host && r.firstSeen == a.firstSeen
    ensures r.lastSeen == now
    ensures r.ip == (if Truthy(b.ip) then b.ip else a.ip)
    ensures StrictlyAscending(r.ports, IntLess)
    ensures Elems(r.ports) == Elems(a.ports) + Elems(b.ports)
    ensures StrictlyAscending(r.services, StrLess)
    ensures Elems(r.services) == Elems(a.services) + Elems(b.services)
    ensures StrictlyAscending(r.sources, StrLess)
    ensures Elems(r.sources) == Elems(a.sources) + Elems(b.sources)
  {
    ElemsConcat(a.ports, b.ports);
    ElemsConcat(a.services, b.services);
    ElemsConcat(a.sources, b.sources);
    AssetValue(
      a.id,
      a.host,
      if Truthy(b.ip) then b.ip else a.ip,
      SortedInts(a.ports + b.ports),
      SortedStrings(a.services + b.services),
      SortedStrings(a.sources + b.sources),
      a.firstSeen,
      now)
  }

  /**
   * The asset `from_dict` rebuilds from a stored record at time `now`: the
   * identity comes from "host", absent lists are empty, absent timestamps
   * are `now`.
   */
  function Restored(data: AssetRecord, now: Timestamp): (r: Result<AssetValue, RecordError>)
    ensures r.Failure? <==> data.host.None?
    ensures r.Success? ==> r.value.id == r.value.host == data.host.value
    ensures r.Success? ==> r.value.ip == data.ip
    ensures r.Success? && data.ports.Some? ==> r.value.ports == data.ports.value
    ensures r.Success? && data.ports.None? ==> r.value.ports == []
    ensures r.Success? && data.services.Some? ==> r.value.services == data.services.value
    ensures r.Success? && data.services.None? ==> r.value.services == []
    ensures r.Success? && data.sources.Some? ==> r.value.sources == data.sources.value
    ensures r.Success? && data.sources.None? ==> r.value.sources == []
    ensures r.Success? ==> r.value.firstSeen == (if data.firstSeen.Some? then data.firstSeen.value else now)
    ensures r.Success? ==> r.value.lastSeen == (if data.lastSeen.Some? then data.lastSeen.value else now)
  {
    match data.host
    case None => Failure(MissingHost)
    case Some(host) =>
      Success(AssetValue(
        host,
        host,
        data.ip,
        data.ports.GetOr([]),
        data.services.GetOr([]),
        data.sources.GetOr([]),
        data.firstSeen.GetOr(now),
        data.lastSeen.GetOr(now)))
  }

  class Asset {
    var id: string
    var host: string
    var ip: Option<string>
    var ports: seq<int>
    var services: seq<string>
    var sources: seq<string>
    var firstSeen: Timestamp
    var lastSeen: Timestamp

    /** The asset's fields as a value. */
    function Value(): AssetValue
      reads this
    {
      AssetValue(id, host, ip, ports, services, sources, firstSeen, lastSeen)
    }

    /** A fresh observation at time `now`; absent lists become empty, given ones are kept as they are. */
    constructor (
      host: string,
      ip: Option<string>,
      ports: Option<seq<int>>,
      services: Option<seq<string>>,
      sources: Option<seq<string>>,
      now: Timestamp)
      ensures id == host && this.host == host && this.ip == ip
      ensures this.ports == ports.GetOr([])
      ensures this.services == services.GetOr([])
      ensures this.sources == sources.GetOr([])
      ensures firstSeen == now && lastSeen == now
    {
      id := host;
      this.host := host;
      this.ip := ip;
      this.ports := ports.GetOr([]);
      this.services := services.GetOr([]);
      this.sources := sources.GetOr([]);
      firstSeen := now;
      lastSeen := now;
    }

    /** The asset was observed again at `now`. */
    method UpdateSeen(now: Timestamp)
      modifies this`lastSeen
      ensures lastSeen == now
    {
      lastSeen := now;
    }

    /** Folds another observation of the same host into this one, at time `now`. */
    method Merge(other: Asset, now: Timestamp)
      modifies this
      ensures Value() == Merged(old(Value()), old(other.Value()), now)
    {
      if Truthy(other.ip) {
        ip := other.ip;
      }
      ports := SortedInts(ports + other.ports);
      services := SortedStrings(services + other.services);
      sources := SortedStrings(sources + other.sources);
      UpdateSeen(now);
    }

    /** The record `save` writes for this asset: every field under its own key. */
    function ToDict(): (r: AssetRecord)
      reads this
      ensures r.id == Some(id)
      ensures forall now :: Restored(r, now) == Success(Value().(id := host))
    {
      AssetRecord(
        Some(id),
        Some(host),
        ip,
        Some(ports),
        Some(services),
        Some(sources),
        Some(firstSeen),
        Some(lastSeen))
    }

    /** Rebuilds an asset from a stored record, taking the timestamps from the record when present. */
    static method FromDict(data: AssetRecord, now: Timestamp) returns (r: Result<Asset, RecordError>)
      ensures r.Failure? <==> data.host.None?
      ensures r.Success? ==> fresh(r.value) && Restored(data, now) == Success(r.value.Value())
    {
      if data.host.None? {
        return Failure(MissingHost);
      }
      var asset := new Asset(data.host.value, data.ip, data.ports, data.services, data.sources, now);
      asset.firstSeen := data.firstSeen.GetOr(asset.firstSeen);
      asset.lastSeen := data.lastSeen.GetOr(asset.lastSeen);
      return Success(asset);
    }
  }

  /**
   * `from_dict(to_dict(a))` gives back every field of `a`, except that the
   * identity is rebuilt from the host.
   */
  lemma ToDictRoundTrip(a: Asset, now: Timestamp)
    ensures Restored(a.ToDict(), now) == Success(a.Value().(id := a.host))
  {
  }

  /** Merging is commutative on the three lists. */
  lemma MergeCommutesOnLists(a: AssetValue, b: AssetValue, t1: Timestamp, t2: Timestamp)
    ensures Merged(a, b, t1).ports == Merged(b, a, t2).ports
    ensures Merged(a, b, t1).services == Merged(b, a, t2).services
    ensures Merged(a, b, t1).sources == Merged(b, a, t2).sources
  {
    IntLessIsStrictTotal();
    StrLessIsStrictTotal();
    var ab, ba := Merged(a, b, t1), Merged(b, a, t2);
    AscendingUnique(ab.ports, ba.ports, IntLess);
    AscendingUnique(ab.services, ba.services, StrLess);
    AscendingUnique(ab.sources, ba.sources, StrLess);
  }

  /** Merging the same observation a second time changes nothing but `lastSeen`. */
  lemma MergeTwiceChangesOnlyLastSeen(a: AssetValue, b: AssetValue, t1: Timestamp, t2: Timestamp)
    ensures Merged(Merged(a, b, t1), b, t2) == Merged(a, b, t1).(lastSeen := t2)
  {
    IntLessIsStrictTotal();
    StrLessIsStrictTotal();
    var once := Merged(a, b, t1);
    var twice := Merged(once, b, t2);
    AscendingUnique(twice.ports, once.ports, IntLess);
    AscendingUnique(twice.services, once.services, StrLess);
    AscendingUnique(twice.sources, once.sources, StrLess);
  }
}
