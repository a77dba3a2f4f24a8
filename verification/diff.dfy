/**
 * Comparison of two asset mappings (attackdiff/diff.py). The program reads
 * only `ports` and `host` of each asset, so the mappings are given as the
 * assets' values.
 */
module Diff {
  import opened SortedSets
  import opened Assets

  /** The record emitted for a host present in both mappings whose port set moved. */
  datatype Change = Change(host: string, portsAdded: seq<int>, portsRemoved: seq<int>)

  /**
   * The three parts of the result. The program returns lists in set-iteration
   * order; here each part is keyed by the asset id it was computed for.
   */
  datatype DiffResult = DiffResult(
    newAssets: map<string, AssetValue>,
    missingAssets: map<string, AssetValue>,
    changedAssets: map<string, Change>)

  /** The port deltas between two observations of one id, each sorted. */
  function PortChange(before: AssetValue, after: AssetValue): (c: Change)
    ensures c.host == after.host
    ensures StrictlyAscending(c.portsAdded, IntLess)
    ensures Elems(c.portsAdded) == Elems(after.ports) - Elems(before.ports)
    ensures StrictlyAscending(c.portsRemoved, IntLess)
    ensures Elems(c.portsRemoved) == Elems(before.ports) - Elems(after.ports)
    ensures Elems(c.portsAdded) !! Elems(c.portsRemoved)
    ensures (c.portsAdded == [] && c.portsRemoved == []) <==> Elems(before.ports) == Elems(after.ports)
  {
    var added := SortedInts(Without(after.ports, before.ports));
    var removed := SortedInts(Without(before.ports, after.ports));
    ElemsEmpty(added);
    ElemsEmpty(removed);
    Change(after.host, added, removed)
  }

  /** `if ports_added or ports_removed`: a change record is emitted. */
  predicate Moved(c: Change) {
    c.portsAdded != [] || c.portsRemoved != []
  }

  function DiffAssets(oldAssets: map<string, AssetValue>, newAssets: map<string, AssetValue>): (r: DiffResult)
    ensures r.newAssets.Keys == newAssets.Keys - oldAssets.Keys
    ensures forall id :: id in r.newAssets ==> r.newAssets[id] == newAssets[id]
    ensures r.missingAssets.Keys == oldAssets.Keys - newAssets.Keys
    ensures forall id :: id in r.missingAssets ==> r.missingAssets[id] == oldAssets[id]
    ensures r.changedAssets.Keys <= oldAssets.Keys * newAssets.Keys
    ensures forall id :: id in oldAssets && id in newAssets ==>
              (id in r.changedAssets <==> Elems(oldAssets[id].ports) != Elems(newAssets[id].ports))
    ensures forall id :: id in r.changedAssets ==> r.changedAssets[id] == PortChange(oldAssets[id], newAssets[id])
  {
    var common := oldAssets.Keys * newAssets.Keys;
    DiffResult(
      map id | id in newAssets.Keys - oldAssets.Keys :: newAssets[id],
      map id | id in oldAssets.Keys - newAssets.Keys :: oldAssets[id],
      map id | id in common && Moved(PortChange(oldAssets[id], newAssets[id]))
        :: PortChange(oldAssets[id], newAssets[id]))
  }

  /**
   * Every id of either mapping is reported in exactly one way: new, missing,
   * or present in both (and then changed or not).
   */
  lemma DiffPartitions(oldAssets: map<string, AssetValue>, newAssets: map<string, AssetValue>, id: string)
    requires id in oldAssets.Keys + newAssets.Keys
    ensures var r := DiffAssets(oldAssets, newAssets);
      && (id in r.newAssets <==> id !in oldAssets)
      && (id in r.missingAssets <==> id !in newAssets)
      && !(id in r.newAssets && id in r.missingAssets)
      && (id in r.changedAssets ==> id !in r.newAssets && id !in r.missingAssets)
  {
  }

  /** The first scan ever: everything is new, nothing is missing or changed. */
  lemma DiffFromEmpty(newAssets: map<string, AssetValue>)
    ensures DiffAssets(map[], newAssets) == DiffResult(newAssets, map[], map[])
  {
  }

  /** Assets that differ only in services, sources, ip or timestamps produce no change record. */
  lemma DiffIgnoresAllButPorts(oldAssets: map<string, AssetValue>, newAssets: map<string, AssetValue>, id: string)
    requires id in oldAssets && id in newAssets
    requires Elems(oldAssets[id].ports) == Elems(newAssets[id].ports)
    ensures id !in DiffAssets(oldAssets, newAssets).changedAssets
  {
  }

  /** Comparing a mapping with itself reports nothing. */
  lemma DiffWithItselfIsEmpty(assets: map<string, AssetValue>)
    ensures DiffAssets(assets, assets) == DiffResult(map[], map[], map[])
  {
  }

  /**
   * Comparing in the other direction swaps new and missing, reports the same
   * changed ids, and swaps each record's added and removed ports.
   */
  lemma DiffReversed(oldAssets: map<string, AssetValue>, newAssets: map<string, AssetValue>)
    ensures var forward, backward := DiffAssets(oldAssets, newAssets), DiffAssets(newAssets, oldAssets);
      && backward.newAssets == forward.missingAssets
      && backward.missingAssets == forward.newAssets
      && backward.changedAssets.Keys == forward.changedAssets.Keys
      && forall id :: id in forward.changedAssets ==>
           && backward.changedAssets[id].portsAdded == forward.changedAssets[id].portsRemoved
           && backward.changedAssets[id].portsRemoved == forward.changedAssets[id].portsAdded
  {
  }
}
