/**
 * The parser of nmap's grepable output (`NmapScanner._parse_output` in
 * attackdiff/scanners/nmap.py). `Collect` and `Parse` specify it line by
 * line; `ParseOutput` is the program's loop over lines and entries.
 */
module Nmap {
  import opened Wrappers
  import opened SortedSets
  import opened Text
  import opened Assets

  /** A `Host:` line without a second token: `parts[1]` raises IndexError. */
  datatype ParseError = MissingAddress

  /** The ports and services gathered for one address, in the order they were appended. */
  datatype Observed = Observed(ports: seq<int>, services: seq<string>)

  predicate IsHostLine(line: string) {
    StartsWith(line, "Host:")
  }

  predicate HasAddress(line: string) {
    |Words(line)| >= 2
  }

  /** The key of a `Host:` line: its second whitespace-separated token. */
  function Address(line: string): string
    requires HasAddress(line)
  {
    Words(line)[1]
  }

  /** The comma-separated entries after the first `Ports:`, up to the next one; none when absent. */
  function PortEntries(line: string): seq<string> {
    if !Contains(line, "Ports:") then []
    else
      ContainsIffSplits(line, "Ports:");
      SplitOn(SplitOn(line, "Ports:")[1], ",")
  }

  /** The `/`-separated fields of one entry. */
  function Fields(entry: string): seq<string> {
    SplitOn(Strip(entry), "/")
  }

  /** An entry yields a port when it has five fields, is `open` and its port field is a number. */
  predicate Accepted(fields: seq<string>) {
    |fields| >= 5 && fields[1] == "open" && IsDecimal(fields[0])
  }

  predicate KeepsService(service: string) {
    service != "" && service != "?"
  }

  /** The ports appended for `entries`, in order. */
  function EntryPorts(entries: seq<string>): (r: seq<int>)
    ensures forall i :: 0 <= i < |r| ==> r[i] >= 0
    decreases |entries|
  {
    if entries == [] then []
    else
      var fields := Fields(entries[|entries| - 1]);
      EntryPorts(entries[..|entries| - 1]) + if Accepted(fields) then [DecimalValue(fields[0]) as int] else []
  }

  /** The services appended for `entries`, in order. */
  function EntryServices(entries: seq<string>): (r: seq<string>)
    ensures forall i :: 0 <= i < |r| ==> KeepsService(r[i])
    decreases |entries|
  {
    if entries == [] then []
    else
      var fields := Fields(entries[|entries| - 1]);
      EntryServices(entries[..|entries| - 1])
        + if Accepted(fields) && KeepsService(fields[4]) then [fields[4]] else []
  }

  /** What a `Host:` line appends to its address's lists. */
  function Grown(before: Observed, line: string): Observed {
    var entries := PortEntries(line);
    Observed(before.ports + EntryPorts(entries), before.services + EntryServices(entries))
  }

  /** The lists gathered for `ip` so far: none before its first `Host:` line. */
  function SeenFor(seen: map<string, Observed>, ip: string): Observed {
    if ip in seen then seen[ip] else Observed([], [])
  }

  /** What one line adds to the assets gathered so far. */
  function Observe(seen: map<string, Observed>, line: string): (r: Result<map<string, Observed>, ParseError>)
    ensures r.Failure? <==> IsHostLine(line) && !HasAddress(line)
  {
    if !IsHostLine(line) then Success(seen)
    else if !HasAddress(line) then Failure(MissingAddress)
    else
      var ip := Address(line);
      Success(seen[ip := Grown(SeenFor(seen, ip), line)])
  }

  /**
   * A line adds at most its own address, whose lists only grow at the end;
   * every other address keeps its lists.
   */
  lemma ObserveOnlyAppends(seen: map<string, Observed>, line: string)
    requires Observe(seen, line).Success?
    ensures Observe(seen, line).value.Keys == seen.Keys + if IsHostLine(line) then {Address(line)} else {}
    ensures forall ip :: ip in seen ==>
      && seen[ip].ports <= Observe(seen, line).value[ip].ports
      && seen[ip].services <= Observe(seen, line).value[ip].services
    ensures forall ip :: ip in seen && !(IsHostLine(line) && ip == Address(line)) ==>
      Observe(seen, line).value[ip] == seen[ip]
  {
  }

  /** The assets gathered from `lines`, before deduplication. */
  function Collect(lines: seq<string>): (r: Result<map<string, Observed>, ParseError>)
    ensures r.Success? ==> forall ip, s :: ip in r.value && s in r.value[ip].services ==> KeepsService(s)
    decreases |lines|
  {
    if lines == [] then Success(map[])
    else
      match Collect(lines[..|lines| - 1])
      case Failure(e) => Failure(e)
      case Success(seen) => Observe(seen, lines[|lines| - 1])
  }

  /** An address's asset while lines are still being read. */
  function Started(ip: string, o: Observed, now: Timestamp): AssetValue {
    AssetValue(ip, ip, Some(ip), o.ports, o.services, ["nmap"], now, now)
  }

  /** An address's asset once its ports and services are deduplicated and sorted. */
  function Finished(ip: string, o: Observed, now: Timestamp): AssetValue {
    AssetValue(ip, ip, Some(ip), SortedInts(o.ports), SortedStrings(o.services), ["nmap"], now, now)
  }

  /** The assets the parser returns for `output`, every clock reading being `now`. */
  function Parse(output: string, now: Timestamp): (r: Result<map<string, AssetValue>, ParseError>)
    ensures r.Failure? <==> Collect(SplitLines(output)).Failure?
    ensures r.Success? ==> r.value.Keys == Collect(SplitLines(output)).value.Keys
    ensures r.Success? ==> forall ip :: ip in r.value ==>
      var a, o := r.value[ip], Collect(SplitLines(output)).value[ip];
      && a.id == ip && a.host == ip && a.ip == Some(ip) && a.sources == ["nmap"]
      && a.firstSeen == now && a.lastSeen == now
      && StrictlyAscending(a.ports, IntLess) && Elems(a.ports) == Elems(o.ports)
      && StrictlyAscending(a.services, StrLess) && Elems(a.services) == Elems(o.services)
  {
    match Collect(SplitLines(output))
    case Failure(e) => Failure(e)
    case Success(seen) => Success(map ip | ip in seen :: Finished(ip, seen[ip], now))
  }

  /** The addresses of the well-formed `Host:` lines. */
  ghost function HostAddresses(lines: seq<string>): set<string> {
    set i | 0 <= i < |lines| && IsHostLine(lines[i]) && HasAddress(lines[i]) :: Address(lines[i])
  }

  /** The `Host:` lines of `lines`, in order. */
  function HostLines(lines: seq<string>): seq<string>
    decreases |lines|
  {
    if lines == [] then []
    else HostLines(lines[..|lines| - 1]) + if IsHostLine(lines[|lines| - 1]) then [lines[|lines| - 1]] else []
  }

  /** The ports an entry list yields. */
  ghost function AcceptedPorts(entries: seq<string>): set<int> {
    set e | e in entries && Accepted(Fields(e)) :: DecimalValue(Fields(e)[0]) as int
  }

  /** The services an entry list yields: those of accepted entries, without `""` and `"?"`. */
  ghost function AcceptedServices(entries: seq<string>): set<string> {
    set e | e in entries && Accepted(Fields(e)) && KeepsService(Fields(e)[4]) :: Fields(e)[4]
  }

  /** Parsing fails exactly when some `Host:` line has no second token. */
  lemma {:induction false} CollectFailsIff(lines: seq<string>)
    ensures Collect(lines).Failure? <==>
      exists i :: 0 <= i < |lines| && IsHostLine(lines[i]) && !HasAddress(lines[i])
    decreases |lines|
  {
    if lines != [] {
      var init := lines[..|lines| - 1];
      CollectFailsIff(init);
      assert forall i :: 0 <= i < |init| ==> init[i] == lines[i];
    }
  }

  /** The addresses of the well-formed `Host:` lines of one more line. */
  lemma HostAddressesStep(lines: seq<string>)
    requires lines != []
    ensures var last := lines[|lines| - 1];
      HostAddresses(lines) ==
        HostAddresses(lines[..|lines| - 1]) + if IsHostLine(last) && HasAddress(last) then {Address(last)} else {}
  {
  }

  /** The addresses found are exactly the second tokens of the `Host:` lines. */
  lemma {:induction false} CollectKeys(lines: seq<string>)
    requires Collect(lines).Success?
    ensures Collect(lines).value.Keys == HostAddresses(lines)
    decreases |lines|
  {
    if lines != [] {
      var init := lines[..|lines| - 1];
      var last := lines[|lines| - 1];
      assert Collect(init).Success?;
      CollectKeys(init);
      HostAddressesStep(lines);
    }
  }

  /** Lines that do not start with `Host:` contribute nothing. */
  lemma {:induction false} OnlyHostLinesCount(lines: seq<string>)
    ensures Collect(lines) == Collect(HostLines(lines))
    decreases |lines|
  {
    if lines != [] {
      var init := lines[..|lines| - 1];
      var last := lines[|lines| - 1];
      OnlyHostLinesCount(init);
      assert lines[..|lines| - 1] == init;
      if IsHostLine(last) {
        var hosts := HostLines(init) + [last];
        assert HostLines(lines) == hosts;
        assert hosts[..|hosts| - 1] == HostLines(init);
        assert Collect(hosts) == match Collect(HostLines(init))
          case Failure(e) => Failure(e)
          case Success(seen) => Observe(seen, last);
      } else {
        assert HostLines(lines) == HostLines(init);
      }
    }
  }

  /** The ports collected from an entry list are exactly those of its accepted entries. */
  lemma {:induction false} EntryPortsExact(entries: seq<string>)
    ensures Elems(EntryPorts(entries)) == AcceptedPorts(entries)
    decreases |entries|
  {
    if entries != [] {
      var init := entries[..|entries| - 1];
      var last := entries[|entries| - 1];
      EntryPortsExact(init);
      assert entries == init + [last];
      ElemsConcat(EntryPorts(init), if Accepted(Fields(last)) then [DecimalValue(Fields(last)[0]) as int] else []);
      assert AcceptedPorts(entries) == AcceptedPorts(init) + AcceptedPorts([last]);
    }
  }

  /** The services collected from an entry list are exactly those its accepted entries name. */
  lemma {:induction false} EntryServicesExact(entries: seq<string>)
    ensures Elems(EntryServices(entries)) == AcceptedServices(entries)
    decreases |entries|
  {
    if entries != [] {
      var init := entries[..|entries| - 1];
      var last := entries[|entries| - 1];
      EntryServicesExact(init);
      assert entries == init + [last];
      ElemsConcat(EntryServices(init),
        if Accepted(Fields(last)) && KeepsService(Fields(last)[4]) then [Fields(last)[4]] else []);
      assert AcceptedServices(entries) == AcceptedServices(init) + AcceptedServices([last]);
    }
  }

  /**
   * A `Host:` line without `Ports:` still creates its address's asset, with
   * no ports and no services, and otherwise changes nothing.
   */
  lemma PortlessHostLineCreatesAsset(seen: map<string, Observed>, line: string)
    requires IsHostLine(line) && HasAddress(line) && !Contains(line, "Ports:")
    ensures Observe(seen, line) == Success(seen[Address(line) := SeenFor(seen, Address(line))])
    ensures Address(line) !in seen ==> Observe(seen, line) == Success(seen[Address(line) := Observed([], [])])
  {
    var o := SeenFor(seen, Address(line));
    assert PortEntries(line) == [];
    assert EntryPorts([]) == [] && EntryServices([]) == [];
    assert o.ports + [] == o.ports && o.services + [] == o.services;
  }

  /** What one line says about `ip`: the ports of its accepted entries when it is a `Host:` line of `ip`. */
  ghost function LinePorts(line: string, ip: string): set<int> {
    if IsHostLine(line) && HasAddress(line) && Address(line) == ip then AcceptedPorts(PortEntries(line)) else {}
  }

  /** What one line says about `ip`: the services of its accepted entries when it is a `Host:` line of `ip`. */
  ghost function LineServices(line: string, ip: string): set<string> {
    if IsHostLine(line) && HasAddress(line) && Address(line) == ip then AcceptedServices(PortEntries(line)) else {}
  }

  /** The union, over all lines, of the ports each line names for `ip`. */
  ghost function PortsFor(lines: seq<string>, ip: string): set<int>
    decreases |lines|
  {
    if lines == [] then {} else PortsFor(lines[..|lines| - 1], ip) + LinePorts(lines[|lines| - 1], ip)
  }

  /** The union, over all lines, of the services each line names for `ip`. */
  ghost function ServicesFor(lines: seq<string>, ip: string): set<string>
    decreases |lines|
  {
    if lines == [] then {} else ServicesFor(lines[..|lines| - 1], ip) + LineServices(lines[|lines| - 1], ip)
  }

  /** An address without a `Host:` line has no ports and no services. */
  lemma {:induction false} ForAbsent(lines: seq<string>, ip: string)
    requires ip !in HostAddresses(lines)
    ensures PortsFor(lines, ip) == {} && ServicesFor(lines, ip) == {}
    decreases |lines|
  {
    if lines != [] {
      HostAddressesStep(lines);
      ForAbsent(lines[..|lines| - 1], ip);
    }
  }

  /**
   * The ports and services collected for an address are exactly those named
   * by the accepted entries of all of its `Host:` lines.
   */
  lemma {:induction false} CollectedExact(lines: seq<string>)
    requires Collect(lines).Success?
    ensures forall ip :: ip in Collect(lines).value ==>
      && Elems(Collect(lines).value[ip].ports) == PortsFor(lines, ip)
      && Elems(Collect(lines).value[ip].services) == ServicesFor(lines, ip)
    decreases |lines|
  {
    if lines != [] {
      var init, last := lines[..|lines| - 1], lines[|lines| - 1];
      assert Collect(init).Success?;
      var seen := Collect(init).value;
      CollectedExact(init);
      CollectKeys(init);
      forall ip | ip in Collect(lines).value
        ensures Elems(Collect(lines).value[ip].ports) == PortsFor(lines, ip)
        ensures Elems(Collect(lines).value[ip].services) == ServicesFor(lines, ip)
      {
        if IsHostLine(last) && Address(last) == ip {
          var o := SeenFor(seen, ip);
          var entries := PortEntries(last);
          if ip !in seen {
            ForAbsent(init, ip);
          }
          ElemsConcat(o.ports, EntryPorts(entries));
          ElemsConcat(o.services, EntryServices(entries));
          EntryPortsExact(entries);
          EntryServicesExact(entries);
        }
      }
    }
  }

  /** The keys of a successful parse are the addresses of the `Host:` lines. */
  lemma ParseKeys(output: string, now: Timestamp)
    requires Parse(output, now).Success?
    ensures Parse(output, now).value.Keys == HostAddresses(SplitLines(output))
  {
    CollectKeys(SplitLines(output));
  }

  /**
   * Every parsed asset holds, sorted and without repetition, exactly the ports
   * and services that the accepted entries of its address's `Host:` lines name.
   */
  lemma ParseExact(output: string, now: Timestamp)
    requires Parse(output, now).Success?
    ensures forall ip :: ip in Parse(output, now).value ==>
      && Elems(Parse(output, now).value[ip].ports) == PortsFor(SplitLines(output), ip)
      && Elems(Parse(output, now).value[ip].services) == ServicesFor(SplitLines(output), ip)
  {
    CollectedExact(SplitLines(output));
  }

  /** No asset object is shared by two addresses. */
  ghost predicate Distinct(assets: map<string, Asset>) {
    forall a, b :: a in assets && b in assets && a != b ==> assets[a] != assets[b]
  }

  /** While lines are being read, `assets` holds an asset per address of `seen`, with its lists. */
  ghost predicate Tracks(assets: map<string, Asset>, seen: map<string, Observed>, now: Timestamp)
    reads assets.Values
  {
    && assets.Keys == seen.Keys
    && forall ip :: ip in assets ==> Holds(assets[ip], ip, seen[ip], now)
  }

  /** `asset` is the asset of `ip` while lines are still being read, with the lists `o`. */
  ghost predicate Holds(asset: Asset, ip: string, o: Observed, now: Timestamp)
    reads asset
  {
    && asset.id == ip && asset.host == ip && asset.ip == Some(ip) && asset.sources == ["nmap"]
    && asset.firstSeen == now && asset.lastSeen == now
    && asset.ports == o.ports && asset.services == o.services
  }

  /** `EntryPorts` and `EntryServices` of one more entry. */
  lemma EntryStep(entries: seq<string>, j: nat)
    requires j < |entries|
    ensures var fields := Fields(entries[j]);
      && EntryPorts(entries[..j + 1]) ==
         EntryPorts(entries[..j]) + (if Accepted(fields) then [DecimalValue(fields[0]) as int] else [])
      && EntryServices(entries[..j + 1]) ==
         EntryServices(entries[..j]) + (if Accepted(fields) && KeepsService(fields[4]) then [fields[4]] else [])
  {
    assert entries[..j + 1][..j] == entries[..j];
  }

  /** Concatenation is associative. */
  lemma Associative<T>(a: seq<T>, b: seq<T>, c: seq<T>)
    ensures a + b + c == a + (b + c)
  {
  }

  /** The inner loop: appends the port and service of every accepted entry to `asset`. */
  method AddEntries(asset: Asset, entries: seq<string>)
    modifies asset`ports, asset`services
    ensures asset.ports == old(asset.ports) + EntryPorts(entries)
    ensures asset.services == old(asset.services) + EntryServices(entries)
  {
    var j := 0;
    while j < |entries|
      invariant 0 <= j <= |entries|
      invariant asset.ports == old(asset.ports) + EntryPorts(entries[..j])
      invariant asset.services == old(asset.services) + EntryServices(entries[..j])
    {
      EntryStep(entries, j);
      var fields := SplitOn(Strip(entries[j]), "/");
      if |fields| >= 5 {
        var port, state, service := fields[0], fields[1], fields[4];
        if state == "open" && IsDecimal(port) {
          Associative(old(asset.ports), EntryPorts(entries[..j]), [DecimalValue(port) as int]);
          asset.ports := asset.ports + [DecimalValue(port) as int];
          if service != "" && service != "?" {
            Associative(old(asset.services), EntryServices(entries[..j]), [service]);
            asset.services := asset.services + [service];
          }
        }
      }
      j := j + 1;
    }
    assert entries[..j] == entries;
  }

  /** The final loop's body: `sorted(set(...))` on the ports and the services. */
  method Deduplicate(asset: Asset)
    modifies asset
    ensures asset.Value() == old(asset.Value()).(
      ports := SortedInts(old(asset.ports)),
      services := SortedStrings(old(asset.services)))
  {
    asset.ports := SortedInts(asset.ports);
    asset.services := SortedStrings(asset.services);
  }

  /** `if ip not in assets`: creates the address's asset with no ports, no services and source "nmap". */
  method EnsureAsset(assets: map<string, Asset>, ghost seen: map<string, Observed>, ip: string, now: Timestamp)
    returns (next: map<string, Asset>)
    requires Tracks(assets, seen, now)
    ensures ip in next
    ensures Tracks(next, seen[ip := SeenFor(seen, ip)], now)
    ensures forall a :: a in next.Values ==> a in assets.Values || fresh(a)
  {
    next := assets;
    if ip !in next {
      var created := new Asset(ip, Some(ip), Some([]), Some([]), Some(["nmap"]), now);
      next := next[ip := created];
    }
  }

  /** The inner loop run on the asset of `ip`, seen from the whole table. */
  method AddEntriesTo(assets: map<string, Asset>, ghost seen: map<string, Observed>, ip: string, entries: seq<string>, now: Timestamp)
    requires Tracks(assets, seen, now) && ip in assets
    modifies assets[ip]
    ensures Tracks(assets, seen[ip := Observed(seen[ip].ports + EntryPorts(entries), seen[ip].services + EntryServices(entries))], now)
  {
    AddEntries(assets[ip], entries);
    forall k | k in assets && k != ip
      ensures Holds(assets[k], k, seen[k], now)
    {
      assert assets[k] != assets[ip];
    }
  }

  /** `if "Ports:" not in line: continue`, then the inner loop over the line's entries. */
  method AddLineEntries(assets: map<string, Asset>, ghost seen: map<string, Observed>, ip: string, line: string, now: Timestamp)
    requires Tracks(assets, seen, now) && ip in assets
    modifies assets[ip]
    ensures Tracks(assets, seen[ip := Grown(seen[ip], line)], now)
  {
    if Contains(line, "Ports:") {
      ContainsIffSplits(line, "Ports:");
      var portsPart := SplitOn(line, "Ports:")[1];
      AddEntriesTo(assets, seen, ip, SplitOn(portsPart, ","), now);
    } else {
      ghost var o := seen[ip];
      assert EntryPorts([]) == [] && EntryServices([]) == [];
      assert Grown(o, line) == Observed(o.ports + [], o.services + []);
      assert o.ports + [] == o.ports && o.services + [] == o.services;
    }
  }

  /**
   * The outer loop's body for a `Host:` line whose address is `ip`: creates
   * the address's asset on its first line and appends what the line's
   * entries yield.
   */
  method ReadHostLine(assets: map<string, Asset>, ghost seen: map<string, Observed>, ip: string, line: string, now: Timestamp)
    returns (next: map<string, Asset>)
    requires Tracks(assets, seen, now)
    modifies assets.Values
    ensures Tracks(next, seen[ip := Grown(SeenFor(seen, ip), line)], now)
    ensures forall a :: a in next.Values ==> a in assets.Values || fresh(a)
  {
    next := EnsureAsset(assets, seen, ip, now);
    ghost var before := seen[ip := SeenFor(seen, ip)];
    AddLineEntries(next, before, ip, line, now);
    Overwrite(seen, ip, SeenFor(seen, ip), Grown(SeenFor(seen, ip), line));
  }

  /** Updating a key twice keeps only the second value. */
  lemma Overwrite<K, V>(m: map<K, V>, k: K, x: V, y: V)
    ensures m[k := x][k := y] == m[k := y]
  {
  }

  /** While lines are being read, every asset is the started asset of its address. */
  lemma TracksStarted(assets: map<string, Asset>, seen: map<string, Observed>, now: Timestamp)
    requires Tracks(assets, seen, now)
    ensures forall ip :: ip in assets ==> assets[ip].Value() == Started(ip, seen[ip], now)
  {
  }

  /** The final loop: deduplicates and sorts every asset's ports and services. */
  method DeduplicateAll(assets: map<string, Asset>, ghost seen: map<string, Observed>, now: Timestamp)
    requires assets.Keys == seen.Keys
    requires forall ip :: ip in assets ==> assets[ip].Value() == Started(ip, seen[ip], now)
    modifies assets.Values
    ensures forall ip :: ip in assets ==> ip in seen && assets[ip].Value() == Finished(ip, seen[ip], now)
  {
    var pending := assets.Keys;
    while pending != {}
      invariant pending <= assets.Keys
      invariant forall ip :: ip in assets ==>
        assets[ip].Value() == if ip in pending then Started(ip, seen[ip], now) else Finished(ip, seen[ip], now)
      decreases pending
    {
      var ip :| ip in pending;
      Deduplicate(assets[ip]);
      pending := pending - {ip};
    }
  }

  /** Finished assets are told apart by their ids, so no object serves two addresses. */
  lemma FinishedDistinct(assets: map<string, Asset>, seen: map<string, Observed>, now: Timestamp)
    requires forall ip :: ip in assets ==> ip in seen && assets[ip].Value() == Finished(ip, seen[ip], now)
    ensures Distinct(assets)
  {
  }

  /** Finished assets for the collected lists are the assets `Parse` describes. */
  lemma FinishedMatchParse(assets: map<string, Asset>, output: string, now: Timestamp)
    requires Collect(SplitLines(output)).Success?
    requires assets.Keys == Collect(SplitLines(output)).value.Keys
    requires forall ip :: ip in assets ==> assets[ip].Value() == Finished(ip, Collect(SplitLines(output)).value[ip], now)
    ensures Parse(output, now).Success? && assets.Keys == Parse(output, now).value.Keys
    ensures forall ip :: ip in assets ==> assets[ip].Value() == Parse(output, now).value[ip]
  {
  }

  /** `Collect` of one more line. */
  lemma CollectStep(lines: seq<string>, i: nat)
    requires i < |lines|
    ensures Collect(lines[..i + 1]) ==
      match Collect(lines[..i])
      case Failure(e) => Failure(e)
      case Success(seen) => Observe(seen, lines[i])
  {
    assert lines[..i + 1][..i] == lines[..i];
  }

  /** Once collecting a prefix of the lines fails, collecting all of them fails. */
  lemma CollectFailureSticks(lines: seq<string>, i: nat)
    requires i <= |lines| && Collect(lines[..i]).Failure?
    ensures Collect(lines).Failure?
  {
    CollectFailsIff(lines[..i]);
    CollectFailsIff(lines);
    var k :| 0 <= k < i && IsHostLine(lines[..i][k]) && !HasAddress(lines[..i][k]);
    assert lines[k] == lines[..i][k];
  }

  /** The outer loop over the lines, before deduplication. */
  method ReadLines(lines: seq<string>, now: Timestamp) returns (r: Result<map<string, Asset>, ParseError>)
    ensures r.Failure? <==> Collect(lines).Failure?
    ensures r.Success? ==> Tracks(r.value, Collect(lines).value, now)
    ensures r.Success? ==> forall a :: a in r.value.Values ==> fresh(a)
  {
    var assets: map<string, Asset> := map[];
    ghost var seen: map<string, Observed> := map[];
    var i := 0;
    while i < |lines|
      invariant 0 <= i <= |lines|
      invariant Collect(lines[..i]) == Success(seen)
      invariant Tracks(assets, seen, now)
      invariant forall a :: a in assets.Values ==> fresh(a)
    {
      CollectStep(lines, i);
      var line := lines[i];
      if IsHostLine(line) {
        var parts := Words(line);
        if |parts| < 2 {
          CollectFailureSticks(lines, i + 1);
          return Failure(MissingAddress);
        }
        var ip := parts[1];
        assets := ReadHostLine(assets, seen, ip, line, now);
        seen := seen[ip := Grown(SeenFor(seen, ip), line)];
      }
      i := i + 1;
    }
    assert lines[..i] == lines;
    return Success(assets);
  }

  /** Parses nmap's grepable output into fresh assets keyed by address, every clock reading being `now`. */
  method ParseOutput(output: string, now: Timestamp) returns (r: Result<map<string, Asset>, ParseError>)
    ensures r.Failure? <==> Parse(output, now).Failure?
    ensures r.Success? ==> r.value.Keys == Parse(output, now).value.Keys
    ensures r.Success? ==> forall ip :: ip in r.value ==>
      fresh(r.value[ip]) && r.value[ip].Value() == Parse(output, now).value[ip]
    ensures r.Success? ==> Distinct(r.value)
  {
    var lines := SplitLines(output);
    r := ReadLines(lines, now);
    if r.Success? {
      forall ip | ip in r.value
        ensures fresh(r.value[ip])
      {
        assert r.value[ip] in r.value.Values;
      }
      TracksStarted(r.value, Collect(lines).value, now);
      DeduplicateAll(r.value, Collect(lines).value, now);
      FinishedDistinct(r.value, Collect(lines).value, now);
      FinishedMatchParse(r.value, output, now);
    }
  }
}
