# attack-surface-diff in Dafny

A model of the core of attack-surface-diff, a tool that records which hosts, open
ports and services a scan found and compares two such records. The model covers:

- the `Asset` object (`attackdiff/asset.py`): construction, `update_seen`, `merge`,
  `to_dict`, `from_dict`;
- the comparison of two asset tables (`attackdiff/diff.py`);
- the in-memory asset table (`attackdiff/storage.py`): `upsert`, and `load` over an
  abstract file state;
- the parser of nmap's grepable output (`NmapScanner._parse_output` in
  `attackdiff/scanners/nmap.py`).

Modules:

- `Wrappers`: `Option`, `Result` and `Outcome`.
- `SortedSets`: Python's `sorted(set(xs))`. It is defined once, generically, over a
  strict total order. It is applied to integers (ports) and to strings compared by
  code point (services, sources). The module proves that such a sequence is the
  unique strictly ascending sequence with those elements.
- `Text`: the `str` methods the parser calls. These are `splitlines`, `split()`,
  `strip`, `split(sep)`, `startswith` and `in`, each with Python's own whitespace and
  line-boundary characters.
- `Assets`:
  - the `AssetValue` datatype, which holds an asset's fields at one moment;
  - the `AssetRecord` datatype, the serialised dictionary;
  - the `Asset` class, whose methods update its fields in place.

  `Merged` and `Restored` are the value-level specifications that the `Merge` and
  `FromDict` methods are proved against.
- `Diff`: `diff_assets` as a function over the assets' values.
- `Storage`: the `AssetStorage` class, with `assets` a map from id to `Asset` objects.
- `Nmap`: the parser.
  - `Collect` and `Parse` are the line-by-line specification. `Parse` is proved
    against an independent set-based reference, `PortsFor` and `ServicesFor`.
  - `ParseOutput` is the program's own loop over lines and entries. It creates
    `Asset` objects, appends to their lists, deduplicates them, and is proved equal
    to `Parse`.

Time is a parameter. Every clock reading `datetime.now(timezone.utc).isoformat()`
becomes an argument `now` of type `Timestamp` (an uninterpreted string).

Where the design description and the code differ, the model follows the code:

- `merge` keeps this asset's `first_seen`. It does not take the earlier of the two
  observations.
- `merge` is commutative on the three lists only. `ip` and the timestamps depend on
  the order of the two assets.
- `diff_assets` returns its lists in set-iteration order. So only the contents of the
  result are deterministic, and the model keys each part by asset id.

## Model

| member | source | states |
|---|---|---|
| Assets.Asset.constructor | attackdiff/asset.py:10-27 | `id` equals `host`. An absent list becomes empty and a given list is kept as given, unsorted. `first_seen` and `last_seen` are both the same clock reading. |
| Assets.Asset.UpdateSeen | attackdiff/asset.py:29-31 | Only `last_seen` changes, and it becomes the current time. |
| Assets.Merged | attackdiff/asset.py:33-43 | `id`, `host` and `first_seen` are kept and `last_seen` is the current time. `ip` is overwritten exactly when the other `ip` is truthy. Each of ports, services and sources is strictly ascending and holds exactly the union of the two lists. |
| Assets.Asset.Merge | attackdiff/asset.py:33-43 | The object's new fields are `Merged` of its old fields and the other object's old fields, even when the other object is the same object. |
| Assets.MergeCommutesOnLists | attackdiff/asset.py:40-42 | `a.merge(b)` and `b.merge(a)` give identical ports, services and sources lists. |
| Assets.MergeTwiceChangesOnlyLastSeen | attackdiff/asset.py:37-43 | Merging the same observation again changes nothing except `last_seen`. |
| Assets.Restored | attackdiff/asset.py:58-70 | Fails exactly when "host" is absent. Otherwise `id` and `host` both come from "host" and `ip` from "ip". Each of ports, services and sources is the stored list when present and empty when absent. Each timestamp is the stored one when present and the current time when absent. |
| Assets.Asset.FromDict | attackdiff/asset.py:58-70 | Fails exactly when "host" is absent. Otherwise it returns a fresh object whose fields are `Restored` of the record. |
| Assets.Asset.ToDict | attackdiff/asset.py:45-56 | Every field is written under its own key, "id" included. For any clock reading, restoring the record succeeds and gives back every field, with `id` rebuilt from `host`. |
| Assets.ToDictRoundTrip | attackdiff/asset.py:45-70 | `from_dict(to_dict(a))` reproduces every field of `a`, except that `id` is rebuilt from `host`. |
| Diff.PortChange | attackdiff/diff.py:28-39 | `host` comes from the new asset. `ports_added` is the sorted set new minus old, and `ports_removed` is the sorted set old minus new. The two are disjoint, and both are empty exactly when the port sets are equal. |
| Diff.DiffAssets | attackdiff/diff.py:5-45 | New ids are exactly the keys of the new table absent from the old one, paired with their new assets. Missing ids are the reverse, paired with their old assets. A change record exists only for a common id, and exactly when its port sets differ. Each record is that id's `PortChange`. |
| Diff.DiffPartitions | attackdiff/diff.py:10-16 | Every id of either table is new, missing or common, and exactly one of these. A changed id is neither new nor missing. |
| Diff.DiffFromEmpty | attackdiff/diff.py:10-39 | Against an empty old table, everything is new and nothing is missing or changed. |
| Diff.DiffIgnoresAllButPorts | attackdiff/diff.py:28-34 | A common id whose port sets are equal gets no change record, whatever its services, sources, ip or timestamps. |
| Diff.DiffWithItselfIsEmpty | attackdiff/diff.py:10-39 | Comparing a table with itself reports nothing. |
| Diff.DiffReversed | attackdiff/diff.py:14-32 | Swapping the two tables swaps new and missing and keeps the changed ids. Each record's added and removed ports trade places. |
| Storage.AssetStorage.constructor | attackdiff/storage.py:8-10 | A new table is empty. |
| Storage.AssetStorage.Load | attackdiff/storage.py:12-27 | A missing or zero-byte file gives an empty table. Otherwise the load succeeds exactly when every record has "host". Then the table has the file's keys, each mapped to a fresh asset restored from that key's record, and no two keys share an asset object. On failure the table is unchanged. |
| Storage.AssetStorage.Upsert | attackdiff/storage.py:43-56 | The table becomes the old table with `a.id` mapped to `a` itself, so all other entries stay. `a` takes the previous entry's `first_seen` when there was one. All of `a`'s other fields, including `last_seen` and its lists, are unchanged; nothing is merged. |
| SortedSets.SortedInts | attackdiff/asset.py:40 | `sorted(set(xs))` on integers is strictly ascending and holds exactly the elements of `xs`. |
| SortedSets.SortedStrings | attackdiff/asset.py:41-42 | `sorted(set(xs))` on strings is strictly ascending in code-point order and holds exactly the elements of `xs`. |
| Text.StartsWithIffPrefix | attackdiff/scanners/nmap.py:43 | `s.startswith(p)` holds exactly when `s` is `p` followed by some text. |
| Text.ContainsIffOccurs | attackdiff/scanners/nmap.py:58 | `sub in s` holds exactly when `sub` occurs in `s` at some index. |
| Text.SplitLines | attackdiff/scanners/nmap.py:42 | `splitlines()` yields lines that contain no line boundary. |
| Text.SplitLinesOfLine | attackdiff/scanners/nmap.py:42 | Text without a line boundary is one line. |
| Text.SplitLinesAtBreak | attackdiff/scanners/nmap.py:42 | The text before a boundary other than `"\r\n"` is kept whole as one line, and splitting continues after the boundary. |
| Text.SplitLinesAtCrLf | attackdiff/scanners/nmap.py:42 | The text before `"\r\n"` is kept whole as one line, and the pair counts as one boundary. |
| Text.Words | attackdiff/scanners/nmap.py:46 | `split()` yields non-empty tokens without whitespace. |
| Text.WordsAtSpace | attackdiff/scanners/nmap.py:46 | A whitespace character separates the tokens: `split()` of `a + c + b` is the tokens of `a` followed by those of `b`. |
| Text.WordsOfToken | attackdiff/scanners/nmap.py:46 | A non-empty run without whitespace is exactly one token. |
| Text.Strip | attackdiff/scanners/nmap.py:65 | `strip()` yields text that neither starts nor ends with whitespace. |
| Text.StripExact | attackdiff/scanners/nmap.py:65 | `strip()` removes exactly the leading and trailing whitespace and keeps the text between them unchanged. |
| Text.SplitOn | attackdiff/scanners/nmap.py:61-65 | `split(sep)` yields at least one piece. |
| Text.SplitOnJoin | attackdiff/scanners/nmap.py:61-65 | Joining the pieces of `split(sep)` with `sep` gives the text back. |
| Text.SplitOnPiecesLackSep | attackdiff/scanners/nmap.py:61-65 | No piece of `split(sep)` contains `sep`. |
| Text.DecimalValue | attackdiff/scanners/nmap.py:76-79 | The value `int()` gives a digit string; a leading zero does not change it. |
| Text.DecimalRoundTrip | attackdiff/scanners/nmap.py:76-79 | `int(str(n)) == n` for every natural `n`. |
| Text.ContainsIffSplits | attackdiff/scanners/nmap.py:58-61 | `"Ports:" in line` holds exactly when `line.split("Ports:")` has a second piece. |
| Nmap.EntryPorts | attackdiff/scanners/nmap.py:64-81 | The ports an entry list appends, in order. Every one is a non-negative decimal number. |
| Nmap.EntryServices | attackdiff/scanners/nmap.py:64-84 | The services an entry list appends, in order. None is empty or `"?"`. |
| Nmap.EntryPortsExact | attackdiff/scanners/nmap.py:64-81 | The ports appended are exactly those of entries with at least five `/`-fields, state `open` and a numeric port field. |
| Nmap.EntryServicesExact | attackdiff/scanners/nmap.py:64-84 | The services appended are exactly the fifth fields of accepted entries, without `""` and `"?"`. |
| Nmap.Observe | attackdiff/scanners/nmap.py:43-84 | One line fails exactly when it is a `Host:` line without a second token. |
| Nmap.ObserveOnlyAppends | attackdiff/scanners/nmap.py:49-84 | One line adds at most its own address. That address's lists only grow at the end, and every other address keeps its lists. |
| Nmap.Collect | attackdiff/scanners/nmap.py:42-84 | No empty and no `"?"` service is ever collected. |
| Nmap.CollectFailsIff | attackdiff/scanners/nmap.py:42-47 | Parsing fails exactly when some `Host:` line has no second token. |
| Nmap.CollectKeys | attackdiff/scanners/nmap.py:42-56 | The addresses collected are exactly the second tokens of the `Host:` lines. |
| Nmap.OnlyHostLinesCount | attackdiff/scanners/nmap.py:42-44 | Dropping every line that does not start with `Host:` changes nothing. |
| Nmap.PortlessHostLineCreatesAsset | attackdiff/scanners/nmap.py:49-59 | A `Host:` line without `Ports:` creates its address's asset with empty lists and otherwise changes nothing. |
| Nmap.CollectedExact | attackdiff/scanners/nmap.py:42-84 | Repeated lines for one address accumulate. The ports and services collected for an address are exactly the union of what the accepted entries of all its `Host:` lines name. |
| Nmap.Parse | attackdiff/scanners/nmap.py:36-91 | Fails exactly when collecting fails. Otherwise each address's asset has `id = host = ip =` the address and `sources = ["nmap"]`, with ports and services strictly ascending and holding exactly the collected values. |
| Nmap.ParseKeys | attackdiff/scanners/nmap.py:42-56 | The keys of a successful parse are exactly the addresses of the `Host:` lines. |
| Nmap.ParseExact | attackdiff/scanners/nmap.py:42-89 | Each returned asset's ports and services are exactly those named by the accepted entries of its address's lines. |
| Nmap.AddEntries | attackdiff/scanners/nmap.py:64-84 | The inner loop appends exactly `EntryPorts` and `EntryServices` of the entries to the asset's lists. |
| Nmap.Deduplicate | attackdiff/scanners/nmap.py:88-89 | The asset's ports and services become `sorted(set(...))` of themselves; nothing else changes. |
| Nmap.EnsureAsset | attackdiff/scanners/nmap.py:49-56 | After it, the address is in the table; a new asset has no ports, no services and source `"nmap"`. |
| Nmap.AddEntriesTo | attackdiff/scanners/nmap.py:64-84 | The inner loop changes only the lists of the address's asset, and no other asset of the table. |
| Nmap.AddLineEntries | attackdiff/scanners/nmap.py:58-84 | A line's asset grows by exactly what the line's entries yield, and by nothing when the line has no `Ports:`. |
| Nmap.ReadHostLine | attackdiff/scanners/nmap.py:46-84 | One `Host:` line of address `ip` creates `ip`'s asset when it is absent. It then grows that asset's lists by what the line yields and leaves every other asset as it was. |
| Nmap.CollectFailureSticks | attackdiff/scanners/nmap.py:46-47 | Once a prefix of the lines fails, the whole output fails: the exception ends the loop. |
| Nmap.ReadLines | attackdiff/scanners/nmap.py:40-84 | The outer loop fails exactly when `Collect` does. Otherwise it leaves one fresh asset per collected address, holding that address's collected lists. |
| Nmap.DeduplicateAll | attackdiff/scanners/nmap.py:86-89 | After the final loop, every asset is finished: its lists are sorted and deduplicated. |
| Nmap.ParseOutput | attackdiff/scanners/nmap.py:36-91 | Fails exactly when `Parse` does. Otherwise it returns fresh, pairwise distinct objects with `Parse`'s keys and values. |

## Left out

- `NmapScanner.scan` (attackdiff/scanners/nmap.py:11-34): it only builds a command line and runs nmap as a subprocess. The model starts from nmap's output text.
- `AssetStorage.save` (attackdiff/storage.py:30-41): directory creation, file writing and JSON encoding are I/O. The record for each asset is `Asset.ToDict`.
- `AssetStorage.load` file access and JSON decoding: `Load` is given the file's state as `StoredFile`. Malformed JSON and a top-level value that is not an object are not modelled. Neither is a record that is not a dictionary, or a whitespace-only file (which Python fails to decode).
- `Storage.AssetStorage.Load`: a Python `KeyError` is modelled as `Fail(MissingHost)`. The Python method returns nothing and raises instead.
- `Assets.AssetRecord`: a JSON `null` for "host", "first_seen" or "last_seen" is not told apart from an absent key. In Python, a null host gives an asset whose host is `None`, and a null timestamp is stored as `None`.
- `Assets.Asset`: lists are modelled as values. So two assets that share one Python list object, as a caller could arrange through the constructor, do not see each other's later appends.
- `Diff.DiffAssets`: the returned lists' order, which is Python's set-iteration order, is not modelled. Each part is a map keyed by asset id.
- `Diff.DiffAssets`: it is given the assets' values. It reads only `ports` and `host`, so object identity plays no part.
- `Nmap.EntryPorts`: a port field counts as a number only when it is a non-empty run of ASCII digits. Python's `int()` also accepts a sign, surrounding whitespace, underscores between digits and non-ASCII decimal digits. Entries whose port field uses those forms are accepted by the program and rejected here.
- `Nmap.ParseError`: the `IndexError` that `parts[1]` raises on a `Host:` line with one token becomes `Failure(MissingAddress)`. The exception's message and the offending line are not modelled.
- Clock reads (`datetime.now`) and ISO-8601 formatting: every reading is a parameter. Within one parse, all readings are taken to be the same `now`. Within one `Storage.AssetStorage.Load`, every record is restored with the same `now`. The program reads the clock once per record (attackdiff/asset.py:25, called from attackdiff/storage.py:25), so records without timestamps can get different defaults there, but always get equal ones in the model.
- `attackdiff/scanners/subfinder_scanner.py` is not part of this model: it is a subprocess loop per target with console output.
- `attackdiff/scanners/scan.py` is not part of this model: it holds only the abstract scanner interface.
- `attackdiff/output.py`, `attackdiff/cli.py`, `attackdiff/doctor.py` and `attackdiff/main.py` are not part of this model. They are presentation, argument parsing, environment checks and a demo script.
- The snapshot store and its retention (pruning) policy are not modelled. No source file implements them: `attackdiff/doctor.py` imports a `SnapshotStorage` that `attackdiff/storage.py` does not define.
