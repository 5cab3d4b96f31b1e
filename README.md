# XrdProtLoad: the XRootD protocol dispatcher, modelled in Dafny

`XrdProtLoad` is the object that XRootD places on every listening port as the
connection's first protocol. It has two halves:

- **Process-wide registry.** `Load` registers a protocol: its name, the port it
  serves, whether it requires TLS, and its protocol object. `Port` asks a protocol
  which port it wants. The private helpers `getProtocol` and `getProtocolPort`
  obtain protocol objects and ports, from built-in entry points or from shared
  libraries. Each library is loaded once and cached in `liblist`/`libhndl`.
  Both tables hold at most `ProtoMax` entries.
- **Per-port dispatcher.** The constructor scans the registry for its port. It
  builds the candidate vector `myProt`:
  1. the plaintext protocols on the port;
  2. if any protocol on the port needs TLS, a `-1` marker followed by every
     protocol on the port;
  3. a `-2` terminator.

  `Process` walks this vector for each new connection:
  - at the marker it upgrades the link to TLS;
  - each slot asks its protocol to match the link;
  - the first match is attached to the link, the link is activated, and the
    first request is handed to the protocol.

  `Statistics` adds up the statistics all registered protocols report.

How the model is organised:

| module | file | contents |
|---|---|---|
| `Types` | `types.dfy` | Constants, the `int8` slot type, and the oracles for the collaborators. |
| `Candidates` | `candidates.dfy` | The candidate vector as a function of the registry, and its shape. |
| `Matching` | `matching.dfy` | The scan `Process` performs, and the dispatch result. |
| `StatsSpec` | `stats.dfy` | The `Statistics` loop as a function, and the finding below. |
| `LibCache` | `libcache.dfy` | The library cache and the answers of `getProtocolPort`/`getProtocol`. |
| `Dispatch` | `dispatch.dfy` | The imperative code. |
| `Scenarios` | `scenarios.dfy` | Two start-ups written as clients of the contracts. |

In `Dispatch`:

- `Registry` holds the static tables as arrays of `ProtoMax` entries, plus the
  counters `protoCnt` and `libcnt`.
- `ProtLoad` holds `myPort` and the `myProt` array of `2*ProtoMax+1` signed chars.
- `Link` holds the parts of the connection that `Process` sets.

Each method is proved against the matching function.

Collaborators outside the file are parameters:

- `Modules` holds:
  - the built-in entry points;
  - whether a library loader can be built;
  - whether a library exports `XrdgetProtocolPort` and `XrdgetProtocol`, and
    what these return.
- `LinkScript` holds what a connection does:
  - the answer to the TLS upgrade;
  - a protocol's `Match` answer at the k-th probe;
  - `isFlawed` after the k-th probe;
  - `Activate`;
  - the protocol's first `Process` result.
- `StatsOracle` gives the length a protocol's `Stats` reports for a cursor,
  the room left and the sync flag.

Buffer pointers are addresses in a flat address space, where 0 is the null pointer.

Details the model keeps from the code:

- `Load` records the port from `pi->Port`.
- A flawed link ends `Process` with -1 and no error text.
- A library whose loader cannot be built leaves a null handle in its slot, and
  `getProtocolPort` returns -1.
- A library without `XrdgetProtocolPort` yields the configured port, or 0 when
  that port is negative.
- `Statistics` goes on while room remains or the buffer is null, so it stops
  early only on a non-null buffer with no room.

## Model

| member | source | states |
|---|---|---|
| Dispatch.Registry.constructor | src/Xrd/XrdProtLoad.cc:43-55 | The tables start empty: no protocol registered, no library loaded. |
| Dispatch.Registry.Load | src/Xrd/XrdProtLoad.cc:102-134 | Returns 1 exactly when the table has room and `getProtocol` yields an object. Then slot `protoCnt` holds name, `pi->Port`, object and TLS flag, and the count grows by one. On 0 nothing changes. The library cache is never touched. |
| Dispatch.Registry.Port | src/Xrd/XrdProtLoad.cc:140-158 | Returns what `getProtocolPort` returns and leaves the cache as it does. The protocol table is unchanged. |
| Dispatch.Registry.GetProtocol | src/Xrd/XrdProtLoad.cc:246-273 | Built-in entry point when no library is named. Otherwise null unless the library is cached and exports `XrdgetProtocol`, and then that entry point's object. Changes nothing. |
| Dispatch.Registry.GetProtocolPort | src/Xrd/XrdProtLoad.cc:282-317 | Built-in port when no library is named. For a library: looks it up in the cache. If it is new, returns -1 when the cache is full or the loader fails, and otherwise appends it, keeping the cached names distinct. A failed loader leaves nothing cached, so a later call tries again. Then returns the library's port, falling back to the configured one, or 0 if that is negative. |
| Dispatch.Registry.Statistics | src/Xrd/XrdProtLoad.cc:224-234 | The returned total is the total of the loop walk `StatsFrom` over the registered protocols from slot 0. Changes nothing. |
| Dispatch.Link.constructor | src/Xrd/XrdProtLoad.cc:164-205 | A new link has no error text, no protocol and no protocol name, the state `Process` starts from. |
| Dispatch.ProtLoad.constructor | src/Xrd/XrdProtLoad.cc:68-94 | `myProt` begins with `CandidateList` over the registry for `port`, and that list is well formed. The dispatcher remembers how many protocols it saw. |
| Dispatch.ProtLoad.Build | src/Xrd/XrdProtLoad.cc:71-93 | A fresh vector of `2*ProtoMax+1` entries whose prefix is the candidate list. |
| Dispatch.ProtLoad.CollectPlain | src/Xrd/XrdProtLoad.cc:76-81 | The first loop writes exactly the plaintext slots on the port, in order. It reports whether any TLS protocol is on the port. |
| Dispatch.ProtLoad.CollectAll | src/Xrd/XrdProtLoad.cc:87-88 | The second loop appends every slot on the port after the marker and keeps what came before. |
| Dispatch.ProtLoad.Process | src/Xrd/XrdProtLoad.cc:164-205 | Returns the code of `Outcome` for the scan of `myProt`. The link's error text, protocol and name are set exactly as `Outcome` says and otherwise keep their values. |
| Candidates.SlotsOn | src/Xrd/XrdProtLoad.cc:76-88 | The slots collected hold no more entries than slots scanned, each a valid index. |
| Candidates.SlotsOnIncreasing | src/Xrd/XrdProtLoad.cc:76-81 | Slots are collected in increasing slot order. |
| Candidates.SlotsOnSound | src/Xrd/XrdProtLoad.cc:77-79 | Every collected slot is on the port, and a plaintext pass collects no TLS slot. |
| Candidates.SlotsOnComplete | src/Xrd/XrdProtLoad.cc:77-79 | Every qualifying slot is collected. |
| Candidates.SlotsOnEnumerates | src/Xrd/XrdProtLoad.cc:76-88 | Over the whole registry each pass lists exactly its qualifying slots, increasing. |
| Candidates.PlainFewer | src/Xrd/XrdProtLoad.cc:76-88 | The plaintext pass lists no more than the full pass, and strictly fewer when a TLS protocol is on the port. |
| Candidates.CandidateList | src/Xrd/XrdProtLoad.cc:71-93 | The candidate vector the constructor builds is non-empty and ends in the terminator. Its shape is stated by the lemmas below. |
| Candidates.CandidateListShape | src/Xrd/XrdProtLoad.cc:76-93 | The list is the plaintext slots, then, exactly when a TLS protocol is on the port, the marker and all slots on the port, then the terminator. |
| Candidates.CandidateListSentinels | src/Xrd/XrdProtLoad.cc:85-93 | The terminator comes only last. There is at most one marker, present iff a TLS protocol is on the port. Other entries are registered slots on the port. |
| Candidates.CandidateListFits | src/Xrd/XrdProtLoad.cc:71-93 | The list never exceeds the `2*ProtoMax+1` entries of `myProt`. |
| Candidates.CandidateListWellFormed | src/Xrd/XrdProtLoad.cc:71-93 | The list ends in the terminator, and its other entries are the marker or slot indices below the protocol count. |
| Candidates.CandidateListExample | src/Xrd/XrdProtLoad.cc:76-93 | Plaintext slots 0 and 1 plus TLS slot 2 on one port give `[0, 1, -1, 0, 1, 2, -2]`. |
| Matching.ScanFrom | src/Xrd/XrdProtLoad.cc:172-183 | A match names a slot below the protocol count. |
| Matching.SlotEntries | src/Xrd/XrdProtLoad.cc:172-183 | The slot entries of the vector from a position, each below the protocol count. |
| Matching.FirstSentinel | src/Xrd/XrdProtLoad.cc:172-173 | The position of the first marker or terminator from a position. |
| Matching.MissedCons | src/Xrd/XrdProtLoad.cc:178-182 | Extending the list of failed probes at its front keeps every earlier probe unmatched and the link unflawed. |
| Matching.ScanPrefix | src/Xrd/XrdProtLoad.cc:172-183 | The probed slots are, in order, the slot entries met before the scan stopped. |
| Matching.ScanMissed | src/Xrd/XrdProtLoad.cc:178-182 | Every probe before the last one failed to match and left the link unflawed. |
| Matching.ScanDecisive | src/Xrd/XrdProtLoad.cc:179-180 | A match is the protocol's answer at its probe. A flawed stop is the probe whose failure the link reports as flawed. |
| Matching.ScanNoMatchAll | src/Xrd/XrdProtLoad.cc:172-187 | With no match, every slot entry was probed, every probe failed on an unflawed link, and every marker in the vector had its upgrade accepted. |
| Matching.ScanUpgrades | src/Xrd/XrdProtLoad.cc:172-177 | On a vector with at most one marker, `setTLS` is called once if the walk reaches the marker and never otherwise. Reaching it means failing the upgrade there, walking on to the terminator, or probing past it. |
| Matching.ReachedMarker | src/Xrd/XrdProtLoad.cc:172-177 | The reached-marker count is 0 or 1, and 1 only when the first sentinel is the marker. |
| Matching.ScanTlsAt | src/Xrd/XrdProtLoad.cc:173-177 | A TLS failure happens at the marker, after probing exactly the entries before it, and only when the upgrade is refused. A scan that passes the marker had the upgrade accepted. |
| Matching.ScanExplained | src/Xrd/XrdProtLoad.cc:172-183 | All of the above together. The scan's end and probes are explained by the link's answers. On a vector with at most one marker, as `CandidateListSentinels` gives, so is the number of upgrades. |
| Matching.ScanProbeBound | src/Xrd/XrdProtLoad.cc:172-183 | A scan probes no more slots than the vector holds. |
| Matching.Outcome | src/Xrd/XrdProtLoad.cc:185-204 | An error text comes only with the result -1, and a name is attached exactly when a protocol object is. |
| Matching.OutcomeMeaning | src/Xrd/XrdProtLoad.cc:172-205 | A result other than -1 means a protocol matched, was attached with its name, the link activated, and the result is that protocol's first reply. Conversely, an activated match returns the protocol's first reply, with no error text and the protocol and its name attached. A match is the first successful probe after only failed ones. A flawed link gives -1 and sets nothing. There are three error texts, each set on its own path and only there. "TLS negotiation failed." (:175): the upgrade at the marker was refused. "matching protocol not found" (:187): every slot entry was probed in vain, and nothing is attached. "activation failed" (:200): `Activate` refused after a protocol was attached. |
| StatsSpec.StatsFrom | src/Xrd/XrdProtLoad.cc:228-233 | The loop as written asks protocols in slot order. It stops before the last only on a non-null cursor with no room left. |
| StatsSpec.StatsCursor | src/Xrd/XrdProtLoad.cc:228-233 | The cursor advances and the room shrinks by exactly what is added to the total. The walk stops early only on a non-null cursor with no room left. No protocols means total 0. |
| StatsSpec.StatsNonNullStops | src/Xrd/XrdProtLoad.cc:228 | With a real buffer, every protocol is asked unless room runs out. No room at the start asks none. |
| StatsSpec.NullProbeStopsEarly | src/Xrd/XrdProtLoad.cc:228-231 | As written, a null size probe with no room, over two protocols needing 10 bytes each, returns 10 after one protocol. |
| StatsSpec.StatsFixed | src/Xrd/XrdProtLoad.cc:228-231 | The corrected loop: a null cursor stays null, and no more protocols are asked than are registered. |
| StatsSpec.FixedNullVisitsAll | src/Xrd/XrdProtLoad.cc:228-231 | The corrected loop, given a null buffer, asks every protocol and returns the sum of their sizes. |
| StatsSpec.FixedAgreesOnBuffers | src/Xrd/XrdProtLoad.cc:228-231 | The correction changes nothing when a real buffer is given. |
| LibCache.CacheStep | src/Xrd/XrdProtLoad.cc:295-309 | The cache changes only by appending a new library, and a new library is appended exactly when there is room and its loader is built. It keeps names distinct and within `ProtoMax`. |
| LibCache.ModulePort | src/Xrd/XrdProtLoad.cc:313-316 | A library without the port entry point yields exactly the configured port, or exactly 0 when that is negative. Otherwise the entry point's answer. |
| LibCache.PortOf | src/Xrd/XrdProtLoad.cc:295-316 | Built-in port without a library. A cached library gives its port. A new library gives -1 with the cache unchanged when the cache is full or its loader fails. Otherwise it is appended and gives its port. |
| LibCache.ProtocolOf | src/Xrd/XrdProtLoad.cc:258-272 | Built-in object without a library. Null for a library not cached or lacking `XrdgetProtocol`. Otherwise that entry point's object. |
| LibCache.CacheLoadsOnce | src/Xrd/XrdProtLoad.cc:299-309 | Over any series of port lookups: the cache only grows at its end, stays within `ProtoMax`, never holds a library twice, and holds only names it had or was asked for. |
| LibCache.CacheIdempotent | src/Xrd/XrdProtLoad.cc:299-309 | Looking up the same library twice caches no more than once. |
| Scenarios.HttpPortScans | src/Xrd/XrdProtLoad.cc:76-183 | Plaintext "http" and TLS "https" on one port give `[0, -1, 0, 1, -2]`. A plaintext client matches "http" on the first probe. A TLS client is upgraded once and matches "https" on the third. |
| Scenarios.HttpOutcomes | src/Xrd/XrdProtLoad.cc:185-204 | On that vector the plaintext client is answered 100 with "http" attached, and the TLS client 200 with "https" attached, with no error text. |
| Scenarios.HttpPortScenario | src/Xrd/XrdProtLoad.cc:102-205 | Registering both, building the port-80 dispatcher and dispatching one client of each kind attaches "http" and "https", and returns their first replies. |
| Scenarios.SharedModuleScenario | src/Xrd/XrdProtLoad.cc:102-134 | Two protocols from one library load it once and register two slots. The configured port stands in for the missing port entry point. |

## Left out

- `Recycle` (lines 211-218) only writes a log message; logging and `TRACE` output are not modelled anywhere.
- The destructor, `strdup` copies and object ownership: names are values.
- Dynamic loading (`XrdOucPinLoader`, `Resolve`, `XrdVERSIONINFODEF`) is modelled as the `Modules` oracle. It covers whether a loader is built, whether a symbol resolves, and what an entry point returns.
- The link (`XrdLink`) is modelled as the `LinkScript` oracle. Its answers depend on the probe ordinal; bytes peeked and any other link state are not modelled.
- The protocols' own `Match`, `Process` and `Stats` are oracles. `Stats` is taken to report a non-negative length, and the bytes it writes are not modelled.
- `parms` is a string; a null `parms` is not distinguished from an empty one.
- XrdProtLoad.hh is not part of this model. The model takes `ProtoMax = 8` and gives `myProt` `2*ProtoMax+1` entries. The proofs need only `ProtoMax <= 127`, so that slot numbers fit a signed char.
- The entry points `XrdgetProtocolPort` and `XrdgetProtocol`, built in or from a library, receive `pname` and `parms` but not `pi`. The `Modules` oracle is passed per call, so a dependence on `pi` is absorbed into the oracle the caller supplies.
- Concurrency: the static tables are filled at start-up by one thread, so no interleaving is modelled.
- Dispatch.ProtLoad.Process: requires that the registry has not shrunk since the dispatcher was built (`builtCnt <= protoCnt`). The registry only grows, so this always holds in the program.
- A size probe with a null buffer and no room does not match a call with a large buffer in general. Whether it does depends on what each protocol's `Stats` reports in the two cases, which is outside this model. What holds for the corrected loop is stated in `StatsSpec.FixedNullVisitsAll`.

## Findings

| source | as written | input that shows it | evidently intended | confidence | as-written member | corrected member |
|---|---|---|---|---|---|---|
| src/Xrd/XrdProtLoad.cc:228-231 | `buff += k` also advances a null buffer. After the first protocol that reports a size, the cursor is no longer null, the room is negative, and the loop stops. | Null buffer, `blen` 0, two protocols each reporting 10: returns 10 after asking one protocol. | A null buffer probes the total size, so the cursor stays null and every protocol is asked. The result is the sum of their sizes. | not executed | StatsSpec.NullProbeStopsEarly | StatsSpec.StatsFixed, StatsSpec.FixedNullVisitsAll |
