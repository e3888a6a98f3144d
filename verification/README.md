# OwlShack: a verified model of its in-process logic

OwlShack runs MeshCore nodes: companions, a repeater and an MQTT observer over one radio. This project models twelve
pieces of its logic in Dafny and proves what each is for.

| file | what it models |
|---|---|
| `RegionLookup.dfy` | which region a point is in: a bounding box and a 256-band edge index that must agree with plain even-odd parity |
| `RegionCodec.dfy` | the region file: base-128 varints, zigzag, running deltas |
| `SensorGraph.dfy`, `SensorHub.dfy` | sensors that read one another: the order they are read in, the live set, the stored set behind it |
| `RegionTree.dfy`, `RegionEdits.dfy` | a repeater's regions: the bounded walk that finds loops, and the edits guarded by it |
| `ConnectionWeb.dfy`, `PeerIndex.dfy`, `WebFold.dfy`, `WebBuilding.dfy`, `WebOfLog.dfy`, `WebHashes.dfy` | received floods folded into routes, node tallies and first copies, what a whole log shows, and which hash it leaves a node under |
| `TelemetryReply.dfy` | the channel map, its byte budget and the reply built from it |
| `ChannelSave.dfy` | a companion's running channels written back to its rows |
| `AppQueue.dfy` | the frames kept for an app that is away |
| `BrokerLifecycle.dfy` | one broker's clients as connect loop, refresh and Stop take turns |
| `PublishQueue.dfy` | that broker's publish queue: senders that never block, the worker, a refresh and Stop that come between |
| `PollScheduler.dfy` | when a node is polled next, and what a request for an early poll is worth |
| `ConfigDefaults.dfy` | a loaded config brought to its normal form |
| `Common.dfy` | shapes shared by all |

Where the program updates state in place, so does the model: a class or an array method is proved against a function of
its old state, and the theorems are about that function. Concurrent parts are state machines whose steps are the actions
another goroutine can come between; the methods of the program are then shown to be runs of those machines.

Run `dafny verify dfyconfig.toml` to check everything.

## Where the code does less than it says

- A save of running channels can leave two channels in one slot, which stops the next start, though the code sends a
  channel elsewhere to avoid just that (`internal/app/backend.go:438-440`): the slot it is sent to may be one a later
  channel runs in. `ChannelSave.SlotsEndApart` says from the rows and the running channels exactly when,
  `ChannelSave.TwoInOneSlot` shows one; no channel running in a slot that a row left alone holds is enough to be safe
  (`ChannelSave.FreeSlotsEndApart`).
- Saving channels twice writes twice when a running channel has no scope, as it is stored as `inherit`
  (`ChannelSave.SecondSaveWritesNothing`); the node itself fills the scope in, so its own channels never do.
- A failed refresh starts a connect loop to bring its broker back (`internal/mqtt/observer.go:676-677`), but that loop
  goes away if the last one has not yet put its flag down, and then nothing dials the broker again
  (`BrokerLifecycle.ABrokerIsAbandoned`, exactly when in `BrokerLifecycle.RunKeepsCare`).
- The refresh lock is there so that no publish meets a client being replaced (`internal/mqtt/observer.go:76`), but the
  worker lets it go before it looks whether the client it read is open, and looks before it hands the frame over. A
  refresh that comes before the look has the frame counted as dropped (`PublishQueue.ARefreshDropsAFrame`), one that
  comes after it has it fail in no counter (`PublishQueue.ARefreshFailsAFrame`); while the network holds frames are lost
  exactly as often as a refresh does either (`PublishQueue.LossesAreCloses`; on any network at all, and with Stop, in
  `PublishQueue.LossesExactly`).
- What a board sensor reports can change under the stored sensors that read it (`SensorHub.ABoardRenumbers`). No edit
  itself takes a reading away (`SensorHub.EditTakesNothing`), and no change of reports ever makes the order fall back or
  leaves a source unconfigured (`SensorHub.RunKeepsGraph`, `SensorHub.Backend.LoadSensors`).
- A frame can be taken into the queue after the worker has gone, and is then in no count (`PublishQueue.AFrameIsStranded`);
  only such a frame ever is (`PublishQueue.StrandedExactly`), so none taken in before Stop
  (`PublishQueue.StopLosesNothingEarlier`).
- A request to poll soon can be lost when an out-of-band poll starts between the cycle's unlock and its rescheduling
  (`PollScheduler.AGapStartLosesARequest`, and of the same node `PollScheduler.TwoPollsLoseARequest`); without such a
  start none is (`PollScheduler.NoRequestIsLost`). In any run a request outlives the polls of its node in flight exactly
  when there was none, or one alone and the note of the node in flight named it, or it was marked already, as it was made
  (`PollScheduler.AskedStandsExactly`).
- Loading is not idempotent for a repeater with a region whose name is empty and another whose parent is `#`
  (`ConfigDefaults.DefaultedTwice`); exactly then it leaves a region other than the top one without a parent
  (`ConfigDefaults.ParentsAreSetExactly`).
- A push to the app queue that finds no room drops the frame only after it has dropped every waiting channel message
  (`AppQueue.PushMeans`).
- A default region that begins `##` becomes a scope its own new entry does not answer to (`ConfigDefaults.FoldedScopeIsServed`).
- Content of a region file that ends right after its magic, or in a count that never ends, can decode without error to no
  regions: `RegionCodec.UncountedDecodesExactly` says which content does, `RegionCodec.MagicAloneDecodes` shows some. (Of
  a file cut short as stored, gzip complains.)
- The connect loop's check that the client library reconnected first never finds it so
  (`BrokerLifecycle.TheLoopIsAlwaysNeeded`).
- Which hash a node shows can depend on the order of the log, and with it the candidates and the pin mark listed beside
  that hash: it does exactly when two records leave the node different ones (`WebHashes.OrderShowsOneHashExactly`, shown
  in `WebHashes.TwoOrdersTwoHashes`); chains, counts and tallies do not (`WebFold.OrderDoesNotMatter`).

## Model

| member | source | states |
|---|---|---|
| RegionLookup.At | internal/region/region.go:107-117 | the answer is the first region in file order whose rings hold the point by plain even-odd parity, and none only when no region does: box and band index never change it |
| RegionLookup.Region.Contains | internal/region/region.go:176-187 | reading one band of the index decides, for every point in the box or out of it, exactly whether the point is inside by parity over all rings |
| RegionLookup.Region.BuildIndex | internal/region/region.go:151-170 | the index holds, in each of the 256 bands, exactly the edges that reach into it, built once |
| RegionLookup.BandHoldsEveryCrossing | internal/region/region.go:157-174 | for any box, step and point, the band of a latitude holds every edge that can be crossed there, each once, so counting in the band counts all |
| RegionLookup.BandIsMonotone | internal/region/region.go:172-174 | truncating and clamping keep the order of latitudes, so the bands of an edge are the ones between its ends |
| RegionLookup.FileEdge | internal/region/region.go:160-166 | appending an edge to the bands between its lowest and highest keeps every band exactly its bucket of the edges so far |
| RegionLookup.FileRing | internal/region/region.go:158-167 | the same for all the edges of a ring, the closing one among them |
| RegionLookup.BoxNeverChangesTheAnswer | internal/region/region.go:107-130 | a point inside by parity lies in the box of the rings, so the prefilter refuses nothing the test would accept |
| RegionLookup.OutsideBoxIsEven | internal/region/region.go:107-141 | a point outside any box around the rings has even parity |
| RegionLookup.ClosedRingStraddlesEvenly | internal/region/region.go:132-141 | a closed ring passes any latitude an even number of times |
| RegionLookup.CrossingsFromOutside | internal/region/region.go:132-141 | from outside the box a ray east crosses every edge that straddles the latitude, or none |
| RegionLookup.CrossLonWithin | internal/region/region.go:136 | where an edge meets a latitude lies between the longitudes of its ends |
| RegionLookup.RingsBox | internal/region/region.go:120-129 | the box is the smallest around all points of all rings, and none for no points |
| RegionLookup.InRing | internal/region/region.go:132-141 | flipping on each crossed edge yields whether the number of crossings is odd |
| RegionLookup.InsideIsRingByRing | internal/region/region.go:176-187 | parity over all edges is the exclusive-or of the rings tested one by one |
| SensorGraph.OrderByDependency | internal/sensor/hub.go:598-646 | an order comes back exactly when no chain of reads comes round to itself; it is every sensor once, sources before readers; otherwise the sensors named are exactly those whose reads lead into a loop; and it always ends |
| SensorGraph.OnePass | internal/sensor/hub.go:616-633 | a pass keeps the order so far sound and either adds a sensor or leaves a set that waits on itself |
| SensorGraph.ReportStuck | internal/sensor/hub.go:634-643 | when nothing became ready the rest, in id order, is exactly what leads into a loop |
| SensorGraph.StuckLeadsToLoop | internal/sensor/hub.go:634-643 | in a set where each sensor waits on another of the set, following reads goes round for ever, and so meets a sensor twice |
| SensorGraph.OrderedNeverLeadsToLoop | internal/sensor/hub.go:598-646 | no sensor of a sources-first order leads into a loop |
| SensorGraph.LeadingToALoopNeedsOne | internal/sensor/hub.go:598-646 | a sensor that leads into a loop proves there is one |
| SensorGraph.ALoopLeadsToItself | internal/sensor/hub.go:598-646 | and a loop always leaves some sensor leading into it |
| SensorGraph.Sources | internal/sensor/hub.go:602-611 | the sources listed are exactly the configured sensors read |
| SensorHub.Hub.Set | internal/sensor/hub.go:359-409 | the live set becomes the given one: an unchanged spec keeps its open sensor and reading under its new name, any other starts closed; every entry let go is closed once and no kept one is; the order falls back to ids exactly when there is a loop |
| SensorHub.Hub.KeepOrReplace | internal/sensor/hub.go:369-383 | which entries are carried over, which are replaced and closed, and whether any is new |
| SensorHub.Hub.LetGo | internal/sensor/hub.go:384-388 | what no new spec names is closed, once each, after what is closed already |
| SensorHub.Hub.PassOrder | internal/sensor/hub.go:479-490 | a pass reads every entry in the order, or every unopened one, once, and, unless the order fell back, each after those of its sources that are read too |
| SensorHub.PassReadsOnce | internal/sensor/hub.go:485-489 | whatever the order, no entry is read twice in a pass and none left out that is in it |
| SensorHub.PassKeepsOrder | internal/sensor/hub.go:479-490 | picking from a sources-first order keeps sources first, whatever is picked |
| SensorHub.Hub.CheckBindings | internal/sensor/hub.go:329-357 | accepts exactly when each source is configured and reports what is read and, for a stored sensor, no loop arises; a new one skips the loop check |
| SensorHub.CreateKeepsGraph | internal/app/sensors.go:179-199 | a create without the loop check still leaves no dangling source and no loop, as nothing can read the new id, whatever any stored sensor reports by now |
| SensorHub.UpdateKeepsGraph | internal/app/sensors.go:201-227 | an accepted update leaves every source configured and the graph free of loops, whatever other sensors report |
| SensorHub.DeleteKeepsGraph | internal/app/sensors.go:383-405 | so does deleting a sensor nothing reads |
| SensorHub.LoopAvoids | internal/sensor/hub.go:351-356 | a sensor nothing reads, or that reads nothing, is on no loop, so loops survive its removal |
| SensorHub.StepKeepsGraph | internal/app/sensors.go:179-405 | each edit, taken or refused, keeps ids fresh and the graph whole: every source configured, no loop |
| SensorHub.RunKeepsGraph | internal/app/sensors.go:179-405 | so does every run of edits, what the sensors report changing between them as it may |
| SensorHub.EmptyTableHolds | internal/app/sensors.go:85-98 | and the empty table is whole, with all that is read reported |
| SensorHub.EditTakesNothing | internal/app/sensors.go:304-337 | what a sensor reads that an edit does not touch, and its source reported as the edit was checked, the source is there and reports after the edit too |
| SensorHub.StoredIsReported | internal/sensor/hub.go:329-350 | and all that the stored sensor itself reads is there and reported, as the edit is stored |
| SensorHub.StepKeepsReports | internal/app/sensors.go:179-405 | so an edit keeps all that is read reported, if it was by the same reports |
| SensorHub.SteadyRunKeepsReports | internal/app/sensors.go:179-405 | and so does a run of edits through which no report changes |
| SensorHub.ABoardRenumbers | internal/app/sensors.go:304-313 | a change of reports alone breaks that: two sensors stored in turn, and the first no longer reports what the second reads; renaming the first is still accepted, storing the second again is not |
| SensorHub.Backend.LoadSensors | internal/app/sensors.go:85-98 | reloading a whole table never reaches the fallback order, whatever its sensors report |
| SensorHub.Backend.CreateSensor | internal/app/sensors.go:179-199 | on any whole table takes effect exactly when the edit is accepted by what is reported just now, and the reloaded hub is the table again, in an order that did not fall back |
| SensorHub.Backend.UpdateSensor | internal/app/sensors.go:201-227 | the same for an update |
| SensorHub.Backend.DeleteSensor | internal/app/sensors.go:383-405 | the same for a delete |
| SensorHub.Backend.CheckDependents | internal/app/sensors.go:304-337 | refuses exactly an edit that stops reporting what another sensor reads and just now has |
| RegionTree.ValidateRegionParents | internal/config/repeater.go:82-113 | for any list, accepts exactly when each region passes its bounded walk; with unique names, exactly when "*" has no parent and the parents of every other region lead to "*" |
| RegionTree.WalkUp | internal/config/repeater.go:99-110 | the walk of n steps says whether the region is met again before the top |
| RegionTree.NStepsFindACycle | internal/config/repeater.go:99-110 | if a chain misses the top for as many steps as there are regions, some region of the list is found inside itself, though the one that led there may not be |
| RegionTree.PassingIsATree | internal/config/repeater.go:83-113 | when every region passes, all chains reach the top |
| RegionTree.TreePasses | internal/config/repeater.go:83-113 | in a tree every region passes |
| RegionTree.CycleIsNotUnderTop | internal/config/repeater.go:99-110 | a region that comes back to itself never reaches the top |
| RegionEdits.RemovalIsAlwaysValid | internal/app/config_rest.go:834-857 | a removal past its own refusals always leaves a valid repeater: tree, home and scope included, and the name unknown |
| RegionEdits.MoveRefusedExactly | internal/app/config_rest.go:791-804 | a move of a known region is refused exactly when the target is unknown, the region itself or below it |
| RegionEdits.AddAcceptedExactly | internal/app/config_rest.go:772-788 | an addition is accepted exactly when the name is well formed and free, the parent known and there is room |
| RegionEdits.Validate | internal/config/load.go:293-351 | accepts exactly the repeaters whose scope and home name their own regions, names are well formed and unique up to "#", number is within the limit and parents form a tree |
| RegionEdits.NamesValidAndUnique | internal/config/load.go:335-346 | names are accepted exactly when each is well formed and no two are one region with any "#" ignored |
| RegionEdits.MoveIsReparenting | internal/app/config_rest.go:791-804 | a move is accepted exactly when the region still reaches the top from its new parent |
| RegionEdits.ReparentedReachesTop | internal/app/config_rest.go:791-804 | a region put under another reaches the top exactly when that one does without passing it |
| RegionEdits.RemovalKeepsTree | internal/app/config_rest.go:842-848 | taking out a region with nothing under it leaves a tree |
| RegionEdits.ScopeSurvivesRemoval | internal/app/config_rest.go:849-854 | a scope that does not name the removed region still names one that stays |
| RegionEdits.HomeAcceptedExactly | internal/app/config_rest.go:754-769 | a home is accepted exactly when it is "*" or known by any spelling |
| RegionEdits.ScopeAcceptedExactly | internal/app/config_rest.go:738-751 | a scope is accepted exactly when well formed and, if it names a region, one of the repeater's own |
| RegionEdits.FloodAcceptedExactly | internal/app/config_rest.go:817-831 | flood can be set exactly on a known region, or on "*" while no entry takes its place |
| RegionEdits.FirstNamed | internal/app/config_rest.go:807-814 | the index found is the first region with the name, any "#" ignored |
| RegionEdits.StoredOrUnknown | internal/app/config_rest.go:807-814 | a known name resolves to a listed region, an unknown one to itself, unlisted |
| RegionEdits.RunStaysValid | internal/app/config_rest.go:738-857 | along every run of edits the stored repeater stays valid, its names unique up to "#" |
| RegionEdits.Backend.AddRegion | internal/app/config_rest.go:772-788 | stores the addition exactly when accepted, else leaves the repeater as it was |
| RegionEdits.Backend.MoveRegion | internal/app/config_rest.go:791-804 | the same for a move |
| RegionEdits.Backend.SetRegionFlood | internal/app/config_rest.go:817-831 | the same for a flood flag |
| RegionEdits.Backend.RemoveRegion | internal/app/config_rest.go:834-857 | the same for a removal |
| RegionEdits.Backend.SetHomeRegion | internal/app/config_rest.go:754-769 | the same for the home region |
| RegionEdits.Backend.SetFloodScope | internal/app/config_rest.go:738-751 | the same for the flood scope |
| RegionEdits.Backend.Commit | internal/app/config_rest.go:667-686 | a row is stored exactly when it validates |
| RegionCodec.DecodeUndoesEncode | internal/region/codec.go:26-128 | decoding what was encoded gives the regions back, each coordinate rounded to microdegrees, exactly when all lengths are within the limits, and an error otherwise |
| RegionCodec.DecodedSurvives | internal/region/codec.go:26-128 | whatever any bytes decoded to can be encoded and decodes to itself unchanged |
| RegionCodec.Encode | internal/region/codec.go:26-60 | the loops write exactly the file the format describes |
| RegionCodec.Decode | internal/region/codec.go:63-128 | the reader with its sticky error computes the decoding for any bytes |
| RegionCodec.UvarintComesBack | internal/region/codec.go:33 | a varint of any 64-bit value reads back from any place in the data and ends where it was written |
| RegionCodec.ZigzagInverts | internal/region/codec.go:34 | zigzag is a bijection between signed and unsigned 64-bit values |
| RegionCodec.WrappedDeltaComesBack | internal/region/codec.go:50-52 | a difference and the sum that undoes it cancel even when both wrap round 64 bits |
| RegionCodec.PointsComeBack | internal/region/codec.go:108-115 | the running deltas telescope: every point of a ring comes back rounded |
| RegionCodec.RegionComesBack | internal/region/codec.go:105-121 | a region reads back rounded when within the limits and otherwise leaves the error set |
| RegionCodec.RingsComeBack | internal/region/codec.go:107-117 | so do its rings, one too long spoiling all |
| RegionCodec.LongRingFails | internal/region/codec.go:88-94 | a ring over the limit leaves the error set whatever is read after it |
| RegionCodec.StringComesBack | internal/region/codec.go:95-101 | a string within the limit reads back, a longer one leaves the error set |
| RegionCodec.BoundedComesBack | internal/region/codec.go:88-94 | a length over the limit is capped and the error sticks |
| RegionCodec.RegionKeepsFailure | internal/region/codec.go:73-121 | an error in any field of a region is still there at its end |
| RegionCodec.RoundingIsClose | internal/region/codec.go:49 | rounding moves a coordinate by at most half a microdegree |
| RegionCodec.DegreesComeBack | internal/region/codec.go:49-114 | a decoded coordinate rounds to the microdegrees it came from |
| RegionCodec.DecodedIsFixed | internal/region/codec.go:103-121 | decoded regions are within the limits and rounding leaves them alone |
| RegionCodec.UncountedDecodesExactly | internal/region/codec.go:103-127 | content decodes though its count was not read exactly when it is the magic with at most ten bytes more, the first nine of them 128 and a tenth such that no count ends in it nor gains a bit by it; and then to no regions |
| RegionCodec.SomeRegionsMeanTheCountWasRead | internal/region/codec.go:103-122 | what decodes has as many regions as its count says, and none when that was not read in full |
| RegionCodec.MagicAloneDecodes | internal/region/codec.go:103-127 | which happens: the magic alone, or with up to nine bytes 128 after it, decodes to no regions, as a failed count alone is not checked |
| RegionCodec.Reader.Points | internal/region/codec.go:109-115 | the loop over a ring's points reads what the format says, errors and all |
| RegionCodec.Reader.Str | internal/region/codec.go:95-101 | a string read, padded with zeros and marked failed when the data ends first |
| RegionCodec.Reader.Uvarint | internal/region/codec.go:74-80 | a varint read; a failed one keeps what it gathered |
| ConnectionWeb.RouteHasShape | internal/api/routes_connection_web.go:150-176 | a folded route has at least two nodes, ends in ours and only there, repeats none in a row and loses no resolved hop; a record is dropped exactly when nothing but our own id is left |
| ConnectionWeb.CompactShape | internal/api/routes_connection_web.go:168-173 | dropping blanks and repeats keeps every id and leaves no equal neighbours |
| ConnectionWeb.KeyIsInjective | internal/api/routes_connection_web.go:178-181 | two routes with one key are one route, origin mark and all |
| ConnectionWeb.JoinIsInjective | internal/api/routes_connection_web.go:178 | joining proper ids with ">" can be undone |
| ConnectionWeb.OwnerIsACandidate | internal/api/routes_connection_web.go:218-254 | without a pin a hop is resolved exactly when some relay matches it, and to one that does |
| ConnectionWeb.Nearest | internal/api/routes_connection_web.go:234-244 | the nearest located candidate, none only when none is located |
| ConnectionWeb.Latest | internal/api/routes_connection_web.go:245-252 | no candidate was heard later than the one taken |
| ConnectionWeb.HopIdIsId | internal/api/routes_connection_web.go:218-284 | a hop's id is proper and never our own |
| PeerIndex.HopGoesToACarrier | internal/api/routes_connection_web.go:114-254 | from indexed peers a hop no pin decides is resolved exactly when it has one to three bytes and some repeater's key begins with them, and then to such a repeater |
| PeerIndex.IndexPeers | internal/api/routes_connection_web.go:111-122 | of two peers with a key the later counts, and under each hash stand the repeaters whose key begins with it, in order |
| PeerIndex.FilePeer | internal/api/routes_connection_web.go:114-121 | a repeater is filed once under each of its first sizes, any other peer nowhere |
| PeerIndex.IndexedIsWellFormed | internal/api/routes_connection_web.go:111-122 | so indexed, the maps are what the fold asks of its start |
| PeerIndex.RepeatersCarry | internal/api/routes_connection_web.go:114-121 | the repeaters under a hop's hash are those whose key begins with the hop |
| PeerIndex.HexIsInjective | internal/api/routes_connection_web.go:113-120 | two byte strings of one hex text are one |
| WebFold.FoldAllIsSound | internal/api/routes_connection_web.go:127-215 | in every web folded, chains are filed under their own key with a route's shape, and the nodes of every chain but ours exist |
| WebFold.CountIsRecordsVia | internal/api/routes_connection_web.go:182-187 | a chain exists exactly when a record came over it, and counts those records |
| WebFold.CountsSumToRecords | internal/api/routes_connection_web.go:187 | the counts sum to the records folded |
| WebFold.ObservationsAreWeighted | internal/api/routes_connection_web.go:207-211 | a node's observations are its places on the chains, each counted as often as its chain was heard |
| WebFold.FirstCopiesAreFirst | internal/api/routes_connection_web.go:212-214 | every packet folded has exactly one first copy, the one of lowest id, with the chain it came over |
| WebFold.FirstAtMostCount | internal/api/routes_connection_web.go:287-289 | a chain carries the first copy of no more packets than records came over it |
| WebFold.FirstsSumToPackets | internal/api/routes_connection_web.go:287-289 | first copies over all chains sum to the distinct packets folded |
| WebFold.RoutesCommute | internal/api/routes_connection_web.go:178-214 | two records folded in either order leave the same chains, tallies and first copies |
| WebFold.FoldsCommute | internal/api/routes_connection_web.go:127-215 | so do two records of a log, ignored or not |
| WebFold.OrderDoesNotMatter | internal/api/routes_connection_web.go:127-215 | the same records in any order give the same chains with the same counts, SNR extremes and times, the same tallies and first copies |
| WebBuilding.WebBuilder.Add | internal/api/routes_connection_web.go:127-215 | the builder's maps become the fold of one more record, and the nodes named are as the record's hops name them |
| WebBuilding.CompactInPlace | internal/api/routes_connection_web.go:168-173 | filtering into the array being read leaves the compacted list at its head |
| WebBuilding.WebBuilder.ResolveHops | internal/api/routes_connection_web.go:152-159 | hops are resolved from the last to the first, each from where the one after it is |
| WebBuilding.WebBuilder.ResolveRoute | internal/api/routes_connection_web.go:150-166 | the ids are the sender's if known, the hops' and ours, and each has a node |
| WebBuilding.WebBuilder.ResolveHop | internal/api/routes_connection_web.go:218-254 | resolves one hop by pin, nearness or time heard, and stamps its node |
| WebBuilding.WebBuilder.FindOwner | internal/api/routes_connection_web.go:218-254 | a pin decides, a pinned peer since deleted does not |
| WebBuilding.WebBuilder.HopNode | internal/api/routes_connection_web.go:256-263 | the peer's node takes this hash, whatever it had |
| WebBuilding.WebBuilder.PeerNode | internal/api/routes_connection_web.go:273-284 | a peer has one node, made when first met |
| WebBuilding.WebBuilder.UnresolvedNode | internal/api/routes_connection_web.go:265-271 | a hash no peer owns has a node of its own |
| WebBuilding.WebBuilder.ReadHops | internal/api/routes_connection_web.go:128-148 | which records are folded: received floods, not traces, not our own packet unless asked, not our own relay heard back |
| WebBuilding.WebBuilder.Observe | internal/api/routes_connection_web.go:207-211 | each place on the chain counts once, each packet once a node |
| WebBuilding.WebBuilder.UpdateChain | internal/api/routes_connection_web.go:182-205 | the chain of a route is made or updated with the record |
| WebBuilding.WebBuilder.CreditFirsts | internal/api/routes_connection_web.go:287-289 | each first copy is credited to its chain |
| WebBuilding.WebBuilder.Result | internal/api/routes_connection_web.go:286-308 | every chain and every node is listed once, with its counts |
| WebBuilding.ShownFirstsConserve | internal/api/routes_connection_web.go:286-308 | in what is shown no chain leads with more packets than it was heard with, and together they lead with each packet once |
| WebBuilding.OthersAreResolved | internal/api/routes_connection_web.go:150-173 | the nodes a record tallies are exactly those its resolution made or found |
| WebOfLog.ShowLog | internal/api/routes_connection_web.go:384-390 | a new builder, every record of any log added, lists each chain and node of the fold once with what it counted; the counts add up to the records folded, the first copies to the distinct packets, and no chain leads with more than it was heard with |
| WebOfLog.ScanLog | internal/api/routes_connection_web.go:386 | adding a log record by record to a new builder leaves in its maps the fold of that log |
| WebOfLog.ShowBuilt | internal/api/routes_connection_web.go:286-308 | from maps that hold a log's fold, the lists are that fold's chains, first copies credited, and nodes, each once |
| WebOfLog.ShownAddsUp | internal/api/routes_connection_web.go:286-308 | however the maps were listed, the counts shown add up to the records folded and the firsts shown to the distinct packets |
| WebOfLog.ListingKeepsTotal | internal/api/routes_connection_web.go:291-308 | going through a map in any order adds up to the same total |
| WebOfLog.ShownInAnyOrder | internal/api/routes_connection_web.go:384-390 | two orders of one log show the same chains with the same first copies, and the same tallies |
| WebHashes.HashShownIsTheLast | internal/api/routes_connection_web.go:150-166 | a node shows the hash that the last record of the log to pass it leaves it, and none if only met as a sender |
| WebHashes.LogHashIsTheLast | internal/api/routes_connection_web.go:150-166 | that record is the one after which no record of the log passes the node |
| WebHashes.StampAllHash | internal/api/routes_connection_web.go:152-159 | a record leaves each node on its path the hash of the first hop, in path order, that is the node, and every other node the hash it had |
| WebHashes.OrderShowsOneHashExactly | internal/api/routes_connection_web.go:256-271 | a node shows one hash in every order of a log exactly when all its records that pass the node leave it one |
| WebHashes.TwoOrdersAgreeExactly | internal/api/routes_connection_web.go:256-271 | two orders show one hash exactly when the last record to pass the node in each leaves it that |
| WebHashes.TwoOrdersTwoHashes | internal/api/routes_connection_web.go:256-263 | which they need not: two records over one repeater, under one byte of its key and under two, show either hash |
| WebHashes.ListedHash | internal/api/routes_connection_web.go:291-302 | the hash listed for a node is that one, and its candidates and pin mark are those of the hash |
| TelemetryReply.ValidateChannelMap | internal/sensor/lpp.go:145-176 | accepts exactly the maps whose rows are well formed, hold no channel and type twice and fit the 145 bytes |
| TelemetryReply.TelemetrySize | internal/sensor/lpp.go:132-143 | the size counts every row of a known type, read or not |
| TelemetryReply.LookupInvertsCode | internal/sensor/lpp.go:59-93 | codes and types stand for each other |
| TelemetryReply.WireIntInRange | internal/sensor/lpp.go:204-269 | whatever is read, what is written fits the type's field |
| TelemetryReply.CarriedWithinAStep | internal/sensor/lpp.go:204-261 | a value that is no flag is carried to less than one step from the clamped reading |
| TelemetryReply.IntComesBack | internal/sensor/lpp.go:204-252 | an integer in its type's range reads back from its bytes, sign and all |
| TelemetryReply.BodyDecodes | internal/sensor/lpp.go:178-252 | a body decodes record by record to exactly what it was built from |
| TelemetryReply.StatusById | internal/sensor/lpp.go:180-183 | of two statuses of a sensor the later counts |
| TelemetryReply.FindReading | internal/sensor/lpp.go:192-196 | the reading used is the first of the metric |
| TelemetryReply.EncodeEntries | internal/sensor/lpp.go:178-202 | appends the wanted rows' readings in map order, leaving out what is missing, failing, unread or no number |
| TelemetryReply.BuildReply | internal/sensor/reply.go:26-63 | the body is the full reply, or the reply without mapped sensors exactly when the full one is too long |
| TelemetryReply.Build | internal/sensor/reply.go:37-58 | battery, mapped sensors, temperature, in that order, as permissions allow |
| TelemetryReply.EncodeOwn | internal/sensor/reply.go:34-55 | a mapped row of the node's own channel replaces its built-in reading, and a failing one leaves nothing |
| TelemetryReply.RowsAreSound | internal/sensor/lpp.go:146-202 | each record sent is some accepted row's, in range, and no two share channel and type |
| TelemetryReply.ReplyIsSound | internal/sensor/reply.go:26-63 | no reply of a valid map repeats a channel and type or uses channel 0 |
| TelemetryReply.ReplyDecodes | internal/sensor/reply.go:26-63 | it decodes to the battery, the mapped sensors in map order and the temperature |
| TelemetryReply.DecodedIsCarried | internal/sensor/reply.go:26-63 | every record decoded from a valid map's reply is of a row of the map, its channel and type, and carries what that row's sensor reads, a flag exactly and anything else to within a step of the clamped reading; or is the node's own battery or temperature, taken over by no row and within a step unless past its field |
| TelemetryReply.BudgetHolds | internal/sensor/lpp.go:34-45 | a body of 153 bytes fits a direct reply and a flood path of up to four bytes and no longer one; eight bytes fit every path up to 64 |
| TelemetryReply.ReplyFits | internal/sensor/reply.go:26-63 | whatever is read and allowed, a valid map's reply is at most 153 bytes, and at most 8 without its sensors |
| TelemetryReply.ValidMapIsSent | internal/sensor/reply.go:59-62 | so it is never dropped from a direct reply or over up to four path bytes, and up to 64 what is sent always fits |
| TelemetryReply.ReadingMapFillsItsShare | internal/sensor/lpp.go:132-143 | a map all of whose sensors read takes exactly the size it was counted as |
| TelemetryReply.FiveIsTooFar | internal/sensor/lpp.go:15-16 | the bound is tight: one valid map of 25 rows is dropped over every path of more than four bytes |
| ChannelSave.SaveRunningChannels | internal/app/backend.go:389-455 | the three claiming passes, the deletes and the writes leave the table the specification describes, and no write is refused by the table's unique names |
| ChannelSave.ClaimByName | internal/app/backend.go:406-414 | after the two passes by name each channel has the row of its name or none |
| ChannelSave.ClaimByRename | internal/app/backend.go:415-423 | after the third a channel without one has the first row renamed in place |
| ChannelSave.Claim | internal/app/backend.go:397-405 | claims the first row that matches and is not taken |
| ChannelSave.Sweep | internal/app/backend.go:424-435 | deletes exactly the unclaimed rows the node let go of and holds the slots of the rest |
| ChannelSave.WriteChannels | internal/app/backend.go:436-453 | creates or updates each channel's row, and nothing is refused |
| ChannelSave.NeverRefused | internal/app/backend.go:436-453 | at every step the name to be written is free but for the channel's own row |
| ChannelSave.ClaimsAreInjective | internal/app/backend.go:397-423 | no two channels claim one row |
| ChannelSave.SameNameSameRow | internal/app/backend.go:406-423 | the row of a channel's name is the one it gets, and only a renamed row has another name |
| ChannelSave.FreeIsRenamed | internal/app/backend.go:415-423 | a row free for the third pass is one whose name no channel runs |
| ChannelSave.EachChannelHasOneRow | internal/app/backend.go:436-453 | after a save each running channel has exactly one row, with its name, key and scope |
| ChannelSave.UnclaimedSurvivesUnlessDropped | internal/app/backend.go:424-435 | an unclaimed row survives untouched exactly when the node did not let its name go |
| ChannelSave.RowIdsAreKept | internal/app/backend.go:406-423 | a channel stored under its name, or renamed in place, keeps its row's id |
| ChannelSave.OthersAreUntouched | internal/app/backend.go:390-394 | the rows of other companions are left as they were |
| ChannelSave.SecondSaveWritesNothing | internal/app/backend.go:447-452 | saving again changes nothing, and writes nothing exactly when no running channel's scope is unset |
| ChannelSave.AgainIsSane | internal/app/backend.go:390-455 | what a save leaves meets again what a save asks of the table |
| ChannelSave.SlotsEndApart | internal/app/backend.go:438-440 | from rows in slots of their own, a save leaves two in one slot exactly when some channel runs in a slot that a row left alone holds, and the slot it goes to instead is where another one runs that can have it: its own row's slot, or, for a channel without a row, the lowest one free, which only a later channel whose row is elsewhere can run in; all of it told from the rows and running channels given |
| ChannelSave.FreeSlotsEndApart | internal/app/backend.go:438-440 | so no two rows end in one slot when no row left alone holds a slot that a channel runs in |
| ChannelSave.PlaceIsKept | internal/app/backend.go:436-446 | the slot each channel ends in is the one worked out from the rows and running channels before any is written |
| ChannelSave.SlotsAreInUse | internal/app/backend.go:436-453 | at each channel's turn the slots taken are those of the rows left alone, of the rows of channels to come and of the places of those before |
| ChannelSave.FreeForALaterOne | internal/store/config_companions.go:261-268 | the lowest free slot is where another channel runs only if that one comes later and its row is elsewhere |
| ChannelSave.TwoInOneSlot | internal/app/backend.go:438-440 | which happens: a held slot sends a new channel to the slot the next one runs in |
| ChannelSave.LowestFree | internal/store/config_companions.go:261-268 | the slot found is free and every lower one is taken |
| ChannelSave.ChannelRepo.Create | internal/store/config_companions.go:256-276 | a row without a slot takes the lowest its companion has free; a name taken is refused |
| ChannelSave.ChannelRepo.Update | internal/store/config_companions.go:278-287 | a row without a slot keeps the one it has |
| ChannelSave.ChannelRepo.ListByCompanion | internal/store/config_companions.go:225-245 | exactly the companion's rows by slot, then id |
| AppQueue.PushMeans | internal/store/app_queue.go:13-43 | a push takes its frame exactly when direct messages leave room; the oldest channel messages go and no more than needed, or all when it is dropped; direct messages stay |
| AppQueue.PushBounds | internal/store/app_queue.go:13-43 | afterwards the queue is within the size or holds only direct messages, whatever the size was before |
| AppQueue.EvictingPushEndsFull | internal/store/app_queue.go:26-35 | a push that evicts and takes its frame ends exactly full |
| AppQueue.ShedTakesTheOldest | internal/store/app_queue.go:26-35 | what is removed is the oldest of what matches |
| AppQueue.ShedLeavesTheRest | internal/store/app_queue.go:26-35 | and nothing else, other companions' rows among it |
| AppQueue.StepKeepsOrder | internal/store/app_queue.go:13-57 | survivors of every step keep the order they came in, a new row last, and none is kept for a companion whose access is off |
| AppQueue.OthersAreUntouched | internal/store/app_queue.go:13-57 | no step touches another companion's queue |
| AppQueue.HeadIsTheKindsHead | internal/store/app_queue.go:45-49 | a pop takes the oldest of all, and so of its own kind |
| AppQueue.StepConserves | internal/store/app_queue.go:13-57 | what waited and came in is what left and waits, in order; a direct message leaves only by pop or by turning access off |
| AppQueue.RunConserves | internal/store/app_queue.go:13-57 | over any run, the size changing as it may, each kind leaves in the order it was taken in and nothing is lost |
| AppQueue.DeliveredInOrder | internal/store/app_queue.go:45-57 | the app gets its frames in the order they arrived over the whole run |
| AppQueue.AppQueueRepo.Push | internal/store/app_queue.go:13-43 | count, evict, insert come to the step specified |
| AppQueue.AppQueueRepo.Pop | internal/store/app_queue.go:45-57 | hands over the oldest waiting frame, none only when none waits |
| AppQueue.AppQueueRepo.AnyWaiting | internal/store/app_queue.go:59-66 | says whether anything waits |
| AppQueue.AppQueueRepo.DeleteOldest | internal/store/app_queue.go:26-35 | removes the oldest of a kind and says how many there were |
| AppQueue.AppQueueRepo.SetAccess | internal/store/migrations/029_app_access.sql:16-20 | turning access off forgets what waited |
| BrokerLifecycle.NeverTwoSessions | internal/mqtt/observer.go:662-667 | along every interleaving of connect loop, refresh, Stop and network, a refresh that begins while Stop runs or after it among them, one client at most is not closed: no dial beside another or beside a session |
| BrokerLifecycle.EveryOtherClientIsClosed | internal/mqtt/observer.go:578-683 | a client not closed is the broker's own or one a dial holds |
| BrokerLifecycle.StopLeavesNothingOpen | internal/mqtt/observer.go:363-394 | once Stop is done and no dial holds a client, every client is closed |
| BrokerLifecycle.NothingBeginsOnceShut | internal/mqtt/observer.go:834-848 | past the closed stop channel no client is made and none is taken up |
| BrokerLifecycle.TheLoopIsAlwaysNeeded | internal/mqtt/observer.go:597-618 | the connect loop never finds a client already there, and what it replaces is closed already |
| BrokerLifecycle.StepKeeps | internal/mqtt/observer.go:578-683 | each step keeps one owner at a time, no stray client and Stop's read |
| BrokerLifecycle.RunKeeps | internal/mqtt/observer.go:578-683 | so does every run |
| BrokerLifecycle.RunKeepsCare | internal/mqtt/observer.go:580-583 | a broker stays connected or in hand exactly as long as no connect loop is turned away by the retrying flag |
| BrokerLifecycle.StepKeepsCare | internal/mqtt/observer.go:580-583 | only a loop turned away leaves it to nobody, and then always does |
| BrokerLifecycle.ABrokerIsAbandoned | internal/mqtt/observer.go:651-679 | which happens: a refresh that read the flag before the first loop took it, and the client after |
| BrokerLifecycle.BrokerClient.Adopt | internal/mqtt/observer.go:93-105 | makes the client current, or closes it once the stop channel is closed |
| BrokerLifecycle.BrokerClient.RefreshToken | internal/mqtt/observer.go:646-683 | uninterrupted, and with Stop at any point of its way, it is one of the runs, and replaces the client exactly for a token broker with an open client, no loop at work, the stop channel open and a dial that opens |
| BrokerLifecycle.BrokerClient.RetryConnect | internal/mqtt/observer.go:578-627 | with another loop, a refresh and Stop wherever they are, and Stop coming during the dial that opens, it is one of the runs; it goes away when another loop holds the flag or it finds the context cancelled or the stop channel closed; a client that opens once Stop has come is closed, and only one that opens before is put in place; the flag it leaves as it found it |
| BrokerLifecycle.BrokerClient.Replace | internal/mqtt/observer.go:601-619 | a dial that opens closes the client it replaces and puts the new one in its place, or closes it when Stop came during the dial |
| BrokerLifecycle.BrokerClient.Stop | internal/mqtt/observer.go:367-394 | uninterrupted it is one of the runs, and leaves the client closed |
| PublishQueue.EveryFrameHasOneFate | internal/mqtt/observer.go:396-453 | over every run of senders, worker, refresh, network and Stop each frame offered is published, counted as dropped, timed out, failed, turned away by Stop, in hand or waiting; frames are done with in the order taken in, and at most 256 wait |
| PublishQueue.RunKeepsAccounts | internal/mqtt/observer.go:396-453 | every run keeps the counters equal to the frames they count |
| PublishQueue.StopLosesNothingEarlier | internal/mqtt/observer.go:382-415 | when the worker has returned, all taken in before the stop channel closed, the offline status with it, is done with; the frames not done with are exactly those taken in after it returned |
| PublishQueue.StrandedExactly | internal/mqtt/observer.go:397-453 | in any run that ends with the worker gone, the frames waiting for ever are those of the senders that came after it went, in their order, and no others |
| PublishQueue.NothingAfterTheWorker | internal/mqtt/observer.go:397-415 | after that no frame is done with or leaves the queue |
| PublishQueue.AFrameIsStranded | internal/mqtt/observer.go:441-453 | which happens: a select takes the queue over the closed stop channel |
| PublishQueue.DropsAreOvertakings | internal/mqtt/observer.go:417-425 | while the network holds, frames are counted as dropped for a closed client exactly as often as a refresh closes it between the worker's read and its look, whatever clients then do |
| PublishQueue.LossesAreCloses | internal/mqtt/observer.go:417-438 | while the network holds, open clients sending and closed ones refusing, frames are dropped exactly as often as a refresh closes the client between read and look, and fail uncounted exactly as often as it does between look and publish; no others are lost |
| PublishQueue.LossesExactly | internal/mqtt/observer.go:417-438 | over every run, whatever network, refresh, Stop and clients do: frames dropped for their client are the reads of one not open and the shuttings between read and look less the reopenings there; frames failed uncounted are the shuttings after the look and the failures of open clients less the reopenings and what was sent all the same |
| PublishQueue.DroppedExactly | internal/mqtt/observer.go:417-453 | from the start of any run the drop counter is the frames turned away by a full queue and those losses |
| PublishQueue.StepDrops | internal/mqtt/observer.go:417-425 | no other step drops a frame or dooms one to be |
| PublishQueue.StepFails | internal/mqtt/observer.go:426-438 | no other step fails a frame or dooms one to |
| PublishQueue.HonestStep | internal/mqtt/observer.go:426-438 | a step fails a frame only by a close after the look, and such a close fails one |
| PublishQueue.ARefreshFailsAFrame | internal/mqtt/observer.go:421-433 | from any frame in hand a refresh that succeeds can make it fail with no counter changed |
| PublishQueue.SteadyStep | internal/mqtt/observer.go:664-668 | while the network holds the client in place is open whenever the refresh lock is free |
| PublishQueue.ARefreshDropsAFrame | internal/mqtt/observer.go:417-425 | from any frame in hand a refresh that succeeds can drop it |
| PublishQueue.Publisher.EnqueuePublish | internal/mqtt/observer.go:440-453 | never waits: the frame is taken in, turned away by Stop or counted as dropped as the select decides |
| PublishQueue.Publisher.DoPublish | internal/mqtt/observer.go:417-438 | uninterrupted it is one of the runs: the frame goes to the client exactly when that is open |
| PublishQueue.Publisher.DrainAndLeave | internal/mqtt/observer.go:400-410 | uninterrupted it is one of the runs: the buffered frames are done with in order before the worker returns |
| PollScheduler.CounterGoesRound | internal/monitor/monitor.go:131-173 | after any polls the counter is the failures since the last success modulo one more than the retries, and a failure waits the normal interval exactly when that is 0 |
| PollScheduler.NoRequestIsLost | internal/monitor/monitor.go:294-305 | with no out-of-band poll started in the unlock gap, a node asked for is due, or becomes due when its poll in flight is rescheduled, until a poll of it starts |
| PollScheduler.RunKeepsRequests | internal/monitor/monitor.go:212-305 | along every such run the node in flight is the one polled and every request stands |
| PollScheduler.StepStaysInStep | internal/monitor/monitor.go:237-242 | each step but such a start keeps the note of the node in flight true |
| PollScheduler.AskedStandsExactly | internal/monitor/monitor.go:293-305 | in any run, a gap start in it or not: once the polls of a node in flight as it was asked for have been rescheduled, and before another starts, the request stands exactly when there was none, or one alone and the note of the node in flight named it or it was marked already |
| PollScheduler.RunKeepsWillStand | internal/monitor/monitor.go:131-143 | what such a request will come to is settled as it is made: no step but a new start or request changes it |
| PollScheduler.TwoPollsLoseARequest | internal/monitor/monitor.go:240-242 | with two polls of the node in flight the first to be rescheduled uses the mark up and the request is lost, though the note named the node |
| PollScheduler.AGapStartLosesARequest | internal/monitor/monitor.go:240-242 | with a start in the gap one is lost: the cycle wipes the note of the caller's node |
| PollScheduler.OneHolder | internal/monitor/monitor.go:237-242 | whoever starts where, the radio has one holder |
| PollScheduler.Service.RescheduleAfter | internal/monitor/monitor.go:131-173 | computes the next due time and counter specified |
| PollScheduler.Service.PollSoon | internal/monitor/monitor.go:293-305 | makes the node due, and marks it when it is in flight |
| PollScheduler.Service.RunCycle | internal/monitor/monitor.go:212-244 | a listing that fails changes nothing; else the targets due at its start are polled and rescheduled in order up to the first of them, after a poll, whose wait is cancelled, and through to the end if none is |
| PollScheduler.CyclePollsTheDue | internal/monitor/monitor.go:220-243 | a cycle reschedules each listed node once, from its own schedule, exactly when it was due |
| PollScheduler.CycleLeavesOthers | internal/monitor/monitor.go:220-243 | and leaves nodes not listed alone |
| PollScheduler.Service.PollNow | internal/monitor/monitor.go:371-398 | is refused exactly when the radio is taken, the targets cannot be listed or the node is not monitored, changing nothing, and else reschedules the first target of that key |
| ConfigDefaults.DefaultedTwice | internal/config/config.go:254-377 | defaulting a defaulted config changes nothing exactly when no repeater region has parent "#" beside one without a name |
| ConfigDefaults.DefaultedIsComplete | internal/config/config.go:254-377 | afterwards every companion is complete, nothing of the older format is left, no scope and no flood region's parent is unset, and every region of a repeater but the top one has a parent exactly when none had parent "#" beside one without a name |
| ConfigDefaults.ParentsAreSetExactly | internal/config/config.go:347-376 | settling gives every region but the top one a parent, exactly unless one has parent "#" beside a region without a name |
| ConfigDefaults.WholeIsComplete | internal/config/config.go:210-345 | every companion is in Public, lists every non-blank channel its triggers name, and has every scope set |
| ConfigDefaults.CompleteIsLeftAlone | internal/config/config.go:210-345 | a complete companion is left as it is |
| ConfigDefaults.JoinedHolds | internal/config/config.go:211-238 | the list keeps its head, gains only names it lacked, each once, and misses none |
| ConfigDefaults.SettledTwice | internal/config/config.go:347-376 | settling a repeater's regions twice is settling once exactly when none loses its parent |
| ConfigDefaults.LostExactly | internal/config/config.go:365-375 | a name is lost exactly when it is "#" and some region has none |
| ConfigDefaults.AsWrittenTwice | internal/config/config.go:365-375 | a name as the regions write it is written the same again |
| ConfigDefaults.AsWrittenIsTheSame | internal/config/config.go:365-375 | and is the same region as before, unless lost |
| ConfigDefaults.ALoadThatChangesAgain | internal/config/config.go:359-375 | it happens: the second load moves a region to the top |
| ConfigDefaults.HoistedIsTheFirst | internal/config/config.go:301-316 | the block taken to the top is the first a companion holds, fed by that companion |
| ConfigDefaults.MigrationLosesNothing | internal/config/legacy.go:34-116 | folding the older blocks in loses no companion and no bot, and an observer never overrides what one had |
| ConfigDefaults.ObserverFeedsItsCompanion | internal/config/legacy.go:57-116 | an observer that is used feeds the first companion of its name, there or made, which then has a key |
| ConfigDefaults.FilledKeepsWhatIsGiven | internal/config/config.go:261-299 | given settings are kept, the rest filled in, an openHop serial link at its own rate |
| ConfigDefaults.OwnedKeepsTheList | internal/config/config.go:211-252 | a companion's own channels stay together and in order, Public at most before them |
| ConfigDefaults.FoldedScopeIsServed | internal/config/config.go:347-353 | an older default region becomes a scope the repeater serves, unless it begins "##" and no region has it |
| ConfigDefaults.Config.ApplyDefaults | internal/config/config.go:254-377 | the in-place steps come to the normal form specified |
| ConfigDefaults.Config.MigrateLegacyFormat | internal/config/legacy.go:34-75 | bots become companions, the first observer the mqtt block, and the older blocks are cleared |
| ConfigDefaults.Config.AttachObserver | internal/config/legacy.go:88-116 | an observer's key and position go to the companion it names, made if missing, where it has none |
| ConfigDefaults.EnsureTriggerChannels | internal/config/config.go:211-238 | adds each non-blank channel a trigger names that the list lacks |
| ConfigDefaults.EnsurePublicChannel | internal/config/config.go:240-252 | puts Public first unless it is there |
| ConfigDefaults.Config.SettleRepeater | internal/config/config.go:347-376 | scope, parents and home are settled as specified |
| ConfigDefaults.RespellRegions | internal/config/config.go:365-375 | home and parents take the spelling of the last region they name |
| ConfigDefaults.FoldTopicPrefixes | internal/config/mqtt.go:122-134 | a topic prefix becomes explicit topics where none are set |
| ConfigDefaults.NormalizeTransports | internal/config/legacy.go:77-86 | every broker's transport becomes websockets exactly if it was that or ws or wss in any case, its TLS is on exactly if it was or for wss, and all else of it and the list is kept |
| ConfigDefaults.TransportIsNormal | internal/config/legacy.go:77-86 | that leaves no choice of a result, and once more changes nothing |
| ConfigDefaults.LowerIsAnyCase | internal/config/legacy.go:79 | a transport is the word in lower case exactly when it is the word in any case |

## Left out

- Floating point: coordinates, distances, SNR, readings and voltages are exact reals, so no rounding, no overflow in a
  conversion to an integer and no NaN but the one a reading is checked for; the area of a region is an opaque 64-bit word.
- The empty region's inverted infinite box is no box, and its index starts at latitude 0 with step 1; no point is in either.
- Sampled areas, shapes and shares of a region, and the distance on the globe: the distance is a parameter.
- gzip, its checksum and buffered writing around the region file: the compressed layer is the identity on bytes, so a
  region file here is the content gzip hands over whole.
- The mesh library: packet parsing and cryptography. Its limits (184 payload bytes, 166 combined path bytes, the record
  codes and field widths) are constants here, and the limits on region names are parameters.
- Database failures, and failures of a reload after a write: a write takes effect or is refused by the rules modelled.
  SQLite's own work (unique ids, selects, cascades) is done by the operations on the modelled tables.
- `SensorHub.Backend.CreateSensor`: the checks of an edit that are not about bindings (options, unique names, bus claims,
  published channels) are one verdict passed in; so for update and delete. What the sensors report is one answer an edit,
  where the code asks for each source as it comes to it; that the graph stays whole does not rest on the answer.
- Opening, reading and backing off of the sensors themselves, and notification of listeners.
- `RegionEdits.Validate`: only the repeater's regions, home and scope; the other settings of a config are not validated here.
- The web builder is given the log in the order the store scans it, the peers, each with a key, the operator's pins and
  what was sent; names, types and positions of nodes and the candidates listed for a hash follow from the peer and the hash kept.
- `ChannelSave.SaveRunningChannels`: the running channels and the names let go of are read once; that the node holds one
  channel a slot and a name is what its own operations ensure. How a name and a private key make a channel key is a parameter.
- `ChannelSave.SlotsEndApart`: for rows whose slots are apart before the save, as a config that loaded has them.
- The broker's statuses, wills, TLS and tokens, packet filters and repeats; backoff, timeouts and what the client answers
  are choices of the step.
- `PublishQueue.Publisher.DrainAndLeave`: the worker's loop from the closed stop channel on; before it a pass is `DoPublish`.
- `PublishQueue.LossesExactly`: a client is handed its frame and answers in one step.
- `BrokerLifecycle.BrokerClient.RetryConnect`: but for Stop during the dial that opens, others move before it or after it;
  between its steps is the machine's part. So too `RefreshToken`.
- `PollScheduler.Service.RunCycle`: uninterrupted; interleaving is the state machine's part.
- `ConfigDefaults.Config.ApplyDefaults`: settings that no step reads or writes; a missing list and an empty one are one.
- HTTP handlers, the websocket hub, file formats, process start-up and logging.
