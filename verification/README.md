# Verified models of the dashboard and its daemon

The project models six parts of a Raspberry Pi dashboard and of the small daemon that reports to it, and proves what
their documentation promises. Numbers of C++ type `double` are exact reals; where bytes matter they are bit patterns.

* **The resource-history curve** (`Bezier`, `CurveGeometry`, `CurveShape`, `CurveBuilder`, `CurveEquality`,
  `CurveTheorems`, `CurveLookup`): adaptive filtering, monotone tangents, cubic construction, clipping at the left edge
  of the window, tessellation and the lookup of a curve point. `exp` enters only as a function with values between 0
  and 1. `CurveFilter`, `CurveTangents`, `CurvePlot` and `CurveMarker` say what filter, tangents, plot and marker amount
  to.
* **The CBOR wire format** (`CborFormat`, `CborEncoder`, `CborTheorems`, `DaemonMessages`): the daemon's encoder against
  a reader written from sections 3 and 3.1 of RFC 8949.
* **The message schema** (`TelemetryTypes`, `TelemetrySchema`, `TelemetryRoundTrip`, `TelemetryWire`): the dashboard's
  printer and validating parser on CBOR values, with Qt's own byte codec as a parameter. `CborBridge` and
  `DaemonToDashboard` join it to the daemon's bytes.
* **The telemetry protocol** (`DeviceRegistry`, `RemoteRegistry`, `ReceiverLaws`, `TelemetryProtocol`,
  `TelemetryReplay`, `ReplayRuns`): the device registry with its file, the datagram receiver, and a state machine of
  daemons, a network that loses, duplicates and reorders, and the registry.
* **The GitHub refresh scheduler** (`ProjectRows`, `ProjectsScheduler`, `RepositoryPages`): a queue with at most four
  requests in flight, callbacks that feed it, the paging, and the fan-out and fan-in of a refresh.
* **Windows and retries** (`HistoryWindow`, `WindowLaws`, `HistoryDrawn`, `WeatherRetry`, `WeatherLaws`, `CpuIds`,
  `CpuGrammar`): the rolling history behind an animated window, the weather service's retry machine, and the parser of
  the kernel's CPU lists.

Code that changes state step by step is a class or a method with loops; each such method is proved against a
specification function, and the properties are lemmas about those functions. A few results stand out:

* `CurveShape.EmittedNeverTurnsBack`: every emitted cubic is monotone between its samples. The proof shows that the
  slope of every chord is an affine function of the two control points, and looks at the corners of their box.
* `CborTheorems.EncodingIsShortest`: of all byte strings that decode to the same data item, with pairs in the same order
  and floats of the same width, the daemon's is the shortest and the only one of that length.
  `CborTheorems.ComparatorIsBytewise` explains why its length-first sort is also the bytewise one.
* `DaemonToDashboard.HelloIsUnderstood` and `SnapshotIsUnderstood`: from the daemon's bytes the dashboard's parser gets
  exactly the message that was meant, system information and metrics included.
* `TelemetryWire.DecodesExactly` and `CpuGrammar.AcceptsExactly`: two parsers accept exactly what a description without
  reference to them describes.
* `TelemetryProtocol.EpochsAreOrdered`: what the registry applies within an epoch of a device, over all runs.
  `TelemetryReplay.OrderBreaksExactly` says, over all runs, exactly when the order of a whole run breaks: when a device
  without a sequence number accepts a snapshot that is no newer than something already applied of its instance.
  `OrderHoldsThroughout` is the case in which no instance begins two epochs.
* `ProjectsScheduler.ProjectsService.Finished` with `ProjectsScheduler.ReplyOrderIsIrrelevant`: a refresh is atomic and
  does not depend on the order of replies.
* `HistoryWindow.DisplayedWindowIsCovered` and `HistoryDrawn.PrunedAndWholeCurve`: pruning keeps every visible segment.
  In a plot with any height, it is drawn as from the whole history exactly when its run starts behind what was dropped,
  or the filter has caught up at its earlier sample and, in case that is the first sample kept and the segment more than
  a straight line or a point, both its tangents agree.
* `WeatherLaws.FailureDecides`, `StoppedExactly` and `FailuresAreCounted`: over all runs, what a failure leads to, when
  the service waits for the user, and how long the next pause is.

Where code and documentation differ the model follows the code. `docs/specs/018-udp-cbor-telemetry.md:12` lists four
reasons for a refusal; the code answers only well-formed hellos, with `duplicate_device_id` or `registry_full`
(`src/telemetry/udp_telemetry_receiver.cpp:42-50`, `RemoteRegistry.RepliesAreWellFormed`). Line 15 of that document
says that only strictly newer snapshots of the registered instance are accepted; over a whole run this fails exactly as
`TelemetryReplay.OrderBreaksExactly` says, and `ReplayRuns` holds three runs in which it does.
`docs/specs/009-live-resource-history.md:19` keeps the closest sample before the window for the continuity of the
filter; since filter and tangents start afresh at the first sample kept, one sample does not always suffice
(`HistoryDrawn.PruningCanChangeTheCurve`, `HistoryDrawn.CaughtUpIsNotEnough`). By `docs/specs/021-weather-page.md:27-29`
configured coordinates leave no place to look up; when credentials are missing at the start the code returns before it
takes them over, and a manual refresh then asks the automatic provider (`WeatherLaws.CoordinatesIgnoredExactly`).

In the protocol a daemon may send a snapshot in any pass that began with a hello, so the results do not depend on how it
recognises an acceptance. Inputs that come from outside are parameters: clock readings, datagrams, replies, animation
progress, whether a file can be written, and the credentials that decide whether the weather service starts.

## Model

| member | source | states |
|---|---|---|
| `Bezier.SplitIsRestriction` | src/dashboard/resource_history_geometry.cpp:121-128 | one coordinate: the right part of a de Casteljau split at p, evaluated at t, is the whole cubic at p + (1 - p)t, for all p and t |
| `Bezier.BoxedMonotone` | src/dashboard/resource_history_geometry.cpp:34-38 | a cubic whose two controls lie between its ends is monotone on [0, 1] and no steeper than three times its rise (corner argument over the two controls) |
| `Bezier.BoxedBetweenEnds` | src/dashboard/resource_history_geometry.cpp:34-38 | such a cubic stays between its two end values |
| `CurveShape.TangentWithinFence` | src/dashboard/resource_history_geometry.cpp:66-119 | every tangent has the sign of each neighbouring positive-width slope, or is zero, and at most three times its size |
| `CurveShape.ExtremaAreFlat` | src/dashboard/resource_history_geometry.cpp:78-119 | a sample not above, or not below, both neighbours has a flat tangent, whatever the timestamps; between positive widths no other sample has one |
| `CurveShape.ClampsAreNoOps` | src/dashboard/resource_history_geometry.cpp:155-158 | with such tangents the clamps on the control ordinates never change anything |
| `CurveShape.EmittedNeverTurnsBack` | src/dashboard/resource_history_geometry.cpp:142-173 | every emitted cubic, clipped or not, is monotone in y, whatever the timestamps: no extremum is invented |
| `CurveShape.NeverTurnsBackStaysBetween` | src/dashboard/resource_history_geometry.cpp:34-38 | a curve that never turns back stays between its own two end values |
| `CurveShape.EmittedBetweenSamples` | src/dashboard/resource_history_geometry.cpp:142-173 | every point of an emitted cubic lies between its two samples in height |
| `CurveShape.SplitRetraces` | src/dashboard/resource_history_geometry.cpp:121-128 | in the plane: the clipped curve retraces the unclipped one |
| `CurveShape.CorrectionsAreNoOps` | src/dashboard/resource_history_geometry.cpp:162-169 | with ordered timestamps the x coordinates set to zero or clamped at zero already have those values |
| `CurveShape.ClippedIsRestriction` | src/dashboard/resource_history_geometry.cpp:162-169 | the clipped segment is the original restricted to times from the cutoff on, and starts at x = max(x, 0) |
| `CurveShape.VisibleMomentIsDrawn` | src/dashboard/resource_history_geometry.cpp:159-169 | conversely every visible moment of the original segment is on the emitted one |
| `CurveShape.EmittedJoinIsC1` | src/dashboard/resource_history_geometry.cpp:142-173 | two neighbouring positive-width segments join with equal height and equal velocity, also when the first one is clipped |
| `CurveBuilder.MonotoneTangents` | src/dashboard/resource_history_geometry.cpp:78-119 | the loop over widths and slopes computes at every point the specified tangent, which CurveTangents and CurveShape pin down |
| `CurveBuilder.CompleteRun` | src/dashboard/resource_history_geometry.cpp:130-185 | the loop over segments, with clipping and tessellation, appends exactly the run of the specification and leaves no points |
| `CurveBuilder.BuildMetricGeometry` | src/dashboard/resource_history_geometry.cpp:188-228 | the loop over retained and current samples yields the specified geometry, of which CurveFilter, CurvePlot and CurveTheorems speak; nothing for an empty history or plot |
| `CurveTheorems.FilteredInHull` | src/dashboard/resource_history_geometry.cpp:48-64 | a filtered ratio lies between the least and the greatest clamped raw ratio since the last gap |
| `CurveTheorems.PlotPointInside` | src/dashboard/resource_history_geometry.cpp:210-214 | every plotted sample has a height in [6, max(6, plot height)] |
| `CurveTheorems.CubicsAreVisiblePairs` | src/dashboard/resource_history_geometry.cpp:188-219 | the drawn cubics correspond one to one and in order to the neighbouring present samples whose later time is in the window; no gap is bridged |
| `CurveTheorems.DrawnCubicIsTame` | src/dashboard/resource_history_geometry.cpp:188-219 | a drawn cubic is monotone and every point of it is inside the plot |
| `CurveTheorems.DrawnCubicIsExact` | src/dashboard/resource_history_geometry.cpp:188-219 | with ordered timestamps a drawn cubic is the unclipped one restricted to the window |
| `CurveTheorems.TessellationShape` | src/dashboard/resource_history_geometry.cpp:170-179 | a run has 1 + the sum of its subdivision counts, 1 to 64 per cubic, as points; they start and end with the curve and lie on it |
| `CurveTheorems.PolylineInsidePlot` | src/dashboard/resource_history_geometry.cpp:170-184 | every vertex of every drawn polyline is inside the plot |
| `CurveLookup.CurveIntersection` | src/dashboard/resource_history_geometry.cpp:230-264 | the nested loops with bisection return the first crossing, else the current endpoint when it is at the query |
| `CurveLookup.FirstCrossingIsFirst` | src/dashboard/resource_history_geometry.cpp:230-259 | the result belongs to the first cubic that crosses, and is missing exactly when none does |
| `CurveLookup.BracketHolds` | src/dashboard/resource_history_geometry.cpp:245-254 | on a segment with increasing x and controls at thirds every bisection step keeps the true parameter inside |
| `CurveLookup.BracketWidth` | src/dashboard/resource_history_geometry.cpp:245-254 | after n steps the bracket is 2^-n wide |
| `CurveLookup.IntersectionAccuracy` | src/dashboard/resource_history_geometry.cpp:245-257 | the point found is within (end.x - start.x)/2^33 in x and the steepness limit/2^33 in y of the true curve point |
| `CurveLookup.DrawnSegmentIsLinear` | src/dashboard/resource_history_geometry.cpp:149-164 | every drawn positive-width segment satisfies those conditions, with limit three times the rise between its samples |
| `CurveLookup.MarkerIsHidden` | src/dashboard/resource_history_geometry.cpp:230-264 | on ordered samples the lookup finds nothing exactly when the abscissa is on no drawn pair of neighbouring samples and not at a present newest sample |
| `CurveFilter.LongerPauseFollowsCloser` | src/dashboard/resource_history_geometry.cpp:55-61 | for a decay that falls, as exp(-x) does: a longer pause never leaves the filtered ratio further from the new raw one |
| `CurveFilter.LargerChangeIsFaster` | src/dashboard/resource_history_geometry.cpp:40-46 | a larger change of the raw ratio makes the processor's time constant smaller, strictly between the thresholds, and leaves that of memory alone |
| `CurveFilter.TimeConstantIsAffine` | src/dashboard/resource_history_geometry.cpp:44-45 | between the thresholds the time constant of the middle is the middle of the time constants |
| `CurveFilter.LargerChangeFollowsCloser` | src/dashboard/resource_history_geometry.cpp:55-61 | so from the same filtered ratio a larger raw change is followed at least as closely |
| `CurveFilter.OneTimeConstant` | src/dashboard/resource_history_geometry.cpp:40-61 | 3 s for memory, 1.8 s for slow and 0.35 s for fast changes of the processor all leave the same share of the difference |
| `CurveFilter.TwoStepsAreOne` | src/dashboard/resource_history_geometry.cpp:55-61 | for a decay that turns sums into products: while raw ratio and time constant stay, two samples leave the filter where one would |
| `CurveFilter.HeldValueIsApproached` | src/dashboard/resource_history_geometry.cpp:202-218 | over a whole stretch with a held raw ratio, what is left of the difference depends on the elapsed time alone, however often it is sampled |
| `CurveTangents.HarmonicMean` | src/dashboard/resource_history_geometry.cpp:109-111 | the reciprocal of an inner tangent is the mean of the reciprocal slopes, in which the earlier one counts a third plus a third of the later interval's share in time |
| `CurveTangents.ShorterIntervalWeighsMore` | src/dashboard/resource_history_geometry.cpp:100-112 | the tangent is nearer, in reciprocals, to the slope over the shorter interval, strictly when slopes and widths differ |
| `CurveTangents.LinesAreKept` | src/dashboard/resource_history_geometry.cpp:92-118 | on samples of a straight line every tangent is its slope |
| `CurveTangents.ParabolaStart` | src/dashboard/resource_history_geometry.cpp:66-99 | where the first three samples lie on a parabola the first tangent is its derivative, unless that is against the first slope or overshoots before a turn |
| `CurveTangents.ParabolaEnd` | src/dashboard/resource_history_geometry.cpp:113-117 | so is the last one, from the last three samples |
| `CurvePlot.FirstIsPlottedAsItIs` | src/dashboard/resource_history_geometry.cpp:211-214 | the first sample after a gap is plotted at its own ratio: 1 just below the headroom, 0 at the bottom, one half in the middle |
| `CurvePlot.HeightsAreProportional` | src/dashboard/resource_history_geometry.cpp:214 | heights differ in proportion to the filtered ratios, upwards |
| `CurvePlot.WindowFillsTheWidth` | src/dashboard/resource_history_geometry.cpp:211 | the window's start, middle and end are the left edge, the middle and the right edge |
| `CurvePlot.FallbackIsStraight` | src/dashboard/resource_history_geometry.cpp:149-153 | between repeated or decreasing timestamps the curve is the straight line between the two points |
| `CurvePlot.AboutOneStepPerPixel` | src/dashboard/resource_history_geometry.cpp:170-173 | a cubic has as many steps as pixels in width, rounded up, at least one and at most 64 |
| `CurvePlot.StepsAreEven` | src/dashboard/resource_history_geometry.cpp:170-179 | where the abscissa is linear the steps are equally wide, and at most a pixel unless there are 64 |
| `CurvePlot.RunShowsItsSamples` | src/dashboard/resource_history_geometry.cpp:130-142 | the samples of a run are the plotted samples of one gapless stretch, from the window's start on, all of them in order |
| `CurveMarker.NewestIsReached` | src/dashboard/resource_history_geometry.cpp:230-264 | at the newest sample's abscissa the marker is within three times the last rise over 2^33 of its true height |
| `CurveMarker.LoneNewestAnswers` | src/dashboard/resource_history_geometry.cpp:260-263 | a newest sample that no drawn pair reaches answers for itself |
| `CurveMarker.StepAnswersLater` | src/dashboard/resource_history_geometry.cpp:239-244 | where a drawn pair takes no width the answer is its later sample |
| `CborFormat.NumberOfBigEndian` | daemon/src/daemon.cpp:249-266 | reading back big-endian bytes gives the number that was written |
| `CborEncoder.ByteWriter.Head` | daemon/src/daemon.cpp:249-266 | the pushes append the specified head and nothing else |
| `CborEncoder.ByteWriter.PushBigEndian` | daemon/src/daemon.cpp:256-265 | the shift loop appends the big-endian bytes |
| `CborEncoder.ByteWriter.Put` | daemon/src/daemon.cpp:267-307 | the recursive encoder appends the specified bytes of any value, sorting maps in place |
| `CborEncoder.ByteWriter.Collect` | daemon/src/daemon.cpp:294-295 | the vector of encoded keys lists every key of the map once, in whatever order the map is walked |
| `CborEncoder.SortedEntries` | daemon/src/daemon.cpp:294-299 | sorting that vector always gives one order, so the bytes depend on the abstract map alone |
| `CborEncoder.Cbor` | daemon/src/daemon.cpp:353-357 | the bytes of a value |
| `CborTheorems.HeadReads` | daemon/src/daemon.cpp:249-266 | a reader written from section 3 of RFC 8949 reads major type and argument back from every head |
| `CborTheorems.DecodeEncode` | daemon/src/daemon.cpp:267-307 | a reader written from sections 3 and 3.1 of RFC 8949 returns the value and the rest, for every nested value and every rest |
| `CborTheorems.DenoteInjective` | daemon/src/daemon.cpp:267-307 | different values stand for different data items |
| `CborTheorems.EncodingIsPrefixFree` | daemon/src/daemon.cpp:267-307 | the encoding of one value is a prefix of another's exactly when the values are equal |
| `CborTheorems.ShortestHead` | daemon/src/daemon.cpp:249-266 | any head with the same meaning is longer or identical (section 4.2.1 of RFC 8949) |
| `CborTheorems.EncodingIsShortest` | daemon/src/daemon.cpp:267-307 | any byte string that decodes to the same data item, with pairs in the same order and floats of the same width, is longer than the daemon's, or equal to it |
| `CborTheorems.ComparatorIsLengthFirst` | daemon/src/daemon.cpp:296-298 | the comparator on encoded keys is the length-first order of section 4.2.3 of RFC 8949 on the keys |
| `CborTheorems.ComparatorIsBytewise` | daemon/src/daemon.cpp:296-298 | it is at the same time the bytewise order of the encoded keys of section 4.2.1 |
| `CborTheorems.MapsAscend` | daemon/src/daemon.cpp:293-304 | an emitted map lists exactly its keys, strictly ascending in the bytewise order |
| `CborTheorems.OneAscendingOrder` | daemon/src/daemon.cpp:293-304 | no other listing of the keys ascends |
| `CborTheorems.TrueIsVisible` | daemon/src/daemon.cpp:918 | every well-formed definite-length encoding of an item that contains true contains the byte 0xf5 |
| `DaemonMessages.Hello` | daemon/src/daemon.cpp:868-874 | a reader finds the specified fields in a hello, each with the value that was put in, and no key but those |
| `DaemonMessages.Snapshot` | daemon/src/daemon.cpp:875-883 | likewise for a snapshot; metrics are present exactly when there are any |
| `DaemonMessages.FieldOfMap` | daemon/src/daemon.cpp:293-304 | looking up a text key in an encoded map finds the value stored under it, or nothing |
| `DaemonMessages.RecogniseAcceptance` | daemon/src/daemon.cpp:916-918 | a registration result with accepted = true that fits the receive buffer is recognised, whichever codec wrote it |
| `DaemonToDashboard.FoundField` | src/protocol/device_snapshot.cpp:370-376 | what the dashboard finds under one of the daemon's keys in an encoded map is what was stored there, or undefined |
| `CborBridge.ReadingUndoesWriting` | daemon/src/daemon.cpp:267-307 | any value of the schema, however nested, that the daemon's encoder writes is presented to the parser as that value |
| `DaemonToDashboard.HelloIsUnderstood` | src/protocol/device_snapshot.cpp:358-392 | the bytes of a hello in which well-formed system information is written, read as CBOR, decode to exactly that message |
| `DaemonToDashboard.SnapshotIsUnderstood` | src/protocol/device_snapshot.cpp:358-427 | so do the bytes of a snapshot, with or without well-formed metrics |
| `TelemetryRoundTrip.InsertedValue` | src/protocol/device_snapshot.cpp:23-34 | reading a key of a map built by optional inserts gives what was inserted, and undefined when nothing was |
| `TelemetryRoundTrip.InfoBack` | src/protocol/device_snapshot.cpp:66-144 | infoFromMap undoes infoToMap on all well-formed system information |
| `TelemetryRoundTrip.MetricsBack` | src/protocol/device_snapshot.cpp:146-319 | metricsFromMap undoes metricsToMap on all well-formed metrics |
| `TelemetryRoundTrip.ReadTextsIff` | src/protocol/device_snapshot.cpp:130-141 | ids are read exactly when all are valid texts and no two are equal, and come in order |
| `TelemetryRoundTrip.ReadEntriesIff` | src/protocol/device_snapshot.cpp:234-242 | a named list is read exactly when every entry is a map that parses and no two share a name |
| `TelemetryRoundTrip.RoundTrip` | src/protocol/device_snapshot.cpp:336-427 | decodeMessage undoes encodeMessage on every well-formed hello, registration result and snapshot |
| `TelemetryRoundTrip.AcceptedIsWellFormed` | src/protocol/device_snapshot.cpp:358-427 | whatever decodeMessage accepts is well formed, and encoding and decoding it again changes nothing |
| `TelemetryRoundTrip.UnknownKeysAreIgnored` | src/protocol/device_snapshot.cpp:370-426 | a top-level key the protocol does not know changes neither the result nor the error |
| `TelemetryWire.InfoExactly` | src/protocol/device_snapshot.cpp:66-144 | system information is read from a value exactly when it is well formed and stands there section by section, every field under its name, anything of another type being a reason to refuse |
| `TelemetryWire.MetricsExactly` | src/protocol/device_snapshot.cpp:146-319 | likewise metrics with their three sections and four lists |
| `TelemetryWire.DecodesExactly` | src/protocol/device_snapshot.cpp:358-427 | a value is decoded as a message exactly when the message is well formed and the value holds it, field by field; other keys, also nested ones, do not matter |
| `TelemetryWire.RefusalNamesTheFault` | src/protocol/device_snapshot.cpp:370-425 | the error names the first fault: version, then identity, then the contents; metrics are at fault exactly when the snapshot is good without them |
| `TelemetryRoundTrip.DatagramRoundTrip` | src/protocol/device_snapshot.cpp:327-427 | through a codec that keeps the value, a message survives exactly when its datagram is neither empty nor over 16 KiB |
| `TelemetryRoundTrip.SystemInfoRoundTrip` | src/protocol/device_snapshot.cpp:428-433 | decodeSystemInfo undoes encodeSystemInfo |
| `TelemetryRoundTrip.DatagramIsWellFormed` | src/protocol/device_snapshot.cpp:358-427 | from any bytes at all only well-formed messages come out |
| `TelemetrySchema.ParseIds` | src/protocol/device_snapshot.cpp:130-141 | the loop with its set of seen ids computes the specified result |
| `TelemetrySchema.ParseEntries` | src/protocol/device_snapshot.cpp:234-242 | the loop over named entries computes the specified result, for any kind of entry |
| `TelemetrySchema.ParseNamed` | src/protocol/device_snapshot.cpp:234-242 | undefined reads as an empty list, anything but a bounded list is refused |
| `TelemetrySchema.CheckParts` | src/protocol/device_snapshot.cpp:308-317 | the loops accept exactly the metrics in which no part exceeds its total |
| `DeviceRegistry.HelloKeeps` | src/telemetry/remote_device_registry.cpp:42-83 | a hello keeps the registry consistent: at most 64 devices, distinct ids, sequence and snapshot time together, states that agree with them |
| `DeviceRegistry.SnapshotKeeps` | src/telemetry/remote_device_registry.cpp:85-104 | so does a snapshot |
| `DeviceRegistry.ForgetKeeps` | src/telemetry/remote_device_registry.cpp:123-134 | so does forgetting, which removes that device and no other |
| `DeviceRegistry.IdentityChangesHands` | src/telemetry/remote_device_registry.cpp:45-66 | a known identity goes to the greeting instance and endpoint exactly when it is that instance, or offline, or the greeting is from the same host |
| `DeviceRegistry.OrderIsStable` | src/telemetry/remote_device_registry.cpp:42-83 | devices keep their places, a new one goes to the end, and registry_full means 64 others |
| `DeviceRegistry.ForgetKeepsOrder` | src/telemetry/remote_device_registry.cpp:123-134 | the remaining devices keep their order |
| `DeviceRegistry.HelloIsShown` | src/telemetry/remote_device_registry.cpp:42-83 | an accepted hello shows its device as described, at the sender; under another instance it starts over, registered and without data, and under the same one keeps data and age; others only age |
| `DeviceRegistry.SnapshotIsShown` | src/telemetry/remote_device_registry.cpp:85-104 | an accepted snapshot shows its device online with what it reports and touches no other device |
| `DeviceRegistry.SnapshotAges` | src/telemetry/remote_device_registry.cpp:106-121 | after an accepted snapshot: stale from 3 intervals of age, offline from 10, online before |
| `DeviceRegistry.RemoteUsageNeverWraps` | src/dashboard/device_model.cpp:33-39 | on every consistent registry used is the true difference and ratio lies in [0, 1], for memory, swap and volumes |
| `DeviceRegistry.PartsAreSane` | src/dashboard/device_model.cpp:33-39 | used does not wrap and ratio stays in [0, 1] exactly when the part is at most the total |
| `DeviceRegistry.UsedIsTheRest` | src/dashboard/device_model.cpp:33-39 | used and available add up to the total, and their shares to one |
| `DeviceRegistry.LoadsExactly` | src/telemetry/remote_device_registry.cpp:153-197 | a file is accepted exactly when it is of version 1 and lists up to 64 devices, each stored in full and no two of one identity |
| `DeviceRegistry.PersistThenLoad` | src/telemetry/remote_device_registry.cpp:136-197 | load accepts what persist wrote and restores the same devices in order, offline, without instance, sequence or metrics |
| `DeviceRegistry.LoadedIsConsistent` | src/telemetry/remote_device_registry.cpp:153-197 | whatever the file holds, what load accepts is a consistent registry with every device offline |
| `DeviceRegistry.RefreshStoresTheSame` | src/telemetry/remote_device_registry.cpp:106-151 | ageing does not change what is stored |
| `RemoteRegistry.RemoteDeviceRegistry.RegisterHello` | src/telemetry/remote_device_registry.cpp:42-83 | the loop over devices does what the specification says, and a written file holds the current devices |
| `RemoteRegistry.RemoteDeviceRegistry.AcceptSnapshot` | src/telemetry/remote_device_registry.cpp:85-104 | likewise; accepted exactly when newer, from the registered instance, endpoint and interval |
| `RemoteRegistry.RemoteDeviceRegistry.UpdateFreshness` | src/telemetry/remote_device_registry.cpp:106-121 | every device gets the state of its age; the stored file stays good |
| `RemoteRegistry.RemoteDeviceRegistry.ForgetDevice` | src/telemetry/remote_device_registry.cpp:123-134 | true exactly when the device was known; it is gone afterwards |
| `RemoteRegistry.RemoteDeviceRegistry.Persist` | src/telemetry/remote_device_registry.cpp:136-151 | a failed write changes nothing but the diagnostic |
| `RemoteRegistry.RemoteDeviceRegistry.Load` | src/telemetry/remote_device_registry.cpp:153-197 | missing, unreadable, corrupt and good files |
| `RemoteRegistry.UdpTelemetryReceiver.ProcessPendingDatagrams` | src/telemetry/udp_telemetry_receiver.cpp:32-59 | at most 32 datagrams, each counted once as accepted or dropped, dispatched in order, and the replies sent are those of ReceiverLaws.EveryHelloIsAnswered; asks for another call exactly when some are left |
| `ReceiverLaws.EveryHelloIsAnswered` | src/telemetry/udp_telemetry_receiver.cpp:36-57 | a batch gets exactly one reply for each datagram that decodes to a hello, in order, to its sender and with its ids, accepted exactly when the registry then holds that device under that instance |
| `ReceiverLaws.HelloIsAnswered` | src/telemetry/udp_telemetry_receiver.cpp:47-51 | for one datagram: that reply for a hello, and none for anything else |
| `ReceiverLaws.HellosAreAll` | src/telemetry/udp_telemetry_receiver.cpp:42-47 | the hellos spoken of are all datagrams of the batch that decode to one, in order |
| `ReceiverLaws.CountsExactly` | src/telemetry/udp_telemetry_receiver.cpp:47-56 | a datagram counts as accepted exactly when it is a hello or a snapshot that has become its device's last one; else it changes nothing |
| `ReceiverLaws.CountIsTheirNumber` | src/telemetry/udp_telemetry_receiver.cpp:36-57 | the counter goes up by the number of such datagrams |
| `RemoteRegistry.AnyBytesKeepTheRegistry` | src/telemetry/udp_telemetry_receiver.cpp:32-59 | whatever bytes arrive in whatever order, the registry stays consistent |
| `RemoteRegistry.RepliesAreWellFormed` | src/telemetry/udp_telemetry_receiver.cpp:47-50 | every reply there is, is a well-formed result, accepted exactly when there is no reason; the only reasons are duplicate_device_id and registry_full |
| `TelemetryProtocol.StepKeeps` | src/telemetry/remote_device_registry.cpp:42-104 | every step of daemons, network, clock, user and restart keeps the protocol invariant |
| `TelemetryProtocol.ReachableInv` | daemon/src/daemon.cpp:884-928 | the invariant holds after every run |
| `TelemetryProtocol.EpochsAreOrdered` | src/telemetry/remote_device_registry.cpp:85-98 | in every run, within an epoch of a device the applied snapshots have strictly increasing sequence numbers of one instance, and each is the one snapshot that instance sent under its number |
| `TelemetryProtocol.LogsOnlyGrow` | src/telemetry/remote_device_registry.cpp:85-98 | as long as an epoch lasts, what was applied stays applied and in order |
| `TelemetryProtocol.PassSucceeds` | daemon/src/daemon.cpp:912-923 | in every run, a pass whose hello is accepted ends with its snapshot accepted when nothing else intervenes |
| `TelemetryReplay.OrderBreaksExactly` | docs/specs/018-udp-cbor-telemetry.md:15 | over every run: the applied snapshots are out of order exactly when some event delivered a snapshot to a device of its id, instance, endpoint and interval that had no sequence number, although something at least as new had been applied of that instance |
| `TelemetryReplay.NextBreaksOrder` | src/telemetry/remote_device_registry.cpp:85-98 | in every run, while the order lasts the next event breaks it exactly when it delivers such a snapshot |
| `TelemetryReplay.BlankAccepts` | src/telemetry/remote_device_registry.cpp:85-98 | a device without a sequence number accepts exactly the snapshots that its instance sent from its endpoint |
| `TelemetryReplay.ReplayNeedsTheSameEndpoint` | src/telemetry/remote_device_registry.cpp:42-98 | in every run and for every device: without a sequence number, an applied snapshot of its instance can be accepted again exactly when one sent from its present endpoint has been applied; with one, none can while the order lasts |
| `TelemetryReplay.RepeatBreaksTheOrder` | src/telemetry/remote_device_registry.cpp:85-98 | delivering such a snapshot applies it a second time, so the order over the whole run is broken |
| `TelemetryReplay.OrderHoldsThroughout` | docs/specs/018-udp-cbor-telemetry.md:15 | in every run in which no instance begins two epochs, the applied snapshots of an instance have strictly increasing sequence numbers from start to end |
| `TelemetryReplay.ReachableTracks` | src/telemetry/remote_device_registry.cpp:42-104 | the invariant behind both: while the order lasts, a device with a sequence number is at least as new as everything ever applied of its instance; one without has nothing applied while no instance has begun two epochs |
| `ReplayRuns.ReplayedEpoch` | src/telemetry/remote_device_registry.cpp:56-62 | two runs' hellos delivered in turn from one host let an old snapshot be applied again, in any registry |
| `ReplayRuns.ReplayHappens` | docs/specs/018-udp-cbor-telemetry.md:15 | a concrete run of ten events from the empty registry in which the first run's only snapshot is applied twice |
| `ReplayRuns.MovedHelloReplays` | docs/specs/018-udp-cbor-telemetry.md:15 | a run with a dashboard restart in which it is applied twice although nothing had been applied from the endpoint that began the second epoch: a later hello moves the device back |
| `ReplayRuns.HeldUpSnapshotIsApplied` | docs/specs/018-udp-cbor-telemetry.md:15 | a run with a dashboard restart in which an older snapshot is applied for the first time after a newer one |
| `TelemetryProtocol.FreshnessHasNoMemory` | src/telemetry/remote_device_registry.cpp:106-121 | recomputing freshness in between leaves no trace |
| `ProjectRows.ArrivalOrderIsIrrelevant` | src/projects/projects_service.cpp:412-414 | for repositories with distinct keys every order of arrival publishes the same list |
| `ProjectsScheduler.CompleteRepliesArePermutations` | src/projects/projects_service.cpp:354-432 | complete replies to one list of repositories with the same answers are permutations of each other, in whatever order they came |
| `ProjectsScheduler.ReplyOrderIsIrrelevant` | src/projects/projects_service.cpp:354-432 | so a refresh publishes the same list for every order of replies, when the public repositories have distinct keys |
| `ProjectRows.PublishedIsSorted` | src/projects/projects_service.cpp:147-156 | in the published list the latest execution comes first, and of equally late ones the least key; it has exactly one row for each reply with runs, with that run, and no other |
| `ProjectRows.DetailsSurvive` | src/projects/projects_service.cpp:158-173 | of the details of the row with the same key exactly the four loaded ones live on, with their values |
| `ProjectRows.RetainLoadedProjectDetails` | src/projects/projects_service.cpp:158-173 | the loops keep exactly the four loaded details of a row with the same key |
| `ProjectRows.FindSelected` | src/projects/projects_service.cpp:415-420 | the selected key is found whenever it is in the list, else the first row |
| `ProjectsScheduler.ProjectsService.StartRequests` | src/projects/projects_service.cpp:622-637 | requests start in the order they were made until four are active or none waits |
| `ProjectsScheduler.ProjectsService.Post` | src/projects/projects_service.cpp:617-620 | a request joins the end of the queue and is started as soon as there is room |
| `ProjectsScheduler.ProjectsService.Refresh` | src/projects/projects_service.cpp:259-267 | a refresh starts exactly when none is under way, and otherwise the call changes nothing |
| `ProjectsScheduler.ProjectsService.Finished` | src/projects/projects_service.cpp:637-675 | a reply gives its request its one callback; a page fails the refresh with the old rows kept, leads to the next page, or to the runs; only the last reply of a fully valid refresh replaces the list, with the selected key kept when it survives; else the old rows stay |
| `ProjectsScheduler.ProjectsService.OnRuns` | src/projects/projects_service.cpp:370-432 | the fan-in: counting replies, collecting rows, publishing or failing with the last; after publishing, runners and details are asked for, and else nothing |
| `ProjectsScheduler.ProjectsService.LoadRuns` | src/projects/projects_service.cpp:354-369 | the fan-out: one request per repository, or an empty list at once |
| `ProjectsScheduler.ProjectsService.OnRepositories` | src/projects/projects_service.cpp:276-305 | a page of repositories: fail, next page, private ones or runs; RepositoryPages says what comes of all pages |
| `ProjectsScheduler.ProjectsService.OnPrivateRepositories` | src/projects/projects_service.cpp:316-351 | a page of private repositories, which are added without duplicates and may fail without failing the refresh |
| `ProjectsScheduler.ProjectsService.SelectProject` | src/projects/projects_service.cpp:478-487 | selecting another row changes neither the rows nor a refresh under way, and asks for the jobs and artifacts of its run |
| `ProjectsScheduler.MergedAddsTheNew` | src/projects/projects_service.cpp:322-345 | behind the repositories found come exactly the listed ones whose key has not been seen, in their order; no key is lost |
| `RepositoryPages.NextPublicPage` | src/projects/projects_service.cpp:269-298 | after so many full pages the next page number is asked for, with all that has been listed so far |
| `RepositoryPages.PublicRepositoriesAreFound` | src/projects/projects_service.cpp:269-303 | without a token a refresh loads the runs of what all public pages list, in order |
| `RepositoryPages.AllRepositoriesAreFound` | src/projects/projects_service.cpp:269-350 | with a token all private pages follow, and together the refresh finds the public repositories and then the new private ones |
| `RepositoryPages.LostPrivatePage` | src/projects/projects_service.cpp:351 | when a private page cannot be had the refresh goes on with what was found before it |
| `RepositoryPages.LostPublicPage` | src/projects/projects_service.cpp:278-306 | without one of the public pages, or with an invalid one, it fails |
| `ProjectsScheduler.MergedStaysDistinct` | src/projects/projects_service.cpp:322-345 | adding private repositories keeps keys distinct and the public ones in place |
| `ProjectsScheduler.BusyWhileRefreshing` | src/projects/projects_service.cpp:259-262 | while a refresh is under way the guard of refresh holds, so refreshes exclude each other |
| `ProjectsScheduler.QuiescentMeansAnswered` | src/projects/projects_service.cpp:617-677 | when nothing is active, nothing waits and every request ever made has had exactly one callback |
| `ProjectsScheduler.TakeReply` | src/projects/projects_service.cpp:407-411 | after as many replies as repositories no request of the refresh is outstanding |
| `ProjectsScheduler.StageWithout` | src/projects/projects_service.cpp:637-640 | what is left to wait for when one request has been answered |
| `HistoryWindow.SmoothstepRises` | src/dashboard/resource_history_series.cpp:424-428 | the easing is monotone and stays in [0, 1] |
| `HistoryWindow.FrameMovesForward` | src/dashboard/resource_history_series.cpp:281-285 | with non-decreasing progress the displayed end only moves towards its target |
| `HistoryWindow.CachingMovesForward` | src/dashboard/resource_history_series.cpp:364-401 | with timestamps in order a model change never moves the displayed end back |
| `HistoryWindow.AppendKeepsTheRecent` | src/sysmetrics/system_metric_history_model.cpp:41-60 | the model holds exactly the samples of the last 60 seconds |
| `HistoryWindow.SystemMetricHistoryModel.AppendSample` | src/sysmetrics/system_metric_history_model.cpp:41-60 | removal and append with their signals leave model and series consistent and the series with one more sample seen |
| `HistoryWindow.ResourceHistorySeries.CaptureRemovedPrefix` | src/dashboard/resource_history_series.cpp:357-362 | rows removed at the front are kept aside in order |
| `HistoryWindow.ResourceHistorySeries.CacheModel` | src/dashboard/resource_history_series.cpp:364-416 | window and prefix after a model change; the pruning loop stops one before the first sample inside |
| `HistoryWindow.ResourceHistorySeries.SetModel` | src/dashboard/resource_history_series.cpp:297-309 | attaching starts over with the model's samples |
| `HistoryWindow.ResourceHistorySeries.ValueChanged` | src/dashboard/resource_history_series.cpp:281-285 | a frame moves the window to the eased position between start and target, never back, and keeps the view valid |
| `HistoryWindow.ResourceHistorySeries.AnimationFinished` | src/dashboard/resource_history_series.cpp:286-290 | the window arrives at its target |
| `HistoryWindow.ResourceHistorySeries.SetTransitionDuration` | src/dashboard/resource_history_series.cpp:333-338 | a negative duration counts as none, and nothing else changes: a running transition keeps its own |
| `HistoryWindow.PruningKeepsShown` | src/dashboard/resource_history_series.cpp:402-413 | pruning drops only what is behind a sample left of the window |
| `HistoryWindow.DisplayedWindowIsCovered` | src/dashboard/resource_history_series.cpp:357-416 | at every quiescent point all samples inside the displayed 60 seconds are there, and the closest one before them |
| `HistoryDrawn.NothingVisibleIsPruned` | src/dashboard/resource_history_series.cpp:223-232 | the pruned history is drawn with one cubic for each visible pair of the whole history, in the same order; the cubics may differ |
| `HistoryDrawn.SameCubicBehindGap` | src/dashboard/resource_history_series.cpp:402-413 | a pair whose run begins behind what was dropped is drawn with the identical cubic |
| `HistoryDrawn.FilterAgrees` | src/dashboard/resource_history_geometry.cpp:48-64 | in a run that was cut, the filtered values agree exactly when the whole history's filter was at the raw value where it was cut or a timestamp has not increased since |
| `HistoryDrawn.CutPairExactly` | src/dashboard/resource_history_series.cpp:402-413 | in a run that was cut, whatever the timestamps, a pair is drawn with the identical cubic exactly when the plot has no height, or the filter has caught up at its earlier sample and, if that is the first one kept, time does not advance, the pair ends at the window's edge, or both its tangents agree |
| `HistoryDrawn.SameCubicOnceCaughtUp` | src/dashboard/resource_history_series.cpp:402-413 | behind the first pair kept: exactly when the filter has caught up at the earlier sample |
| `HistoryDrawn.DifferentUntilCaughtUp` | src/dashboard/resource_history_series.cpp:402-413 | while the filter has not caught up at the later sample the cubics even end at different heights |
| `HistoryDrawn.PrunedAndWholeCurve` | src/dashboard/resource_history_series.cpp:402-413 | side by side: the k-th cubics of pruned and whole history are identical exactly when their run begins behind what was dropped or that condition holds |
| `HistoryDrawn.PruningCanChangeTheCurve` | docs/specs/009-live-resource-history.md:19 | three memory samples after which the one visible segment ends elsewhere than drawn from the whole history |
| `HistoryDrawn.CaughtUpIsNotEnough` | docs/specs/009-live-resource-history.md:19 | three memory samples after which every point is where it would be and the one visible segment still is another one |
| `CurveEquality.SameCubicExactly` | src/dashboard/resource_history_geometry.cpp:142-173 | for two runs that span the same times: they emit the same cubic exactly when heights and, over a positive width, tangents agree, or only the common end is right of the cutoff |
| `CurveEquality.TangentsAgreeBehind` | src/dashboard/resource_history_geometry.cpp:78-119 | a run that is the end of another has the same tangents from its second point on, if the points before agree or take no time |
| `Bezier.SplitDetermines` | src/dashboard/resource_history_geometry.cpp:121-128 | before the end of the curve, the right part of a split determines the whole cubic |
| `HistoryDrawn.LateSamplePrunes` | src/dashboard/resource_history_series.cpp:364-416 | the state of both is what an append without animation leaves behind |
| `WindowLaws.SmoothstepIsTheEase` | src/dashboard/resource_history_series.cpp:424-428 | the easing is the Bezier curve from 0 to 1 with controls at its ends, and leaves and arrives with speed zero |
| `WindowLaws.SmoothstepRisesStrictly` | src/dashboard/resource_history_series.cpp:424-428 | in between it rises strictly |
| `WindowLaws.FramesArrive` | src/dashboard/resource_history_series.cpp:281-285 | frames move the window strictly towards its target, and at full progress it is there |
| `WindowLaws.TransitionStartsWhereItIs` | src/dashboard/resource_history_series.cpp:378-401 | a later sample starts a transition from where the window is displayed, over the set duration; only the first sample, an earlier one or a duration of none are shown at once |
| `WindowLaws.AttachingShowsTheNewest` | src/dashboard/resource_history_series.cpp:370-377 | an attached model is shown at its newest sample at once, an empty one not at all |
| `WindowLaws.PruningIsTight` | src/dashboard/resource_history_series.cpp:402-413 | pruning leaves at most one sample left of the window |
| `WeatherRetry.StepKeeps` | src/weather/weather_service.cpp:154-228 | every reply, timer and manual refresh keeps: in flight exactly while one request is outstanding, then no timer and not stopped; idle after a start means timer or stopped; the resolved location matches held data |
| `WeatherRetry.ReachableInv` | src/weather/weather_service.cpp:100-228 | that holds after every run from every start |
| `WeatherRetry.NeverStuck` | src/weather/weather_service.cpp:171-228 | once started the service waits for a reply, its timer or the user, and the timer always starts a request |
| `WeatherRetry.ManualRefreshAlwaysWorks` | src/weather/weather_service.cpp:169-191 | a manual refresh always leads to one request under way |
| `WeatherRetry.BackoffRises` | src/weather/weather_service.cpp:222-226 | backoffs never shrink, and are at most the refresh interval and 960 seconds |
| `WeatherRetry.DelaysNeverShrink` | src/weather/weather_service.cpp:214-228 | in every run, between forecasts delays without Retry-After never shrink nor exceed the refresh interval, and none is shorter than asked for |
| `WeatherLaws.FailureDecides` | src/weather/weather_service.cpp:214-228 | in every run: after an ordinary failure the timer is armed and not stopped, for at least what the server asked and the smaller of 30 s and the refresh interval; after an authentication failure there is no timer and the service is stopped |
| `WeatherLaws.FailuresAreCounted` | src/weather/weather_service.cpp:154-228 | the failure count of every run is the number of ordinary failures since the last forecast; neither a refresh nor a new place shortens the pause |
| `WeatherLaws.BackoffDoubles` | src/weather/weather_service.cpp:224 | each failure doubles the pause from 30 s, up to 960 s and to the refresh interval |
| `WeatherLaws.StoppedExactly` | src/weather/weather_service.cpp:171-228 | in every run the service is stopped exactly when an authentication failure has taken effect and there has been no manual refresh since |
| `WeatherLaws.ForecastIsShown` | src/weather/weather_service.cpp:193-212 | a forecast is shown as it came, for the place asked about, with the next one due after the refresh interval; air quality is taken over exactly from data of the same place |
| `WeatherLaws.AirQualityIsShown` | src/weather/weather_service.cpp:137-141 | air quality is shown when it arrives, changes nothing else, and outlives a following forecast for the same place that has none |
| `WeatherLaws.LocationIsAskedFor` | src/weather/weather_service.cpp:154-167 | a resolved location is asked for its forecast at once; held data and its age stay exactly when it is for the same place |
| `WeatherLaws.StartAsksAtOnce` | src/weather/weather_service.cpp:118-131 | with credentials the first request follows the configured mode, without them there is an error and no request |
| `WeatherLaws.ReachableShows` | src/weather/weather_service.cpp:171-228 | in every run requests are for the right thing, and held data is stale while a request is under way or after it failed, and fresh after a forecast |
| `WeatherLaws.ResolvedStays` | src/weather/weather_service.cpp:154-191 | once there is a place no event takes it away, and only forecasts are asked for |
| `WeatherLaws.CoordinatesAreUsed` | docs/specs/021-weather-page.md:27-29 | in every run with configured coordinates: with credentials the place is that one, without them nothing is asked before a manual refresh |
| `WeatherLaws.CoordinatesIgnoredExactly` | src/weather/weather_service.cpp:121-127 | with configured coordinates the automatic location provider is asked exactly when credentials were missing at the start and the user has refreshed |
| `WeatherRetry.WeatherService.Refresh` | src/weather/weather_service.cpp:169-191 | a manual refresh takes the object from the old state to the machine's next one and keeps the full invariant |
| `WeatherRetry.WeatherService.TimerFired` | src/weather/weather_service.cpp:104 | likewise when the timer fires |
| `WeatherRetry.WeatherService.OnResolved` | src/weather/weather_service.cpp:154-167 | likewise for the reply to the location request, which is answered and no longer pending; data of another place is dropped |
| `WeatherRetry.WeatherService.OnForecastReady` | src/weather/weather_service.cpp:135-136 | likewise for the reply to the forecast request |
| `WeatherRetry.WeatherService.OnFailed` | src/weather/weather_service.cpp:214-228 | likewise for a failed request of either kind |
| `WeatherRetry.WeatherService.OnAirQualityReady` | src/weather/weather_service.cpp:137-141 | likewise for air quality, which may arrive at any time |
| `WeatherRetry.WeatherService.Start` | src/weather/weather_service.cpp:171-191 | startOperation on the object's fields is the specified transition |
| `WeatherRetry.WeatherService.SetLocation` | src/weather/weather_service.cpp:154-167 | the body of the location handler, after the answered request has left the pending list, is the specified transition |
| `WeatherRetry.WeatherService.Publish` | src/weather/weather_service.cpp:193-212 | likewise the body of the forecast handler |
| `WeatherRetry.WeatherService.Fail` | src/weather/weather_service.cpp:214-228 | likewise the body of the failure handler |
| `CpuIds.NumberOfDecimal` | daemon/src/daemon.cpp:87-94 | the digits of a number are read back as that number |
| `CpuGrammar.AcceptsExactly` | daemon/src/daemon.cpp:183-208 | a text is accepted exactly when it is, but for space around it, a comma-joined list of numbers and ascending ranges within the caps without a repeated id, and gives these ids in order |
| `CpuGrammar.ParseUndoesPrint` | daemon/src/daemon.cpp:183-208 | for all lists of disjoint ranges within the caps, parsing the printed text, with or without the final newline, gives the flattened ids in order |
| `CpuIds.AcceptedIdsAreBounded` | daemon/src/daemon.cpp:183-208 | whatever is accepted is non-empty, without duplicates, at most 256 ids, none above 4095 |
| `CpuIds.OnlineCpuIds` | daemon/src/daemon.cpp:183-208 | the two nested loops with their set compute the specified result |

## Left out

- IntersectionAccuracy: is stated for a given bound on the steepness of the cubic; for drawn segments `DrawnSegmentIsLinear` supplies three times the rise between the two samples, because the controls of a clipped cubic may lie outside its own shorter rise.
- DrawnSegmentIsLinear: excludes segments without width and those that end exactly at the cutoff, which have no increasing x.
- EmittedJoinIsC1: speaks of two positive-width segments; next to duplicate or decreasing timestamps the code draws straight lines.
- DecodeEncode: assumes that sizes fit 64 bits, as std::size_t guarantees.
- TrueIsVisible: covers definite-length encodings; and that a recognised response was an acceptance is not claimed, because any 0xf5 byte is taken for one.
- RecogniseAcceptance: covers responses that fit the daemon's 2048-byte buffer; of a longer one only the first part is looked at.
- RoundTrip: works on CBOR values; an integer read where a number is expected is converted exactly, without the rounding of a 64-bit float.
- EncodingIsShortest: compares encodings of one data item, pairs in order and floats by width; the shortest floats that section 4.2.1 of RFC 8949 asks for are not claimed, because the daemon always writes 9 bytes.
- HelloIsUnderstood: the daemon's value for system information is the one that infoToMap prints; that the daemon's collectors produce it is not part of this model. How strings become bytes and back is a parameter that loses no string and reads plain ASCII as it stands. Sizes fit 64 bits, as std::size_t guarantees, and the limit of 16 KiB on a datagram is not part of the statement.
- SnapshotIsUnderstood: likewise; the numbers in the metrics, which are exact reals here, are doubles.
- UnknownKeysAreIgnored: covers the keys of the top-level map, with the error; for accepted values DecodesExactly covers nested maps as well.
- DecodesExactly: works on CBOR values in which no map repeats a key; an integer where a number is expected stands for itself, without the rounding of a 64-bit float.
- LongerPauseFollowsCloser: of exp(-x) it takes that it falls; TwoStepsAreOne and HeldValueIsApproached, that it turns sums into products.
- TwoStepsAreOne: needs the same time constant in both steps; while the raw ratio is still changing fast the processor's curve depends on when it is sampled.
- ShorterIntervalWeighsMore: compares reciprocals, as a weighted harmonic mean does; of the slopes themselves it does not hold.
- NewestIsReached: needs a last pair wider than the tolerance of the lookup and ordered timestamps.
- AllRepositoriesAreFound: speaks of the pages as GitHub sends them; that GitHub's pages change between two requests is not part of this model.
- DatagramRoundTrip: assumes that the codec keeps the message's value; Qt's CBOR codec, its treatment of duplicate keys and trailing bytes, and lone surrogates in strings are not part of this model.
- PersistThenLoad: likewise assumes that the codec keeps the stored values.
- EpochsAreOrdered: a run of the daemon sends fewer than 2^64 snapshots, and instance ids of different runs differ.
- OrderHoldsThroughout: goes one way, and speaks of no run in which the dashboard restarts or forgets a device while its daemon runs on; OrderBreaksExactly covers them all.
- ReachableInv: a restart of the dashboard in `TelemetryProtocol` finds the devices it last held; restarts from a file that could not be written any more are covered by `LoadedIsConsistent` only.
- PassSucceeds: says nothing about hellos whose content the dashboard refuses; the daemon neither bounds texts to 256 bytes nor removes duplicate names.
- SnapshotAges: says nothing about the moment right after a hello that changes the interval, because states are recomputed only at the next update; registered devices never age.
- ReplyOrderIsIrrelevant: needs distinct keys among the public repositories, as their pages are not checked for repeated ones, and one clock reading, as row texts contain an age.
- DisplayedWindowIsCovered: needs timestamps that do not decrease; after a step back the code resets the window.
- DelaysNeverShrink: uses integers without the 32-bit overflow that a huge Retry-After would cause when turned into milliseconds.
- OnRuns: the rows under construction are fields here and objects shared by the callbacks of one refresh in the source; refreshes exclude each other, so only one set is ever in use.
- Signal handlers that call back into an object while it is changing are not modelled; the scheduler and the weather service see one event at a time.
- Floating-point rounding, ribbon, ring and area vertices and colours.
- Sockets, DNS, files, timers, Qt signals, QML and scene-graph nodes; only the events they deliver.
- JSON decoding and field validation of GitHub and weather replies; a reply says whether it was valid and what was read.
- Runner counts, conditional requests with ETags, poll intervals and rate-limit backoff of the project service.
- The contents of weather snapshots apart from place, time and air quality, the cache file, solar events and the hour timer.
- The unconfigured weather service, in which every call returns at once.
- The daemon's collectors, its configuration and identity file.
- Health keys, credentials, screensaver, shell and CMake scripts are not modelled.
