# XPilot NG in Dafny

A model of the algorithmic cores of XPilot NG, a multi-player space game, and
proofs about them. Each module models one component; methods and classes follow
the C and Python functions statement by statement where these change state in
place, and are proved against functions on values. The theorems about those
functions are lemmas beside them.

- **Block maps to polygons** (`mapconvert.py`): `BlockMap`, `Outline`, `Tracing`,
  `SideScan`, `FlatOutlines` and `FindEdges` model the tracing of wall outlines on a map
  that wraps around. The step of the trace is a permutation of the directed boundary
  edges, so every trace comes back to its start and closes up to whole turns around the
  map, and the three passes together draw every boundary edge exactly once.
  `PolyPartition` models the numbering of the parts of the map; each outline stays within
  one part. `LoneBlock` says what is drawn for a block without neighbours, with characters
  and coordinates written out. `MinWrap` and `FindMin` model the search for the shortest link between two
  polygons, which skips points and still finds what a full search finds. `Traverse`,
  `Tours`, `GrowTree` and `PolyLink` model the tree of links, which grows by a shortest
  link each time, and the walk around it: a closed tour with every side once and every
  link once each way.
- **Random block maps** (`contrib/wildmap.c`): `RingGraph` is the graph of cells.
  `ChunkList`, `FloodSpec`, `LabelOrder`, `LabelSpec`, `Thinning`, `PartitionSpec` and
  `WildMap` model the flood fill with its chunked worklist, the labelling of components
  with labels that run out and are compacted, and the removal of holes and of walls.
  `ConnectMap`, `FillSteps` and `SmoothMap` model the passes that close gaps and round edges. `BandMap`
  is a map that shows what partitioning does not achieve.
- **Client network layer** (`src/client/netclient.c`): `MapCode` and `MapCodec` are
  the run-length code of the map, decoded backwards in place (`CompressMap` is the server's
  encoder, lines 80 to 103 of src/server/xpmap.c); `Sockbufs`,
  `ReliableStream`, `SetupRun` and `NetSetup` are the byte stream over a network that loses,
  repeats and reorders, and the map received over it; `FrameWindow` is the window
  of frames.
- **Random numbers** (`src/common/randommt.c`): `MersenneTwister`. The recurrence and
  the tempering are those of MT19937 (section [rand.eng.mers] of ISO/IEC 14882), the
  seeding is the repository's own.
- **Record and replay** (`src/server/recwrap.c`): `RecordReplay`, where a program is any
  function from the outcomes so far to the next call.
- **Sound sources** (`src/client/oalaudio.c`): `SoundRing`, a ring and a list that
  exchange nodes.
- **Undo in the map editor** (`src/mapedit/tools.c`): `UndoStack`, proved equal to an
  editor that keeps whole copies of the map.
- **Local gravity** (`src/server/gravity.c`): `Gravity`.
- **Weapon modifiers** (`src/server/modifiers.c`): `ModWord`, `ModText` and `Modifiers`.

`Arithmetic`, `Bytes` and `Sequences` hold what several modules share. `dafny verify
dfyconfig.toml` checks the whole project.

What the proofs showed about the code:

- On a map with at most 254 spaces `Partition_map` leaves one open region if one space has
  more cells than all walls together; if none has, walls and spaces change places. With
  nothing to thin out, the open cells are then one region exactly if one of these holds: a
  space outnumbers the walls, or the walls are one region (`OneSpaceIff`).
  `BandMap.HolesAndWallsStay` is an allowed map without gaps where neither holds and
  separate open cells remain.
- The walls end up below the wanted share exactly if no two constructs are spared
  (`Thinning.RatioMetIff`). On the same map they end up at twice that share: of bands of
  ten, six, six and six rows, with nineteen rows to go, only the one of ten is cleared.
- `Uncompress_map` succeeds exactly on codes of the right size that are well-formed, or
  well-formed but for a block type at the very end that has no count (`MapCode.TakenIff`,
  `MapCode.TypeAtEnd`, `MapCode.LoneTypeTaken`).
- A recorded call is replayed with the same result exactly if its size fits a short
  and a write was complete; a failed connect puts the result on the tape in place of
  errno (`OtherCallsDiffer`, `ConnectErrno`).
- `Player_set_modbank` reads past the end of a string exactly if the string ends in an
  odd number of Ls (`OverrunIff`).
- Undo after a group of changes that did nothing also takes back the group before it
  (`UndoTakesBackGroup`).
- Upward and downward gravity pull by the horizontal distance alone: exactly the places
  straight above and below a source get nothing (`Gravity.BlindSpots`).

## Model

| member | source | states |
|---|---|---|
| BlockMap.MoveBack | mapconvert.py:144-174 | one step in any of the eight directions and one in the opposite direction lead back, on every map that wraps around |
| BlockMap.BoundaryBothEnds | mapconvert.py:185-203 | the wall test gives the same answer at both ends of an edge: an edge that leaves its first corner as a boundary arrives at the next corner as one, and only such edges do |
| Outline.PassesOpenSector | mapconvert.py:285-287 | two edges that arrive at a corner and leave it in the same direction have turned past the same solid sectors |
| Outline.StepIsBoundary | mapconvert.py:284-287 | turning left by three and then right past solid sectors gives a boundary edge again |
| Outline.StepInjective | mapconvert.py:273-289 | the trace step is one to one on the directed boundary edges |
| Outline.StepSurjective | mapconvert.py:273-289 | every directed boundary edge is stepped to from one: the step is a permutation |
| Outline.TraceBounded | mapconvert.py:273-289 | a trace that has not come back has no more edges than the map has boundary edges |
| Outline.TraceExtends | mapconvert.py:273-289 | a trace can only meet itself at its first edge: after each step it is closed or still free of repeats |
| Outline.Orbit | mapconvert.py:267-295 | from every boundary edge the trace comes back to it, without using an edge twice |
| Outline.LoopsMeet | mapconvert.py:267-295 | two traces that share an edge consist of the same edges |
| Outline.PathPlace | mapconvert.py:273-284 | the coordinates that are not wrapped, wrapped, are the corner where each traced edge starts |
| Outline.LoopCloses | mapconvert.py:267-295 | the displacement of a traced polygon is a multiple of the map's width and height |
| Outline.FlatOutlineWinds | mapconvert.py:327-353 | an outline that only runs right, up or left goes around the map and does not close in the plane |
| PolyPartition.PolyPartition | mapconvert.py:230-261 | the flood with its list numbers exactly the blocks of wall, two of them get one number exactly if wall leads from one to the other across sides, every number is used, and the coordinates that are not wrapped, wrapped, are the block |
| LoneBlock.WaysAre | mapconvert.py:230-237 | a block joins its neighbours across exactly the sides that it has wall along, for each of the six characters |
| PolyPartition.StepLinks | mapconvert.py:284-287 | the block on the left of a traced edge is linked through wall to the one on the left of the next edge |
| PolyPartition.OutlinesOnePart | mapconvert.py:297-354 | every edge of every polygon filed under a part has a block of that part on its left |
| Tracing.Wrapcoords.Godir | mapconvert.py:156-160 | stepping in place is the wrapped move |
| Tracing.TracePoly | mapconvert.py:267-295 | it ends and draws exactly the whole trace from its start edge, or gives up exactly at the first edge whose direction is not in the list, if there is a list; each block has the last mark that the edges traced give it |
| Tracing.FollowCorner | mapconvert.py:285-287 | the two turning statements find the next boundary edge |
| SideScan.StartsFit | mapconvert.py:298-323 | a block gives a start that is a boundary edge belonging to it, or it has no edge that the scan looks for |
| SideScan.SideThenSlant | mapconvert.py:276-283 | on a block with both a left side and a slanted edge one follows the other, so one mark serves for both |
| SideScan.OneOutlinePerBlock | mapconvert.py:276-300 | the edges that a block is marked for are all on one outline, so skipping marked blocks loses none |
| SideScan.ScanSides | mapconvert.py:297-325 | after the first scan every left side and every slanted side is on a polygon, no edge is on two, each polygon is a whole outline, filed under the part of the block it starts at |
| SideScan.AllDrawnOnce | mapconvert.py:297-325 | no edge of the map lies on two of the polygons or twice on one |
| FlatOutlines.FlatIsFilled | mapconvert.py:327-353 | an outline that only runs right, up or left has full blocks on its left all along, so looking at full blocks only misses none |
| FlatOutlines.PassesTop | mapconvert.py:328-337 | such an outline with an upward edge crosses the top row going up |
| FlatOutlines.PassesColumn | mapconvert.py:339-353 | such an outline without one goes straight and passes every column of its row |
| FindEdges.ScanTop | mapconvert.py:328-337 | the marks keep the pass over the top row from tracing an outline twice, and it traces all flat ones that cross the row |
| FindEdges.ScanColumn | mapconvert.py:339-353 | the pass down the left column traces every straight outline once |
| FindEdges.AllCollected | mapconvert.py:297-354 | every boundary edge is on an outline that one of the three passes traces |
| FindEdges.FindEdges | mapconvert.py:263-354 | every boundary edge of the map is drawn exactly once, each polygon is a whole outline, and it starts where the scan starts for its block, at that block's coordinates |
| LoneBlock.Around | mapconvert.py:185-203 | which of the eight sectors around each corner of a block without neighbours are wall, for each character |
| LoneBlock.LoneOutline | mapconvert.py:273-289 | tracing goes around such a block on four sides, or on a slanted side and the two straight ones that meet it |
| LoneBlock.LoneBlockDrawn | mapconvert.py:297-354 | what is drawn for its part is one polygon with exactly these points, for 'x' and '#', 's', 'a', 'w' and 'q' |
| MinWrap.MinIsSamePlace | mapconvert.py:507-531 | each of the three forms of minwrap gives a vector that leads to the same place |
| MinWrap.MinIsShortest | mapconvert.py:507-531 | no other vector to the same place is shorter |
| MinWrap.MinContracts | mapconvert.py:507-531 | going on from a shortest vector is never shorter than the shortest vector to where that leads |
| MinWrap.MinBothWays | mapconvert.py:507-531 | the way back is as long as the way there, which the exchange of the two polygons relies on |
| FindMin.NotMuchNearer | mapconvert.py:394-395 | a point n steps along the polygon is at most 1.4143 n nearer under the wrapped distance |
| FindMin.SkipIsFar | mapconvert.py:373-374 | the number of points skipped is at least one, and none of them is nearer than the least distance so far |
| FindMin.Search | mapconvert.py:379-395 | the search with skipping finds the first nearest pair in the order of the full search, or none if no pair beats the bound |
| FindMin.FindMin | mapconvert.py:370-398 | with the polygons exchanged or not, the result is a shortest link from the first to the second and the one that the full search finds first; none exactly if no pair beats the bound |
| Traverse.Polynode.Traverse | mapconvert.py:406-424 | on a tree of linked polygons it ends and appends exactly the legs of the walk |
| Traverse.Polynode.FollowLink | mapconvert.py:409-417 | one link is followed, everything behind it gone around, and the link is used up; the others stay |
| Tours.TracedOutlined | mapconvert.py:267-295 | traced polygons are of the kind the linking needs: each side leads to the next point, on the wrapped map always, in the plane if they close up, and along a vector if they end a multiple of it from their start |
| Tours.WalkIsTour | mapconvert.py:406-424 | the walk is one closed tour: each step begins where the one before it ends, at the point of the polygon it belongs to |
| Tours.ClosedWalk | mapconvert.py:406-424 | for polygons that close in the plane the returned legs form one closed line through the start point |
| Tours.WalkMarks | mapconvert.py:406-424 | the walk has as many visits of each kind as the tree has sides and links |
| Tours.EachOnce | mapconvert.py:406-424 | every side of every polygon is walked exactly once, every link exactly once in each direction, and nothing else |
| Tours.SidesInTree | mapconvert.py:406-424 | the sides of every polygon in the tree are among those walked |
| GrowTree.GrowProper | mapconvert.py:547-554 | a link to a polygon that is not linked yet keeps the links a tree |
| GrowTree.GrowLaid | mapconvert.py:547-554 | and keeps every link leading from point to point |
| GrowTree.GrowHolds | mapconvert.py:547-554 | appending to linkstarts and linktargets of one polygon makes the polygons hold exactly the grown tree |
| PolyLink.OutlinedSteps | mapconvert.py:370-398 | the points of such polygons are near enough to each other for the skipping search |
| PolyLink.UpdateReach | mapconvert.py:536-540 | after each round every polygon left knows a shortest link from those linked |
| PolyLink.PickNearest | mapconvert.py:541-546 | the first polygon with the shortest link is picked |
| PolyLink.NearestIsShortestCut | mapconvert.py:541-554 | the link added is a shortest one from all linked polygons to all others |
| PolyLink.LinkNext | mapconvert.py:535-554 | one round adds one polygon and keeps tree, links and distances right |
| Tours.WalkLength | mapconvert.py:406-424 | the walk has as many legs as there are sides and two for each link |
| GrowTree.GrowWeight | mapconvert.py:547-554 | a new link makes the walk longer by the sides of the polygon and the way there and back |
| PolyLink.LinkAll | mapconvert.py:532-554 | all polygons end up in one tree whose links were, when added, shortest ones between the tree and the rest |
| PolyLink.PolyLink | mapconvert.py:532-556 | one closed line that has every side of every polygon, is as long as all sides and each link twice, and is the walk around one tree that grew by shortest links |
| RingGraph.RingClosed | contrib/wildmap.c:42-53 | a set that has a cell and, with each cell, the one to the right of it, has all cells of the map |
| ChunkList.Worklist.Take | contrib/wildmap.c:307-309 | the newest item of the oldest chunk is taken and nothing else changes |
| ChunkList.Worklist.Reserve | contrib/wildmap.c:310-314 | a new chunk is started exactly if four more items might not fit |
| ChunkList.Worklist.Put | contrib/wildmap.c:315-334 | one item is added to the newest chunk |
| ChunkList.Worklist.Next | contrib/wildmap.c:336-338 | the oldest chunk goes, the others stay in order |
| FloodSpec.FloodDone | contrib/wildmap.c:283-339 | when nothing is queued any more, exactly the component of the start cell has the marker |
| FloodSpec.FloodPuts | contrib/wildmap.c:315-334 | marking and queuing a neighbour keeps what holds during the flood |
| FloodSpec.FloodFits | contrib/wildmap.c:283-339 | never more cells are queued than had the trigger value |
| WildMap.Map.FloodMap | contrib/wildmap.c:271-340 | it ends, marks exactly the component of its start cell, changes nothing else, and queues every cell of it exactly once |
| WildMap.Map.CountLabels | contrib/wildmap.c:578-591 | how often each value occurs |
| WildMap.Map.SortLabels | contrib/wildmap.c:593-620 | a permutation of the labels that keeps 0 and 1 in front and puts the others in order of falling counts, those with equal counts by value |
| LabelOrder.LateLabelIsRare | contrib/wildmap.c:647-653 | a label after the first 222 in the table has at most one in 223 of the labelled cells |
| WildMap.Map.FreeLabels | contrib/wildmap.c:646-657 | when the labels run out those of the largest components are kept and renumbered without gaps, the others become 0, and these have at most one in 223 of the labelled cells each |
| LabelSpec.FloodLabels | contrib/wildmap.c:641-662 | flooding a target cell with a new label keeps labels and components matched |
| LabelSpec.CompactLabels | contrib/wildmap.c:646-657 | freeing labels keeps them matched |
| LabelSpec.LabelsRunOut | contrib/wildmap.c:645-660 | labels run out only if there are at least 255 components |
| LabelSpec.CompactKeepsBig | contrib/wildmap.c:646-657 | and only give up components with at most one in 223 of the target cells |
| WildMap.Map.LabelMap | contrib/wildmap.c:622-663 | connected target cells get equal labels, equal labels other than 0 mean connected, other cells get 0; no target cell gets 0 if there are at most 254 components, or if its component has more than one in 223 of the target cells |
| WildMap.Map.FindMainLabel | contrib/wildmap.c:682-688 | the label with the highest count, or 0 |
| PartitionSpec.LabelIsRegion | contrib/wildmap.c:681-688 | the cells of one label are one region |
| PartitionSpec.ComponentTouches | contrib/wildmap.c:689-695 | every component around a region touches it |
| PartitionSpec.PartsJoinRegion | contrib/wildmap.c:689-722 | whichever components around a region join it, it stays one region |
| PartitionSpec.OpenCellsUncleared | contrib/wildmap.c:695-722 | if nothing is thinned out and labels suffice, the open cells are exactly the main space |
| PartitionSpec.NoHoles | contrib/wildmap.c:665-723 | if some space label outnumbers label 0, the open cells are one region in the end |
| PartitionSpec.MainFromInput | contrib/wildmap.c:681-688 | a label outnumbers label 0 only if a space of the map handed in has more cells than all its walls; and it does if in addition there are at most 254 spaces, or if a space has more than half of all cells |
| PartitionSpec.OneSpaceIff | contrib/wildmap.c:665-723 | with at most 254 spaces, the open cells end up as one region if a space outnumbers the walls or the walls are one region, and with nothing to thin out only then |
| Thinning.SmallSuffice | contrib/wildmap.c:698-705 | the labels counted from the rarest on have more cells than must go, unless these are all |
| Thinning.WantedNearest | contrib/wildmap.c:701-702 | the wanted number of wall cells is the whole number nearest to the fill ratio's share, of two the bigger |
| Thinning.TwoSparedTooMany | contrib/wildmap.c:706-715 | two spared labels have at least as many cells as the biggest one cleared, so too few cells go |
| Thinning.RatioMetIff | contrib/wildmap.c:695-722 | the walls end up below the wanted number exactly if no two labels are spared |
| Thinning.SparedByTest | contrib/wildmap.c:706-713 | the test made for each label after the cut tells exactly which are spared |
| BandMap.HolesAndWallsStay | contrib/wildmap.c:665-723 | on a map of 90 by 90 blocks with fill ratio 0.1, which the options allow and in which there is no gap to close, separate open cells remain and there are twice as many walls as wanted |
| WildMap.Map.ThinOut | contrib/wildmap.c:696-722 | exactly the small labels that are not spared are cleared |
| WildMap.Map.PartitionMap | contrib/wildmap.c:665-723 | the two labellings and the thinning out; with a space of more than half the map, or at most 254 spaces of which one outnumbers the walls, that space is the main one and the open cells end up as one region; else, with nothing thinned out, they do exactly if the walls are one; the walls end up below the wanted number exactly if no two labels are spared |
| ConnectMap.FillShrinks | contrib/wildmap.c:433-555 | every change fills an open cell, so there are fewer of them after it |
| ConnectMap.CloseGaps | contrib/wildmap.c:433-465 | exactly the open cells of a gap of one or two in the row and in the column are filled, or else both open cells where corners touch; a change is counted exactly if the window shows one |
| ConnectMap.FillMiddle | contrib/wildmap.c:466-555 | the middle cell is filled, and nothing else, and a change counted, exactly if one of the sixteen patterns shows |
| ConnectMap.ConnectPass | contrib/wildmap.c:417-573 | a pass does these fills at one cell after the other, and if it counts no change it has met no pattern anywhere |
| ConnectMap.WithoutGap | contrib/wildmap.c:405-465 | where no pattern applies there is no gap of one or two cells along or across rows, and cells that touch at a corner are connected |
| ConnectMap.ConnectMap | contrib/wildmap.c:403-576 | it ends with the map that some number of such passes gives, clears no cell, and leaves no place where a pattern applies |
| FillSteps.LookReaches | contrib/wildmap.c:433-555 | each look is made of fills of five kinds: along a row, along a column, across a corner of solid or of open cells, and in a pattern |
| FillSteps.PassesReach | contrib/wildmap.c:403-576 | so is every number of passes |
| FillSteps.ColumnsStayOpen | contrib/wildmap.c:403-576 | three or more neighbouring columns without a solid cell stay so, around the map's ends as well |
| SmoothMap.RoundsSmaller | contrib/wildmap.c:757-833 | a change leaves fewer square cells, or as many and fewer solid ones |
| SmoothMap.SmoothAt | contrib/wildmap.c:757-816 | one look changes only the middle cell and counts one change exactly if it differs |
| SmoothMap.NothingSharp | contrib/wildmap.c:757-816 | where nothing is left to round, no square cell lies in a corner between two walls with the other sides open, and no solid cell juts out with wall on one side at most |
| SmoothMap.SmoothMap | contrib/wildmap.c:725-834 | it ends, makes no open cell solid, and leaves no such cell, with one exception at the map's edge |
| MapCode.DecodeTokens | src/client/netclient.c:170-224 | every well-formed coded map is the code of a sequence of single cells and runs, with the same cells |
| MapCode.TokensDecode | src/client/netclient.c:170-224 | and every such code decodes to its cells |
| MapCode.HighTailEven | src/client/netclient.c:190-193 | the bytes with the high bit that end a coded map are even in number, also when count bytes have that bit |
| MapCode.LastToken | src/client/netclient.c:190-200 | so the parity of those before the last byte tells a single cell from the count of a run |
| MapCode.DecodedCells | src/client/netclient.c:170-224 | decoded cells have no high bit, and there are at least as many as coded bytes |
| MapCodec.Setup.ExpandRuns | src/client/netclient.c:200-215 | all runs that end in one stretch of high bytes are expanded |
| MapCode.TokensTaken | src/client/netclient.c:170-224 | a code of cells and runs, the last of which may be a lone block type, is taken for exactly these cells |
| MapCode.TypeAtEnd | src/client/netclient.c:190-198 | a well-formed code with one more block type behind it is not well-formed, but taken for the map with one more cell |
| MapCodec.WorkRun | src/client/netclient.c:203-210 | expanding a run keeps what is undone right and, on a map, what is left to undo |
| MapCodec.WorkFails | src/client/netclient.c:205-216 | a count below two or a run longer than the room left occurs only on codes that are no map of the size |
| MapCodec.Setup.UncompressMap | src/client/netclient.c:170-224 | for every code, well-formed or not, it returns 0 exactly if the code is taken for a map of the announced size, and then leaves exactly that map; else -1; other map orders are left alone with -1 |
| MapCodec.CompressThenUncompress | src/client/netclient.c:170-224 | every map whose blocks are below the high bit comes back after coding and decoding in place |
| Sockbufs.Sockbuf.Advance | src/client/netclient.c:2298-2308 | used bytes are dropped from the front and the rest moved there |
| Sockbufs.Sockbuf.Write | src/client/netclient.c:2300-2305 | appends all or fails and changes nothing |
| ReliableStream.AcceptedContinues | src/client/netclient.c:2293-2306 | what is taken from a segment continues the stream exactly where it was |
| ReliableStream.RunInOrder | src/client/netclient.c:2239-2312 | in every run with loss, repeats and reordering, bytes used and bytes held are together a prefix of the stream |
| ReliableStream.RunAcksSound | src/client/netclient.c:2225-2312 | acknowledged offsets never fall and never cover a byte that has not arrived |
| ReliableStream.RunProgress | src/client/netclient.c:2239-2312 | if each next segment is sent until it arrives when there is room, the client gets past all of them, whatever else arrives in whatever order |
| ReliableStream.HeaderScanned | src/client/netclient.c:2246-2252 | the header of a reliable packet is its type, a length of 16 bits, and an offset and a frame number of 32 bits, each in two's complement with the high byte first |
| ReliableStream.Client.ReceiveReliable | src/client/netclient.c:2239-2312 | what the function does to the buffers, the offset and the acknowledgements is one step of that protocol, and when it reports an error |
| SetupRun.PacketKeepsOrder | src/client/netclient.c:317-329 | handling a packet that claims to be reliable data keeps the stream in order |
| SetupRun.SetupInOrder | src/client/netclient.c:230-366 | whatever the network brings, what is received in the end is the map that the stream has behind the header |
| SetupRun.ReachPast | src/client/netclient.c:2270-2311 | a segment that is not ahead of the place reached before it takes the client past itself |
| SetupRun.AwaitServed | src/client/netclient.c:314-358 | without errors and without ten silences in a row, handling and waiting go on, and no packet is lost by it |
| SetupRun.SetupServed | src/client/netclient.c:230-366 | if moreover the first bytes held begin with a good header and the segments to come lead to the end of the map behind it, the map is received |
| SetupRun.WaitSilent | src/client/netclient.c:337-357 | waiting is given up after ten silences with no datagram in between, or when nothing comes any more |
| SetupRun.SetupBlamed | src/client/netclient.c:230-366 | the map is not received only for one of nine causes, each of them something in the header, the packets, the arrivals or the sending of acknowledgements |
| NetSetup.Receiver.HandlePacket | src/client/netclient.c:314-331 | what one packet does, and exactly when it ends the setup |
| NetSetup.Receiver.AwaitData | src/client/netclient.c:314-358 | handling and waiting do exactly what the run does then, and give up exactly when it does |
| NetSetup.Receiver.CopyData | src/client/netclient.c:306-312 | the next bytes held go behind what was stored, and no others |
| NetSetup.Receiver.NetSetup | src/client/netclient.c:230-366 | it is exactly that run: what is received is what the stream has, failure before that has a cause, and a client that is served receives the map; then it returns 0 unless an old server's coded map is no map of the announced size, and -1 if so |
| FrameWindow.DropFrame | src/client/netclient.c:1149-1163 | exchanging with the last one and clearing it drops just that frame |
| FrameWindow.NetClient.NetRead | src/client/netclient.c:1012-1063 | what is read is an unidentified packet or a frame newer than the last one handled, newer frames are never skipped, -1 means that a read failed and 0 that all that came was stale |
| FrameWindow.NetClient.FillWindow | src/client/netclient.c:1082-1170 | every frame that was buffered or was read and is newer is buffered afterwards or was dropped, dropped ones are older than all that are kept, and the input ends before processing exactly if a read failed or nothing is there |
| FrameWindow.NetClient.NetPacket | src/client/netclient.c:1266-1286 | exactly a frame with a readable start that is newer than the last one handled is handled, so the numbers of handled frames grow strictly |
| FrameWindow.NetClient.NetInput | src/client/netclient.c:1072-1260 | the window stays without gaps and repeats; the oldest frame is handled first, a packet that is no frame only if no frame is buffered; each frame that was buffered, or has arrived and is newer, is still buffered, was dropped as oldest, or was taken; a packet is taken unless a read failed or nothing was buffered and nothing new has arrived; the result is -1 exactly after a failed read or packet, 0 exactly if there was nothing, and else the number of buffers that were in use |
| MersenneTwister.TemperInjective | src/common/randommt.c:164-168 | tempering loses nothing: different words give different numbers |
| MersenneTwister.TwistIff | src/common/randommt.c:68-71 | two pairs of words are twisted alike exactly if the first ones have the same high bit and the second ones the same other bits |
| MersenneTwister.FollowsTwist | src/common/randommt.c:143-149 | each word from the 625th on is the one 227 places back combined with the twist of those 624 and 623 places back |
| MersenneTwister.ReloadUndone | src/common/randommt.c:133-154 | a batch determines the batch before it but for 31 bits of its first word |
| MersenneTwister.ReloadForgets | src/common/randommt.c:133-154 | and these 31 bits never show in what follows |
| MersenneTwister.KnownValues | src/common/randommt.c:65-154 | the first words of seed 4357, a twist of them, and what some words are tempered to |
| MersenneTwister.Generator.SeedMT | src/common/randommt.c:78-130 | the state holds the first words, made by multiplying with 69069 |
| MersenneTwister.Generator.RenewFront | src/common/randommt.c:143-144 | the first loop replaces words in place by the ones N further on |
| MersenneTwister.Generator.RenewBack | src/common/randommt.c:146-147 | so does the second, which reads words that the first has replaced |
| MersenneTwister.Generator.ReloadMT | src/common/randommt.c:133-154 | one batch further, and the first number of it |
| MersenneTwister.Generator.RandomMT | src/common/randommt.c:157-169 | each call gives the tempered next word, across reloads |
| MersenneTwister.DrawMany | src/common/randommt.c:78-169 | for every seed the n-th number after seeding is the tempering of word N+n |
| RecordReplay.CallReplays | src/server/recwrap.c:27-162 | a call that can be recorded is replayed with the same outcome and leaves the tapes behind it untouched |
| RecordReplay.OtherCallsDiffer | src/server/recwrap.c:96-146 | one that cannot, because its size does not fit a short or the write was not complete, is not replayed with the same result |
| RecordReplay.ConnectErrno | src/server/recwrap.c:35-53 | after a failed connect the tape has the result in place of errno |
| RecordReplay.RunReplays | src/server/recwrap.c:27-162 | every program that is recorded and replayed makes the same calls with the same outcomes and uses all four tapes up, if and only if every call could be recorded |
| RecordReplay.Wrapper.SockRead | src/server/recwrap.c:96-122 | what one call does to the tapes and gives back, when recording, when replaying and otherwise |
| RecordReplay.Wrapper.SockWrite | src/server/recwrap.c:124-146 | the same for writing, where nothing is taped and a complete write is taken for granted on replay |
| RecordReplay.Wrapper.SockGetLastPort | src/server/recwrap.c:55-66 | the same for the last port |
| RecordReplay.Wrapper.SockClose | src/server/recwrap.c:27-33 | closing leaves no trace on the tapes |
| RecordReplay.Wrapper.SockConnect | src/server/recwrap.c:35-53 | the same for connecting |
| RecordReplay.Wrapper.SockGetError | src/server/recwrap.c:148-162 | the same for asking for the pending error |
| RecordReplay.Wrapper.SockbufReadRec | src/server/recwrap.c:245-324 | the reading loop with its retries is such a program: its outcome is a function of the calls' outcomes |
| RecordReplay.ReadResults | src/server/recwrap.c:268-324 | the loop returns more than 0 exactly if its last receive brought something, 0 exactly if that brought nothing or found nothing there, and -1 exactly if asking for the error failed, or a receive failed that was not on datagrams or was the third |
| RecordReplay.ReadRetries | src/server/recwrap.c:271-318 | before that, each receive was interrupted, or failed on datagrams and the error was asked for next, at most twice |
| SoundRing.KeptWanted | src/client/oalaudio.c:231-244 | only sounds that were asked for in this frame or the last one are kept |
| SoundRing.SweepGoesOn | src/client/oalaudio.c:231-244 | one step of going through the list, kept or stopped |
| SoundRing.Returns | src/client/oalaudio.c:233-239 | moving a node from the list to the ring keeps the two apart and loses none |
| SoundRing.AudioDevice.constructor | src/client/oalaudio.c:153-161 | all nodes in one ring, and an empty list |
| SoundRing.AudioDevice.FindLooping | src/client/oalaudio.c:182-193 | the first looping sound with the sample and about the volume, or none if there is none |
| SoundRing.AudioDevice.Play | src/client/oalaudio.c:166-218 | ring and list still divide the same nodes; which node is used, where it goes, and that the last one of the ring is never taken |
| SoundRing.AudioDevice.Return | src/client/oalaudio.c:232-239 | the node goes behind the first one of the ring |
| SoundRing.AudioDevice.Update | src/client/oalaudio.c:224-245 | exactly the sounds asked for recently stay in the list, in order, the others go to the ring, last one first |
| SoundRing.AudioDevice.PlayNext | src/client/oalaudio.c:195-212 | the second node of the ring is used: a looping sound goes to the front of the list, another one to the end of the ring's order; with one node left nothing happens |
| UndoStack.PastOfChange | src/mapedit/tools.c:264-287 | a recorded change leaves all maps at breakpoints as they were |
| UndoStack.OldestStays | src/mapedit/tools.c:593-649 | whatever is done, the map at the start stays the last one to be restored |
| UndoStack.DrainedRun | src/mapedit/tools.c:593-649 | after any run, enough undos restore the map at the start |
| UndoStack.UndoTakesBackGroup | src/mapedit/tools.c:613-638 | undo after a group of changes restores the map from before it, if and only if a change did something or the group before had none |
| UndoStack.MapEditor.ChangeMapData | src/mapedit/tools.c:264-286 | coordinates wrap once, the cell changes, and the stack stands for the same copies of the map |
| UndoStack.MapEditor.ClearUndo | src/mapedit/tools.c:645-649 | a breakpoint stands for a copy of the map |
| UndoStack.MapEditor.Undo | src/mapedit/tools.c:613-638 | undo on the stack is undo with copies: it restores the map at the breakpoint where it stops |
| UndoStack.MapEditor.FillMapArea | src/mapedit/tools.c:1036-1063 | exactly the cells of the area get the icon, also over the map's edges, and it is clean exactly if nothing changed |
| Gravity.ComputeGravTab | src/server/gravity.c:82-95 | the table of strengths by distance |
| Gravity.ReachIs | src/server/gravity.c:109-132 | a source reaches ten blocks either way, around the map's ends if it wraps, but not further over an end than the map is long |
| Gravity.PullLines | src/server/gravity.c:153-166 | attracting and repelling sources act along the line to the source, turning ones across it |
| Gravity.PullDirections | src/server/gravity.c:153-166 | which way each kind acts |
| Gravity.BlindSpots | src/server/gravity.c:161-166 | an upward or downward source pulls everywhere but straight above and below it, one to the left or right everywhere but straight beside it |
| Gravity.StepPulls | src/server/gravity.c:152-171 | the signs that the loops carry along give the direct signed formula |
| Gravity.World.AddColumn | src/server/gravity.c:136-184 | one column of a source, with the row index wrapping as it goes |
| Gravity.World.AddSource | src/server/gravity.c:121-187 | one source adds to each cell what it pulls at all places that wrap around to it |
| Gravity.World.ComputeLocalGravity | src/server/gravity.c:98-188 | each cell has its initial vector plus the sum over all sources, also on worlds smaller than the range |
| ModWord.GetSet | src/server/modifiers.c:54-228 | setting one modifier gives it the value, brought into range, and changes no other |
| ModText.WhichModifiers | src/server/modifiers.c:54-70 | which bits of the word are which modifier |
| ModWord.WhichAllows | src/server/modifiers.c:233-291 | each of the four rules allows its own modifiers only, and clearing needs none |
| ModWord.SameWord | src/server/modifiers.c:54-70 | the modifiers determine the word |
| ModWord.GetFilter | src/server/modifiers.c:374-392 | filtering keeps what is allowed and clears the rest |
| ModWord.FilterFixes | src/server/modifiers.c:374-392 | a word is left alone exactly if the rules allow all it has |
| ModText.ParseCanonical | src/server/modifiers.c:408-473 | parsing gives words that are canonical and within the rules |
| ModText.OverrunIff | src/server/modifiers.c:460-466 | parsing reads past the end of the string exactly if the number of Ls at its end is odd |
| ModText.AllWritten | src/server/modifiers.c:322-371 | all modifiers at their most are written "FNCI V3 X4 Z3 B3 LB" |
| ModText.ParsePrint | src/server/modifiers.c:322-473 | parsing what a canonical word prints as gives the word that the filter leaves of it |
| ModText.ParsePrintParse | src/server/modifiers.c:322-473 | for every string and all rules, printing and parsing again gives the same word, and the filter leaves it alone |
| Modifiers.ModsSetOrFail | src/server/modifiers.c:233-291 | sets the modifier and returns 0, or changes nothing and returns -1 if the rules forbid it |
| Modifiers.Player.SetModbank | src/server/modifiers.c:408-473 | the bank gets the parsed word, the others and banks that do not exist stay as they are |
| Modifiers.ModsToString | src/server/modifiers.c:322-371 | the buffer gets the printed text and its end, no more than 20 characters; too small a buffer is left alone |

## Left out

- PartitionSpec.OneSpaceIff: with more than 254 spaces, of which none fills half the map, and where cells are thinned out while no space outnumbers the walls, only sufficient conditions are proved.
- Thinning.RatioMetIff: "below the wanted number" is what the code counts for; that no two labels are spared also rules out more walls than wanted, but with two spared there can be exactly as many.
- WildMap.Map.SortLabels: the clearing of the table is a plain clear of 256 entries; the original clears by the size of a pointer.
- WildMap.Map.FloodMap: running out of memory and the freeing of chunks are not modelled, and the marker is required to differ from the trigger, as in all callers.
- ConnectMap.ConnectMap: rows of at least four cells and more than three rows, so that no two pointers of the window meet.
- SmoothMap.SmoothMap: the same map sizes; blocks are a datatype and not characters. Nothing is claimed about the cell one row and one cell before the end of the map: for the first window of a pass the original places the left column one cell too far to the left.
- FindMin.FindMin: square roots are exact real roots, distances are integers, and the result is not tied to floating point.
- PolyLink.PolyLink: the order of the polygons and the form of minwrap, which the original takes from the winding direction of each polygon, are parameters; splitting a walk that goes around the map is not modelled.
- MapCodec.Setup.UncompressMap: what a run that is too long for the room left would put in front of the map is left out; such a run is always answered with -1.
- NetSetup.Receiver.NetSetup: reading the header fields is a parameter that takes no more bytes than there are; how writing and sending acknowledgements goes is an input; datagrams fit into the packet buffer, and one that claims to be reliable data holds its header and nothing behind its segment; memory never runs out.
- SetupRun.SetupBlamed: for want of room it says only that some segment is longer than the buffer less what is held at the start.
- ReliableStream.Client.ReceiveReliable: the outcome of writing an acknowledgement is a parameter, and longs have 32 bits.
- FrameWindow.NetClient.NetInput: a datagram holds at most one frame; the body of a packet is opaque, whether its start can be read in full and whether processing it fails are part of the packet, failed reads are part of what arrives, and the keyboard updates after it are not modelled.
- RecordReplay.Wrapper.SockbufReadRec: the real calls and their errors are an input; the windows variant and the printed warnings are left out. Flushing and writing of buffers (`Sockbuf_flushRec`, `Sockbuf_writeRec`) are covered only as programs of `RunReplays`.
- SoundRing.AudioDevice.Play: samples are numbers, and the OpenAL calls and the loading of samples are left out.
- UndoStack.MapEditor.ChangeMapData: the drawing is left out, the map keeps its size, and no cell or icon is a line feed, which marks a breakpoint; the loader and the keyboard handler never give one.
- UndoStack.MapEditor.FillMapArea: the selected area is given by its corners; cutting, pasting and negating areas are left out as further callers of the same kind.
- Gravity.World.ComputeLocalGravity: vectors are real, raising to a power is a parameter, and global gravity is left out.
- Modifiers.ModsToString: numbers of one digit, which are all that modifiers take.
- Modifiers.Player.SetModbank: what happens after reading past the end of a string is not known; the model stops there and leaves the banks alone.
- Sockets, the printing and scanning of packets, the server side of the reliable stream, drawing, the other map generators, option tables, the text menus, downloads, and simple lists are not part of this model.
