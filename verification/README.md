# Cellular: a verified model

Cellular runs cellular automata on a square toroidal grid and streams the
grid as video to browser players. Each player gets a WebRTC connection with
a video track and a data channel. Over the data channel a player can:
- switch the universe (Game of Life, Falling Sand or Growth);
- draw cell states into the grid;
- recolour the palette;
- move and zoom its own viewport.

A scheduler thread drains the queue of drawing requests and then advances
the universe by one rule step.

This project models that core in Dafny:

| file | module | what it holds |
|---|---|---|
| `rules.dfy` | `Rules` | The three rules. Each is a circular-padded 3x3 cross-correlation with the weight tables as written, then a threshold and the channel-0 repair. Proved: the neighbour-rule characterisations, the output shape, the channel sums, the one-hot results, and that every rule commutes with toroidal shifts. |
| `grids.dfy`, `numeric.dfy`, `wrappers.dfy` | `Grids`, `Numeric`, `Wrappers` | Grids, wrapped indexing, one-hot vectors, Python slice bounds, truncation toward zero, `Option`. |
| `edits.dfy` | `Edits` | Drawing requests, the edit window, Python index normalisation, and `Drain`: the specification of draining the queue. |
| `universe.dfy` | `Universes` | Classes `Universe` (a mutable `array2` grid, `Step`, in-place `Paste`, `SetColor`) and `Simulation` (the shared universe slot, the request queue, whether the scheduler thread is alive, and one pass of the scheduler loop). |
| `templates.dfy` | `Templates` | Both servers' template tables. |
| `compositor.dfy` | `Compositor` | The video frame a track sends: crop, palette mix, clamp, nearest-exact resampling. |
| `protocol.dfy` | `Protocol` | Messages, per-connection bookkeeping, the registry, and the two broadcast disciplines. |
| `server.dfy` | `CellularServer` | The current server (cellular.py) as a class whose handlers update the registry and an outbox of sent messages. |
| `legacy_server.dfy` | `LegacyServer` | The earlier server (app.py). |
| `client.dfy` | `Client` | The browser client (frontend/src/App.tsx): hex colour encoding and parsing, the message reducer, and the key handler. |

Modelling choices:
- Grid values are exact integers. The rules' weights and thresholds are small integers, so the float32 tensors hold exactly these values.
- Zoom and pointer fractions are reals.
- `int(...)` on a float is `Numeric.Trunc` (truncation toward zero).
- Outcomes the model cannot see are parameters of the handler that meets them:
  - `failing` is the set of connections whose data-channel send raises;
  - the message values arrive already decoded.
- The model follows the code, also where it departs from what the code evidently intends:
  - Falling Sand is meant to keep every cell one-hot, but rules.py:35-36 can set both channel 1 and channel 2, which leaves channel 0 at -1. `Rules.FallingSandBreaksOneHot` exhibits such a grid, and `Rules.FallingSandNext` states what the code does guarantee: the channels sum to 1.
  - The scheduler paints each request's window as Python slices it (`Edits.WrittenWindow`), including the negative slice stop described under "## Findings". The corrected window (`Edits.ClampedWindow`) is modelled beside it. `Protocol.PointerRequestsAreClamped` proves the two agree for every request the browser's pointer produces.

## Model

| member | source | states |
|---|---|---|
| Rules.GameOfLifeCell | rules.py:10-15 | Game of Life's output cell always has 2 channels and is one-hot, whatever the input. |
| Rules.FallingSandCell | rules.py:32-37 | Falling Sand's output cell has 3 channels summing to 1, and channels 1 and 2 are each 0 or 1. |
| Rules.GrowthCell | rules.py:47-53 | Growth's output cell always has 3 channels and is one-hot, whatever the input. |
| Rules.GameOfLife | rules.py:10-15 | The whole-grid step keeps height, width and channel count, and yields a one-hot grid. |
| Rules.FallingSand | rules.py:32-37 | The whole-grid step keeps the shape, and every output cell's channels sum to 1. |
| Rules.Growth | rules.py:47-53 | The whole-grid step keeps the shape, and yields a one-hot grid. |
| Rules.Apply | rules.py:10-53 | Dispatching on the rule keeps the grid's shape. Every rule except Falling Sand yields a one-hot grid. |
| Rules.GameOfLifeWeight | rules.py:6-8 | The 2x2x3x3 table is zero outside the 3x3 kernel and whenever the input or output channel is 0 (dead). |
| Rules.FallingSandWeight | rules.py:19-30 | The 3x3x3x3 table is zero outside the kernel and whenever the input or output channel is 0 (empty). |
| Rules.GrowthWeight | rules.py:41-45 | The 3x3x3x3 table is zero outside the kernel and whenever the input or output channel is 0 (empty). |
| Rules.Weight | rules.py:6-45 | Whatever the rule, channel 0 neither feeds nor receives weight. |
| Rules.Correlate | rules.py:11-12 | The circular-padded cross-correlation gives output channel 0 the value 0, before the repair overwrites it. This holds for all three rules (also rules.py:33-34 and 48-49). |
| Rules.GameOfLifeSum | rules.py:6-12 | The alive channel's weighted sum is the number of live wrapped Moore neighbours plus 9 times the centre's alive value. |
| Rules.LiveNeighboursRange | rules.py:6-12 | On 0/1 input the live neighbour count lies in 0..8. |
| Rules.GameOfLifeNext | rules.py:6-14 | On 0/1 input a cell is alive next iff it is dead with exactly 3 live neighbours or alive with 2 or 3. The dead channel is 1 minus the alive one. |
| Rules.IsolatedCellDies | rules.py:10-15 | A live cell with no live neighbour becomes [1, 0]. |
| Rules.FallingSandSums | rules.py:19-34 | Channel 1's sum is 4·sand(centre) + sand below-left, below and below-right + ch2(centre). Channel 2's sum is 4·ch2(above) + 3·ch2(above-left) + 3·ch2(above-right) + sand(left) + sand(right) - 12·sand(centre). |
| Rules.FallingSandNext | rules.py:32-37 | Channel 1 is 1 iff its sum exceeds 3, and likewise channel 2. The three output channels sum to exactly 1. |
| Rules.SandStaysSand | rules.py:19-36 | On 0/1 input a sand cell stays sand, and channel 2 is never set on it. |
| Rules.FallingSandBreaksOneHot | rules.py:35-36 | A concrete one-hot grid whose centre becomes [-1, 1, 1]. |
| Rules.GrowthSums | rules.py:41-49 | Growing's sum is 9·growing(centre). Grown's sum is the grown wrapped neighbours + 9·grown(centre) + 8·growing(centre). |
| Rules.GrownNeighboursRange | rules.py:41-49 | On 0/1 input the grown neighbour count lies in 0..8. |
| Rules.GrowthNext | rules.py:47-53 | On 0/1 input a cell is grown next iff it is grown, or growing with at least one grown neighbour. It is growing next iff it is growing and not about to be grown. An empty cell stays empty. |
| Rules.ApplyCommutesWithShift | rules.py:11-12 | Circular padding makes the grid a torus: stepping a cyclically shifted grid equals shifting the stepped grid, for every rule. |
| Grids.OneHotVectorIsOneHot | cellular.py:57-58 | The vector with a 1 at the target and 0 elsewhere is one-hot with the target set. |
| Numeric.SliceBound | cellular.py:59 | A Python slice bound lands in [0, n]. A negative bound counts from the end. |
| Numeric.SliceLength | cellular.py:34-36 | A slice never selects more than the axis holds. With bounds inside the axis it selects stop - start elements, and none when the stop is not after the start. |
| Numeric.Trunc | cellular.py:124-125 | `int()` of a float truncates toward zero: it is within 1 of x and on the zero side of it. |
| Edits.WrittenWindow | cellular.py:53-59 | The window as the code computes it, once Python slicing has normalised the bounds, lies inside the grid. |
| Edits.ClampedWindow | cellular.py:53-56 | The corrected window, clamped on both sides, lies inside the grid. The scheduler does not use it. |
| Edits.ClampedWindowExact | cellular.py:53-56 | A cell is in the clamped window iff it is on the grid and within the radius of the centre on both axes. So nothing off the grid is written, and an edit wholly off the grid writes nothing. |
| Edits.WrittenIsClampedForNonNegativeStops | cellular.py:53-59 | While neither slice stop is negative, the code's window equals the clamped window. |
| Edits.NegativeStopPaintsFromTop | cellular.py:53-59 | Edit(-5, 3, 1, 1) on a 10x10 grid: the code paints rows 0..6 of columns 2..4, while the clamped window is empty. |
| Edits.NormIndex | cellular.py:58 | `one_hot[t]` succeeds iff -n <= t < n. A negative index counts from the end. |
| Edits.Paint | cellular.py:59 | Overwriting a window keeps the grid's dimensions. |
| Edits.PaintShaped | cellular.py:57-59 | Painting a cell with the grid's channel count keeps the shape. Painting a one-hot cell into a one-hot grid keeps it one-hot. |
| Edits.Drain | cellular.py:51-59 | Draining paints each valid request's window as Python slices it. It keeps the shape. It takes every request unless it crashes, and a crash happens exactly at a request whose target is out of range. |
| Edits.Stamp | cellular.py:57-58 | The stamped vector of a valid target is one-hot with the channel count. |
| Edits.DrainCrashesAtFirstInvalid | cellular.py:51-59 | The scheduler crashes iff some target in the queue is invalid. It stops right after the first invalid one, and every request before it is valid. |
| Edits.DrainSnoc | cellular.py:51-59 | Requests apply in FIFO order: draining es + [e] paints e's sliced window over the result of draining es. |
| Edits.LastCovering | cellular.py:51-59 | Finds the last request in the queue whose sliced window covers a given cell, or reports that none does. |
| Edits.DrainLastWriterWins | cellular.py:51-59 | After a drain of valid requests, a cell covered by some sliced window holds the stamp of the last request covering it, and every other cell is unchanged. |
| Edits.DrainUntouchedOutsideRadius | cellular.py:51-59 | When no request has a negative slice stop, a cell outside every request's radius keeps its value through the drain. |
| Templates.ReverseInvolutive | cellular.py:103 | Reversing the components twice (BGR to RGB and back) is the identity. |
| Templates.Lookup | cellular.py:115 | A name resolves iff it is in the table, and then to its entry. An unknown name is a KeyError. |
| Templates.CellularTable | cellular.py:204-212 | The current server offers exactly game_of_life, falling_sand and growth. Each entry carries its own name and one palette colour per channel of its rule. |
| Templates.LegacyTable | app.py:189-191 | The earlier server offers the same three names. Each entry carries its own name and one palette colour per channel of its rule. |
| Templates.TablesWellFormed | cellular.py:204-218 | Each universe has the same rule in both tables (also app.py:189-191). The current server starts from game_of_life; the earlier one starts from falling_sand (app.py:204). |
| Compositor.ClampByte | cellular.py:41 | Clamping to [0, 255] lands in range and leaves in-range values alone. |
| Compositor.ClampTriple | cellular.py:41 | Each component is clamped to a byte, and byte triples are unchanged. |
| Compositor.Mix | cellular.py:37-38 | `colors.T @ cell` of a one-hot cell is the palette colour of its set channel. |
| Compositor.Pixel | cellular.py:37-42 | After the clamp a pixel is always a byte triple, so the uint8 conversion is exact. A mix that is already a byte triple is kept. |
| Compositor.Src | cellular.py:41 | The crop cell that nearest-exact resampling reads exists. |
| Compositor.CropSideBounds | cellular.py:33 | `int(S·zoom)` with a zoom in [0, 1] lies in 0..S, and zoom 1 crops the whole side. |
| Compositor.Frame | cellular.py:32-43 | A frame, when the code does not raise, is size x size with a positive size, and every pixel is a byte triple. |
| Compositor.SrcProperties | cellular.py:41 | Nearest-exact resampling reads a crop cell that exists. It is monotone, and it is the identity when the crop and the output have the same size. |
| Compositor.FrameDefined | cellular.py:33-40 | For a viewport origin inside the grid, a frame exists iff the crop side int(S·zoom) and the video size are positive and the crop fits in the grid. |
| Compositor.FramePixels | cellular.py:33-43 | The frame is size x size. Pixel (d0, d1) is the clamped palette mix of grid cell (p0 + Src(d0), p1 + Src(d1)). |
| Compositor.FullView | cellular.py:33-43 | At zoom 1 from the origin, with the video as large as the grid, every pixel shows its own cell. |
| Compositor.MixOneHot | cellular.py:37-38 | For a one-hot cell, the mix of the first m channels is its set channel's palette row once m passes that channel, and black before. |
| Compositor.PixelOfOneHot | cellular.py:37-41 | A one-hot cell with a byte-valued palette colour is drawn in exactly that colour. |
| Universes.Universe.Snapshot | cellular.py:17 | The grid as a value agrees with the array cell by cell. |
| Universes.Universe.constructor | cellular.py:208-212 | A template's universe has an all-zero size x size grid with one channel per palette colour, and the template's name, rule and palette. |
| Universes.Universe.Step | cellular.py:21-22 | The new grid is the rule applied to the old one, and the palette is unchanged. |
| Universes.Universe.Paste | cellular.py:59 | After the in-place nested loop, the grid is `Paint` of the old grid: the window's cells hold `cell` and all others are unchanged. |
| Universes.Universe.SetColor | cellular.py:129-131 | Palette entry k becomes the new colour, and the grid is untouched. |
| Universes.Simulation.constructor | cellular.py:218 | The scheduler starts with the template's universe, an empty queue and a live thread. |
| Universes.Simulation.Push | cellular.py:126 | A request is appended to the back of the queue. |
| Universes.Simulation.Switch | cellular.py:115 | The slot holds a fresh all-zero universe from the template. Queued requests are kept. |
| Universes.Simulation.DrainQueue | cellular.py:51-59 | The inner loop leaves the grid and the queue exactly as `Drain` says: it reports a crash precisely when `Drain` does, the requests taken are a prefix of the old queue, and the live universe and the thread flag are unchanged. |
| Universes.Simulation.RunIteration | cellular.py:49-60 | One pass drains the queue as `Drain` specifies, then steps once. A live thread ends with an empty queue. An invalid target kills the thread: the remaining requests stay queued and no step is taken. A dead thread changes nothing. |
| Protocol.NewAgent | cellular.py:68 | A new player has no data channel and its viewport at the origin with zoom 1, mirrored by its track. |
| Protocol.Byte | cellular.py:103 | The uint8 conversion wraps into 0..255 and leaves byte values alone. |
| Protocol.InitOf | cellular.py:101-105 | `init` carries the universe's name and one entry per palette colour, numbered from 0. Each colour has byte components, and a byte-valued stored colour is reported in RGB order. |
| Protocol.InitStates | cellular.py:101-105 | `init` lists state k with palette colour k reversed back to RGB and converted to bytes. |
| Protocol.RecolorRoundTrip | cellular.py:128-135 | A byte colour stored by a `color` message is reported by `init` exactly as sent. The other entries are reported as before. |
| Protocol.DrawEdit | cellular.py:122-126 | A `draw` queues a request with the given radius and cell state, at the pointer scaled by the sender's zoom and grid side and offset by its own viewport. |
| Protocol.DrawEditLandsInView | cellular.py:123-125 | The request never lands above or left of the sender's viewport origin, and the top-left pointer lands on the origin. At zoom 1 from the origin it lands on (int(y·S), int(x·S)). |
| Protocol.PointerRequestsAreClamped | cellular.py:122-126 | A pointer inside the video, a non-negative radius and a viewport origin on the grid give a request whose sliced window is the clamped one, so the finding below needs a crafted message. |
| Protocol.Moved | cellular.py:139-144 | A `video` message sets the sender's origin to (int(py·S), int(px·S)) and its zoom, mirrors both into its track, and changes nothing else. |
| Protocol.Without | cellular.py:92 | Removing an id leaves exactly the other ids and keeps them distinct. |
| Protocol.RegistryRemove | cellular.py:92 | Removing a registered player keeps the registry consistent and lowers the count by one. |
| Protocol.Delivered | cellular.py:78-84 | The failure-tolerant broadcast sends at most one message per listed recipient. |
| Protocol.DeliveredExactlyReachable | cellular.py:78-84 | The failure-tolerant broadcast sends the message only to reachable recipients in the order, and to every reachable one. |
| Protocol.DeliveredOnce | cellular.py:78-84 | Without repeated ids, each recipient gets the message at most once. |
| Protocol.DeliveredAppend | cellular.py:79 | A broadcast over a concatenation is the broadcasts over the parts, in order. |
| Protocol.Reach | app.py:111-112 | Every recipient before the first failure is reachable, and the one at the first failure is not. |
| Protocol.SendAll | app.py:111-112 | Addresses the message to each id in turn. |
| Protocol.DeliveredAllReachable | cellular.py:78-84 | When every recipient is reachable, the tolerant broadcast sends to everybody in order. |
| Protocol.DeliveredNothing | cellular.py:78-84 | Nothing is sent iff no recipient is reachable. |
| Protocol.DeliveredSplitAtReach | app.py:111-118 | The tolerant broadcast is the stopping broadcast followed by the tolerant broadcast over the rest. |
| Protocol.DeliveredUntilFailureIsPrefix | app.py:111-118 | The earlier server's stopping broadcast sends a prefix of what the current one sends. The two agree iff no recipient after the first failure is reachable. |
| CellularServer.Server.constructor | cellular.py:214-218 | The server starts with no players, nothing sent, and a fresh Game of Life universe. |
| CellularServer.Server.Broadcast | cellular.py:78-84 | The loop appends exactly `Delivered`: reachable players in registration order, skipping failures. |
| CellularServer.Server.Connect | cellular.py:66-70 | An offer registers the player with the default viewport at the end of the registration order. |
| CellularServer.Server.ConnectionFailed | cellular.py:86-93 | The player is removed and the remaining players are told the count, one lower. A repeated report changes nothing. |
| CellularServer.Server.OpenChannel | cellular.py:95-107 | The opened channel gets `init`, then everybody gets the count, and messages are handled from then on. If the first send raises, nothing is sent and messages are never handled. |
| CellularServer.Server.SwitchUniverse | cellular.py:114-120 | A known name installs a fresh all-zero universe and broadcasts its `init`. An unknown name changes nothing. |
| CellularServer.Server.Draw | cellular.py:122-126 | The sender's request is queued, and the universe is untouched. |
| CellularServer.Server.Recolor | cellular.py:128-137 | A state in range stores the reversed colour and broadcasts `color`. Negative states count from the end. A state out of range changes nothing. |
| CellularServer.Server.MoveView | cellular.py:139-144 | Only the sender's viewport and track change. |
| LegacyServer.Server.constructor | app.py:188-204 | The earlier server starts with a fresh Falling Sand universe. |
| LegacyServer.Server.Broadcast | app.py:111-118 | The loop appends `DeliveredUntilFailure`, stopping at the first player without a channel or whose send raises. |
| LegacyServer.Server.Connect | app.py:65-69 | An offer registers the player with the default viewport. |
| LegacyServer.Server.ConnectionFailed | app.py:78-83 | The player is removed and nothing is sent. |
| LegacyServer.Server.OpenChannel | app.py:85-101 | The opened channel gets `init`, and no count is sent. A raising send leaves the handler unregistered. |
| LegacyServer.Server.SwitchUniverse | app.py:119-122 | The universe is replaced, then `init` goes out up to the first failure. |
| LegacyServer.Server.Draw | app.py:105-108 | The sender's request is queued. |
| LegacyServer.Server.Recolor | app.py:109-118 | The reversed colour is stored first, then `color` goes out up to the first failure. A state out of range changes nothing. |
| LegacyServer.Server.MoveView | app.py:123-128 | Only the sender's viewport and track change. |
| Client.Digit | frontend/src/App.tsx:79 | Each digit is a lower-case hex digit. |
| Client.ToHex | frontend/src/App.tsx:79 | toString(16) writes at least one lower-case hex digit, with no leading zero for a positive number. |
| Client.RgbToHex | frontend/src/App.tsx:76-81 | For byte components, `rgbToHex` gives '#' and six lower-case hex digits, the form a colour input holds. |
| Client.ToHexAppend | frontend/src/App.tsx:79 | toString(16) of 16q + d appends d's digit to that of q. |
| Client.RgbToHexDigits | frontend/src/App.tsx:76-81 | For byte components, `rgbToHex` is '#' plus two lower-case hex digits per component, in r, g, b order: 7 characters. |
| Client.Pairs | frontend/src/App.tsx:138 | Every match of /[A-Za-z0-9]{2}/g has two alphanumeric characters. |
| Client.ParseColor | frontend/src/App.tsx:136-138 | No match means nothing is sent (`null.map` throws). Otherwise there is one component per match, each a byte or NaN. |
| Client.ParseHex | frontend/src/App.tsx:138 | `parseInt(pair, 16)` yields a byte or NaN. |
| Client.HexPairParses | frontend/src/App.tsx:138 | A byte's two hex digits parse back to the byte. |
| Client.ParseRgbToHex | frontend/src/App.tsx:136-138 | Parsing `rgbToHex(rgb)` gives back [r, g, b]. |
| Client.RgbToHexOfParse | frontend/src/App.tsx:136-138 | A lower-case '#rrggbb' parses to three bytes whose encoding is the same string. |
| Client.HexTriple | frontend/src/App.tsx:136-138 | A lower-case '#rrggbb' spells three bytes whose hex pairs are the string's pairs. |
| Client.Handle | frontend/src/App.tsx:104-126 | `init` sets the name and the palette and selects state 1. `color` keeps the name, the selection, the count and every entry's value. `players` changes only the count. |
| Client.Recolored | frontend/src/App.tsx:113-120 | The `color` reducer keeps the list length and every value. Exactly the entries whose value matches take the new colour. |
| Client.InitSelectsExistingState | frontend/src/App.tsx:108-112 | After any `init` from either server, the name is set and the selected state 1 is an entry with value 1. |
| Client.ClientPaletteFollowsServer | frontend/src/App.tsx:113-120 | A client palette equal to the server's `init` report stays equal after a `color` message for entry k and the server's store. |
| Client.Clamp | frontend/src/App.tsx:211-213 | The clamp lands in [lo, hi] and leaves values already in range alone. |
| Client.KeyDown | frontend/src/App.tsx:186-213 | q and e move the zoom by ±0.1, and w/a/s/d move by 0.1·zoom, using the zoom before the key. The zoom is then clamped to [0.05, 1] and the position to [0, 1 - zoom], so the result is always in bounds. Any other key leaves an in-bounds viewport unchanged. |
| Client.ViewportFitsGrid | frontend/src/App.tsx:211-213 | On a grid of side at least 20, an in-bounds viewport gives a crop side of at least 1, and the origin plus the crop stays within the grid. |
| Client.MovedViewHasFrame | cellular.py:139-144 | After the server applies such a `video` message, the player's frame exists for every grid of that side and any positive video size. |
| Client.MovedTrackHasFrame | cellular.py:139-144 | The same on the objects: after the message is applied to the player, the next `recv` of its track (cellular.py:32-43) yields a frame of the current universe. |

## Left out

- The WebRTC transport is left out: peer connections, SDP offer/answer, STUN configuration, `VideoFrame` timestamps and the codec bitrate. A send's outcome is a parameter (`failing`).
- Threads, `asyncio`, the stop event and `time.sleep` pacing are left out:
  - `Simulation.RunIteration` is one pass of the scheduler loop, run sequentially;
  - the thread-safe queue is a `seq`;
  - interleavings of handlers with the scheduler are not modelled.
- JSON encoding and decoding are left out. Messages arrive as typed values: a name, integers, reals and a three-component colour. What ill-typed or incomplete messages do is not modelled:
  - in `universe`, `color` and `draw` messages a missing key raises before anything changes;
  - a `video` message without `zoom` stores the new position on the player (cellular.py:141) before the KeyError at cellular.py:142, so the track keeps the old position; a non-numeric zoom is stored without an error;
  - a `draw` message's `size` and `cellState` are queued unchecked (cellular.py:126); a non-integer value raises later in the scheduler thread (cellular.py:53-59) and ends it.
- Floating point is left out. Grid values are exact integers, and zoom and fractions are reals, so float rounding in `y·zoom·S` is not modelled.
- Protocol.Byte: models the uint8 conversion of stored colours as wrap-around modulo 256. Only integer colours from the client are modelled, not fractional or NaN ones, where the conversion is implementation-defined.
- Client.RgbToHex: requires byte components. Outside 0..255 the shifts and bitwise or of the source mix components, and that is not modelled.
- Client.ParseColor: non-hex picker strings are covered only through `ParseHex` returning None (NaN). What the server then does with a null component is not modelled, because the handler raises before storing.
- Recolor, in both servers: takes a colour of exactly three integer components. A longer list is not modelled: indexing with [2, 1, 0] (cellular.py:130-131) stores its first three components reversed, and the broadcast echoes the whole list. A shorter list raises before anything is stored.
- Messages from a player are handled only once its data channel has opened and while it is registered (`requires id in agents && agents[id].listening`). A message arriving after the player has been removed is not modelled.
- The server's handlers act on the connection's own `agent` record even after removal; that aliasing is not modelled.
- A universe side of 0 is excluded (`universeSize > 0`). The program's default is 500.
- Client.ViewportFitsGrid: needs a side of at least 20. Below that, the minimum zoom 0.05 gives a crop side of 0, and the compositor raises (`Compositor.FrameDefined` reports None).
- Compositor.Frame: the `view` reshape and `permute` steps are modelled by their effect, one pixel per cell, rather than as tensor operations.
- The playback of `init` and `players` messages in the client beyond the reducer is left out, as are mouse handling and the draw interval.

## Findings

| source | as written | input that shows it | evidently intended | confidence | as-written member | corrected member |
|---|---|---|---|---|---|---|
| cellular.py:53-59 (also app.py:51-57) | `bottom = min(r + R + 1, S)` may be negative, and a negative slice stop counts from the end of the axis | request [-5, 3, 1, 1] on a 10x10 grid: the stop -3 becomes row 7, and rows 0..6 of columns 2..4 are overwritten | a request wholly above or left of the grid overwrites nothing, so the stop should also be clamped below by 0 | not executed | Edits.NegativeStopPaintsFromTop | Edits.ClampedWindowExact |
