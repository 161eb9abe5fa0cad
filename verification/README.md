# rtimv: verified models of the remote image client, the image backend, the MTF display and the dictionary

rtimv shows images from scientific cameras. This project models four of its cores in Dafny and
proves what they promise, for every input and over every run.

## What is modelled

**The remote image client** (`src/server/rtimvClientBase.cpp`). A client owns a connection
handshake with a generation counter, an image pump that keeps a window of `ImagePlease` requests in
flight, a protocol that carries the user's global-statistics intent to the server, and a destructor
that waits for every group of RPCs.

- `ClientSpec` gives each lock-protected region as a function on the client's fields; `ClientBase`
  runs the same regions statement by statement in a class and is proved to agree with it. `ClientRun`
  carries out any step of the machine below on that class.
- `ClientMachine` puts the regions into a transition system. A Qt handler is one step. A gRPC
  callback is a chain of steps, split wherever the code releases its locks: it raises the activity
  count (Enter), runs its locked region with any status the network likes (Complete), and goes
  through its later regions and emissions (FollowUp). Each stage of the destructor is a step. Queued
  Qt events are a multiset, and all steps interleave freely.
- `ClientTransport`, `ClientShutdown`, `ClientHandshake`, `ClientPump` and `ClientIntent` each prove
  one inductive invariant; `ClientTheorems` draws the conclusions about all runs, and `ClientDrain`
  bounds the length of a shutdown.
- `ClientPromises`, `ClientWindow`, `ClientAnswers` and `ClientFailures` say what the client does for
  its user and its server in terms of steps and runs alone, without the functions of `ClientSpec`:
  which request is sent, when the credit window opens, when a lost connection is tried again, what
  each answer leads to, and what ends a connection.
- `ClientStall` gives the one family in which the pump does stop: replies whose status has no
  follow-up.

A history records what has happened (replies applied, statistics requests sent, handshake
completions); no step reads it.

**The image backend** (`src/common/rtimvBase.cpp`). `Backend` holds a class with the frame's
buffers as arrays and the code's loops: bringing in a frame, calibration, saturation marking,
filtering, extremes, box and global statistics, and recolouring. `Sources`, `Measure`, `Boxes`,
`BoxStats`, `Stretch` and `Flip` hold the definitions these are proved against. `MaskSnapshot` is the
state machine of the mask snapshot behind global statistics. Pixels are exact reals with explicit
infinities and NaN (`Pixels`).

**The MTF display** (`src/common/rtimvFilters.cpp`). `Spectrum` defines the discrete transform and
proves its symmetry; `Mtf` proves that the packed half spectrum is expanded to the full, centred
definition, and that this is the normalized length of a double sum over the image.

**Dictionary blobs** (`src/librtimv/rtimvDictionary.cpp`). `BlobSpec` gives each operation on one
blob and the heap, with freed and recycled addresses; `BlobWorld` runs many blobs over one heap;
`Dictionary` is the class.

**Rolling statistics and cube timing** (`RollingStats`, `CubeTiming`).

## Where the code does not do what one might expect

- An image reply with status ERROR, NOT_CONFIGURED or an unknown value posts nothing
  (`src/server/rtimvClientBase.cpp:1876-1881`). `ClientStall.ErrorReplyStallsClient` is a run that
  ends connected with nothing in flight, queued or running; `ClientTheorems.StallsExactlyOnLastSilentReply` says exactly
  which step stops a going pump.
- A valid main image with a zero dimension is given a frame of at least one pixel, after which the
  pass gives up (`src/common/rtimvBase.cpp:907-960` and `2454-2457`) and leaves the mask selection of
  the previous frame in force. A following filter-only pass reads past it. The new frame's saturation
  marks are not written, so that the counter of the previous frame no longer belongs to them.
  `MaskSnapshot.HollowImageSpoilsSnapshot` is such a run, and `MaskSnapshot.StepKeepsUsable` gives
  the exact condition.
- When a colour box has no finite pixel, an image pass leaves its two sentinels as the scale
  (`src/common/rtimvBase.cpp:2586-2629`), because it tests them for being finite, which they are; a
  change of colour mode over the same box takes zero (`src/common/rtimvBase.cpp:1723-1728`).
  `Backend.BoxScansAgree` says that the two agree exactly otherwise. The same holds of the extremes of
  a whole image without finite pixels (`src/common/rtimvBase.cpp:2568-2574`).
- Choosing box mode before there is a frame reads its pixel (0, 0) through a null buffer
  (`src/common/rtimvBase.cpp:1692-1703`); `Backend.Imager.SetColormode` is undefined exactly then.
- The result of `malloc` is not tested (`src/librtimv/rtimvDictionary.cpp:44-53`).
  `BlobSpec.SetNeedsStorage` says what follows, and `BlobWorld.StepConserves` that nothing else can go
  wrong.
- A client that a probe reconnects keeps its rolling samples; only a configuration clears them
  (`src/server/rtimvClientBase.cpp:1075-1119`).
- An alias left by a blob transfer keeps its pointer after its owner has freed the storage;
  `BlobWorld.AliasLastsUntilFreed` says how long it is good.

## Model

| member | source | states |
|---|---|---|
| ClientTheorems.PumpNeverStalls | src/server/rtimvClientBase.cpp:1822-1957 | Over every run without a reply that has no follow-up, a connected client that is not shutting down always has a current request in flight, undrained replies, or an event or callback region on its way that leads to the next request; undrained replies always have a wake-up on its way. |
| ClientTheorems.StallsExactlyOnLastSilentReply | src/server/rtimvClientBase.cpp:1849-1896 | From any invariant state with a going pump, a step leaves a connected client stalled if and only if it is a reply without follow-up to the only request in flight, while no reply is queued and no event or callback region that leads to a request is under way. |
| ClientStall.ErrorReplyStallsClient | src/server/rtimvClientBase.cpp:1876-1881 | A concrete run of ten steps from start-up to a connected client with nothing in flight, queued or running. |
| ClientTheorems.GenerationsAreIsolated | src/server/rtimvClientBase.cpp:970-986 | In every reachable state each queued or applied reply was requested in the generation that queues or applies it, and every running image callback finds its request, so the missing-request branch is never taken. |
| ClientTheorems.StaleCompletionDoesNothing | src/server/rtimvClientBase.cpp:1835-1904 | In every reachable state, a completion of an earlier generation finds its own entry and removes it; no other field, the history, the queue and the wire stay as they are, and the callback has only its activity left to give back. |
| ClientTheorems.RequestsCompleteOnce | src/server/rtimvClientBase.cpp:1835-1883 | In no run does an image request complete twice. |
| ClientTheorems.SerialsIncrease | src/server/rtimvClientBase.cpp:1452-1487 | Within a generation the applied serials strictly increase for any completion order; the larger of the last applied and the queued serials is always the largest delivered, and after a drain the last applied one is. |
| ClientPump.NewestIsLargest | src/server/rtimvClientBase.cpp:1465-1472 | The reply the scan picks is one of the queued replies, of the largest serial, and no later one has that serial. |
| ClientTheorems.CreditsAreBounded | src/server/rtimvClientBase.cpp:1193-1217 | In every reachable state at most 128 requests of the current generation are in flight, and at most one before its first valid reply, whatever window changes and reconnections happened. |
| ClientWindow.RequestsFillTheWindow | src/server/rtimvClientBase.cpp:1178-1226 | Over every run, asking for images leaves in flight the larger of the previous count and the user's window if a valid image has arrived in this generation and no answer that there is none since, and otherwise of the previous count and one; the requests it had are kept and exactly the others go to the transport. |
| ClientWindow.PrimedWhileOpen | src/server/rtimvClientBase.cpp:1850-1871 | The flag that opens the window is set exactly while such a valid image is the latest word of the present generation. |
| ClientWindow.WindowFollowsUser | src/server/rtimvClientBase.cpp:3032-3049 | The window is the one asked for if that lies between 1 and 128, and the nearest bound otherwise; a wider one asks for images. |
| ClientPump.NewRequestsOfGeneration | src/server/rtimvClientBase.cpp:1178-1217 | ImagePlease leaves exactly the larger of the previous count and the active window in flight for the current generation, and keeps every request it finds. |
| ClientTheorems.HandshakeIsSafe | src/server/rtimvClientBase.cpp:922-1176 | At most one connection RPC exists; its generation is the current one, so the mismatch check never fires; the client is not connected while it is pending; and being connected follows, in this generation, a successful probe or a successful configuration and image names 0 to 3 in order. |
| ClientAnswers.ConnectedMeansAnswered | src/server/rtimvClientBase.cpp:922-1176 | In any run, whenever the client is connected, its server has in this generation answered a probe with success, or a configuration with success and all four questions for the image names. |
| ClientAnswers.HandshakeMovesOn | src/server/rtimvClientBase.cpp:1056-1146 | For every question and every answer: the client connects with nothing left over from before and goes for the first image, asks the next question in the same or a new generation, or gives up until the timer comes round. |
| ClientAnswers.AnswersAreKept | src/server/rtimvClientBase.cpp:1037-1054 | The status an RPC of the handshake or of statistics ends with is kept with its request, and announced. |
| ClientFailures.DisconnectsExactly | src/server/rtimvClientBase.cpp:1902-1916 | A step ends a connection if and only if it carries out the disconnect that a failed RPC of this generation left to do, or takes in a failed statistics request of this generation. |
| ClientFailures.ConnectionLasts | src/server/rtimvClientBase.cpp:61-73 | In any run in which no RPC fails, deadlines of all but the statistics request and failures of information requests not counted, a connected client stays connected. |
| ClientFailures.RepliesAreFollowedUp | src/server/rtimvClientBase.cpp:1849-1896 | For every status of a current image request: what is queued, and whether the callback goes on to wake the client, to report that there is no image, to ask again, to disconnect, or to nothing. |
| ClientFailures.RegionsTakeEffect | src/server/rtimvClientBase.cpp:1900-1956 | What each later region of a callback posts or changes; a disconnect takes effect only in the generation in which the RPC failed. |
| ClientFailures.OthersAreFollowedUp | src/server/rtimvClientBase.cpp:2316-2345 | Among the other RPCs exactly the failing ones go on to disconnect. |
| ClientFailures.NoImageBlanks | src/server/rtimvClientBase.cpp:3833-3850 | The answer that there is no image blanks the measurements of its own generation and keeps the modes. |
| ClientFailures.UserRequestsAreSent | src/server/rtimvClientBase.cpp:1282-1332 | A request of the user reaches the transport exactly if the client is connected, is not stopping, and has none of its kind outstanding. |
| ClientPromises.LastWordIsSent | src/server/rtimvClientBase.cpp:3693-3777 | Over every run: whatever replies, failures and reconnections came in between, a connected client whose server has statistics and that waits for nothing has, in this connection, last sent exactly the two modes that the user set last. |
| ClientTheorems.IntentConverges | src/server/rtimvClientBase.cpp:3747-3777 | In every reachable state that is connected, supported, holds an intent and waits for nothing, the last statistics request sent belongs to this generation; it asks for the user's mode where the user has set one, and for the mode that came with the server's statistics where not. |
| ClientPromises.AppliedReplyIsShown | src/server/rtimvClientBase.cpp:3852-3913 | The newest queued reply is applied exactly if it is newer than what was applied; its statistics message makes the client supported and is what it shows, a missing one or a refused request makes it unsupported; the queue is emptied. |
| ClientPromises.AppliedReplySendsIntent | src/server/rtimvClientBase.cpp:3895-3914 | A reply that makes statistics available sends what the user wants, unless this connection's server was told so last. |
| ClientPromises.ResultIsHeeded | src/server/rtimvClientBase.cpp:3795-3831 | What each result of a statistics request leads to: nothing, an unsupported client that stays connected, or the end of the connection with blank measurements; results of earlier generations are dropped. |
| ClientPromises.FailedRequestIsSentAgain | src/server/rtimvClientBase.cpp:3747-3831 | In any run, after a statistics request has failed, whenever the client is connected and supported once more and waits for nothing, it has sent what the user wants in a request of a later generation than all requests before the failure. |
| ClientPromises.TimerReconnects | src/server/rtimvClientBase.cpp:922-941 | In every reachable state that is not shutting down: a connected client pings unless a ping is outstanding; a disconnected one puts a probe of the next generation on the wire unless a connection request is pending. |
| ClientTheorems.IntentIsSerialized | src/server/rtimvClientBase.cpp:3747-3831 | At most one statistics request is ever outstanding, consecutive requests of a generation differ, and a pending request is on the wire, in a callback, or has its result notification on its way. |
| ClientTheorems.SendsAreTheRequests | src/server/rtimvClientBase.cpp:3747-3777 | The record of sends that the two rows above speak of is exact: over any run it lists, in order, precisely the statistics requests handed to the transport, with the generation and modes each carries. |
| ClientIntent.SendersAreRecorded | src/server/rtimvClientBase.cpp:3747-3777 | Only the user's request, an applied image and a result notification send a statistics request, and it carries the present generation and what is remembered as last sent. |
| ClientTheorems.IntentFollowsUser | src/server/rtimvClientBase.cpp:3693-3709 | Only the user changes the desired modes: every other step of the machine, reconnections and failures included, keeps them. |
| ClientTheorems.ShownStatsAreCoherent | src/server/rtimvClientBase.cpp:3711-3724 | In every reachable state the client shows the statistics it holds while it is connected and none while it is not, and a positive count if and only if a valid status. |
| ClientTheorems.ShutdownIsSafe | src/server/rtimvClientBase.cpp:81-326 | Once the destructor has passed all its waits no RPC is outstanding, no callback is running and none has anything left to do. |
| ClientTheorems.GoneIsFinal | src/server/rtimvClientBase.cpp:81-326 | From then on no step, queued events included, starts anything again. |
| ClientTheorems.ShutdownNeverSticks | src/server/rtimvClientBase.cpp:109-280 | In every reachable state before its end the destructor can move on, or an RPC or a callback that it waits for is still there: no wait is for something that never comes. |
| ClientDrain.ShutdownIsBounded | src/server/rtimvClientBase.cpp:83-280 | In any run, the steps that callbacks and destructor take after both flags are up are bounded by what was outstanding then, however many handlers run in between. |
| ClientDrain.StepShrinksWork | src/server/rtimvClientBase.cpp:302-326 | After both flags every step of a callback or of the destructor leaves strictly less to do, and no handler adds anything. |
| ClientShutdown.RefusesAfterFlags | src/server/rtimvClientBase.cpp:83-91 | Once the first flag is up no handler dispatches anything but an info request, or touches a pending entry of another group; once both are up none dispatches anything. |
| ClientTheorems.InvNext | src/server/rtimvClientBase.cpp:922-1226 | Every step of the machine keeps the five invariants together. |
| ClientTransport.AccountedEffect | src/server/rtimvClientBase.cpp:1835-1898 | Every step keeps the books: an RPC is on the wire or in a callback exactly as often as the client's fields say it is outstanding. |
| ClientTransport.CountedEffect | src/server/rtimvClientBase.cpp:302-326 | Every step keeps the activity count equal to the number of callbacks between their first and last action. |
| ClientIntent.DispatchSettles | src/server/rtimvClientBase.cpp:3747-3777 | Whatever a handler did before, calling dispatchGlobalStats leaves nothing to send, records the send, and never repeats the previous request of the generation. |
| ClientRun.TakeStep | src/server/rtimvClientBase.cpp:922-1226 | Any step that is possible in a reachable state can be carried out by the methods of the client object; it leaves the object in the machine's next state, hands out exactly what the machine adds to the wire, the queue and the callbacks, and the next state satisfies the invariant again. |
| ClientRun.RunHandler | src/server/rtimvClientBase.cpp:922-1502 | Every Qt handler of the object does what the machine's step says. |
| ClientRun.RunCallback | src/server/rtimvClientBase.cpp:1037-1054 | The locked region of every callback of the object does what the machine's step says, and leaves the same to do. |
| ClientBase.RemoteClient.DispatchConnectionRequest | src/server/rtimvClientBase.cpp:953-1035 | Does what the specification function says to every field, and dispatches exactly that RPC. |
| ClientBase.RemoteClient.ConnectionReceived | src/server/rtimvClientBase.cpp:1056-1146 | Consumes the pending request and moves the handshake on as specified, for every phase and status. |
| ClientBase.RemoteClient.Reconnect | src/server/rtimvClientBase.cpp:922-941 | Pings a connected server and probes otherwise. |
| ClientBase.RemoteClient.ImagePlease | src/server/rtimvClientBase.cpp:1178-1226 | The credit loop registers and dispatches exactly the identifiers of the specification. |
| ClientBase.RemoteClient.ImagePleaseCallback | src/server/rtimvClientBase.cpp:1833-1956 | The locked region of the callback and the action chosen, for every status and reply. |
| ClientBase.RemoteClient.ImageReceived | src/server/rtimvClientBase.cpp:1447-1487 | The scan picks the specified reply; it is applied only if newer; the queue is emptied and another image asked for. |
| ClientBase.RemoteClient.DispatchGlobalStats | src/server/rtimvClientBase.cpp:3747-3777 | Sends the effective intent under exactly the specified conditions and remembers it. |
| ClientBase.RemoteClient.GlobalStatsReceived | src/server/rtimvClientBase.cpp:3795-3831 | Takes the result in, withdraws measurements on failure, and dispatches again. |
| ClientBase.RemoteClient.ReceiveGlobalStats | src/server/rtimvClientBase.cpp:3852-3915 | Stores what a reply carries and dispatches the intent that it may make possible. |
| GlobalStats.ReceivedIsCoherent | src/server/rtimvClientBase.cpp:3852-3893 | Whatever a server sends, a measurement is kept if and only if the message is enabled, valid, not empty and finite throughout, and then it is the server's own; otherwise there is no count and the status is the server's reason. |
| MaskSnapshot.StepKeepsUsable | src/common/rtimvBase.cpp:2019-2181 | From a usable snapshot every mode change, pass and check is defined (no read past the selection), and leaves the snapshot usable if and only if it does not bring in a main image without pixels over a selection of another size; it also keeps the statistics coherent. |
| MaskSnapshot.SnapshotStaysUsable | src/common/rtimvBase.cpp:2397-2502 | Over every run of mode changes, passes with any images, filter-only passes and checks in which no step meets that condition, no pass reads past the selection, the snapshot stays usable and the statistics coherent. |
| MaskSnapshot.SolidImagesNeverSpoil | src/common/rtimvBase.cpp:2049-2072 | No run in which every valid main image has pixels meets the condition at any step. |
| MaskSnapshot.SnapshotFromTheStart | src/common/rtimvBase.cpp:2397-2502 | So from start-up on, with such images, no pass ever reads past the selection. |
| MaskSnapshot.ChangeKeepsUsable | src/common/rtimvBase.cpp:2405-2502 | What a pass takes in from a usable snapshot can be read, and what it leaves is usable under exactly that condition. |
| MaskSnapshot.HollowImageSpoilsSnapshot | src/common/rtimvBase.cpp:2432-2457 | A concrete legal run of four actions in which a filter-only pass reads past the selection. |
| MaskSnapshot.ChangeIsExact | src/common/rtimvBase.cpp:2074-2138 | After a pass that shows something while statistics are on, they are exact for the frame shown, extremes, mean and median included; and if it brought in a frame, the selection is where the present mask is one. |
| MaskSnapshot.ChecksAndModes | src/common/rtimvBase.cpp:2019-2171 | A check withdraws measurements whose input is gone and says why, asks for a pass exactly if the input is back or a refresh is due, and changes nothing else; a mode change withdraws them and asks for a pass if statistics are on. |
| Sources.InputStatusTells | src/common/rtimvBase.cpp:2049-2072 | When each input status is reported, with the order in which a missing image, a wrong size and a missing mask are named. |
| Measure.PublishedIsCoherent | src/common/rtimvBase.cpp:2091-2138 | A pass publishes a valid status if and only if its input is valid and it kept a value, the count is positive exactly then, and minimum, mean, median and maximum are in order. |
| Measure.PublishedMeasuresSelection | src/common/rtimvBase.cpp:2099-2133 | The published snapshot is that of the finite selected pixels: their number, their attained extremes, a mean that times the number is their total added up position by position, and the median of exactly their values in order. |
| Measure.ValuesAreChosen | src/common/rtimvBase.cpp:2103-2121 | The values kept are those of the finite selected pixels, neither more nor fewer. |
| Backend.UnmaskedStatsMatchImage | src/common/rtimvBase.cpp:2099-2133 | With the mask off, whatever selection is left over, the published extremes are those of the image scan, and the status is valid exactly when some pixel is finite. |
| Backend.CalculationAgrees | src/common/rtimvBase.cpp:2538-2566 | The statistics that a pass publishes are exact for the pixels it shows, and agree with the extremes that its image scan found. |
| Backend.Imager.SetImsize | src/common/rtimvBase.cpp:907-960 | Afterwards every buffer and the active one have exactly the size of the frame, which has at least one pixel; a frame of the same size keeps its buffers, one of another size gets new ones. |
| Sources.CalibrationFor | src/common/rtimvBase.cpp:1376-1473 | A calibration is chosen exactly when the main image is valid; the dark is used if and only if it is asked for, valid and of the same size and a mask that is asked for and present is too, and the other way round. |
| Sources.CalibrationIsUndone | src/common/rtimvBase.cpp:1475-1496 | Where nothing overflows, the raw value is the calibrated one plus the dark, a mask of one keeps a pixel and a mask of zero zeroes a finite one; and where the result is not finite. |
| Backend.FrameIsCalibrated | src/common/rtimvBase.cpp:2461-2496 | The same of the frame that a pass brought in, with the exact conditions under which dark and mask count and a pixel is marked as saturated. |
| Backend.Imager.Fill | src/common/rtimvBase.cpp:2461-2496 | The frame is the calibrated image; a pixel is marked exactly when its raw value reaches the level or a valid saturation mask of the same size is positive there; the counter equals the number of marks. |
| Sources.CountIsCardinality | src/common/rtimvBase.cpp:2461-2496 | The counter that goes with the marks is the number of marked pixels, each once. |
| Backend.Imager.SnapshotGlobalStats | src/common/rtimvBase.cpp:2074-2089 | Records the input status and, when it is valid and masked, exactly the pixels where the mask is one. |
| Backend.Imager.ApplyFilter | src/common/rtimvBase.cpp:2681-2723 | The active buffer has the size of the frame and holds high-pass, then low-pass, then MTF of the calibrated frame, each only if it is switched on and effective. |
| Backend.ChainKeepsSize | src/common/rtimvBase.cpp:2681-2723 | Whatever combination of filters acts, the result has as many pixels as the frame. |
| Backend.ChainInOrder | src/common/rtimvBase.cpp:2681-2723 | Which filters act, and on what: high-pass on the frame, low-pass on what that leaves, the modulation transfer last; with none the frame itself is shown. |
| Backend.Imager.ScanByRows | src/common/rtimvBase.cpp:2538-2566 | The extremes found are attained and bound every finite pixel of the patch, or are the two sentinels when there is none. |
| Backend.Imager.ScanByColumns | src/common/rtimvBase.cpp:1696-1721 | The same for the opposite loop nesting. |
| Boxes.ScanStep | src/common/rtimvBase.cpp:2546-2565 | Visiting one more pixel, in whatever order, keeps the partial extremes right. |
| Boxes.ScanIsUnique | src/common/rtimvBase.cpp:2582-2619 | The extremes of a region are determined by its pixels alone, and come out in the wrong order exactly when the region has no finite pixel. |
| Backend.BoxScansAgree | src/common/rtimvBase.cpp:1690-1731 | The two colour-box scans give the same scale if and only if the box has a finite pixel. |
| Backend.NormalizeCorners | src/common/rtimvBase.cpp:2878-2934 | Assignment by assignment, the corners end up as specified, ordered and inside the image. |
| Boxes.NormalizationIsCanonical | src/common/rtimvBase.cpp:2878-2992 | A normalized box lies within columns 0 to nx-2 and rows 0 to ny-2; normalizing is idempotent, independent of the order of the corners, and leaves normal boxes alone. |
| Boxes.CornersMoveNearest | src/common/rtimvBase.cpp:2878-2992 | The sides of a normalized box are where the admissible coordinates nearest to those of the two corners are. |
| BoxStats.BoxMeasureIsCorrect | src/common/rtimvBase.cpp:1956-2000 | The box statistics are zeros for a box without finite pixels; otherwise the extremes are attained and bound its finite pixels and enclose mean and median. |
| BoxStats.BoxMeasureIsExact | src/common/rtimvBase.cpp:1956-2000 | The measure of a box is exactly that of its finite pixels: attained extremes, a mean that times their number is their total, and the median of exactly their values. |
| Backend.Imager.CalcStatsBox | src/common/rtimvBase.cpp:1935-2001 | Normalizes the box and stores exactly its measure, in all of the early-return cases too. |
| Backend.Imager.CalcGlobalStats | src/common/rtimvBase.cpp:2091-2138 | Publishes what the snapshot machine's calculation says of the active buffer. |
| Backend.Imager.PaintData | src/common/rtimvBase.cpp:2764-2798 | Every screen place shows the index of the frame pixel of the vertically flipped position. |
| Backend.Imager.RecolorImpl | src/common/rtimvBase.cpp:2725-2816 | Every screen place shows the saturation marker, the non-finite marker or the stretched index of its own frame pixel, in that order of precedence. |
| Backend.ScreenTellsPixelsApart | src/common/rtimvBase.cpp:2725-2816 | On a painted screen the index at a place is the saturation marker, the non-finite marker or a palette colour if and only if the pixel shown there is marked, not finite, or finite. |
| Backend.ScreenShowsValues | src/common/rtimvBase.cpp:2764-2813 | Each place of a painted screen shows the pixel of its column in the frame row counted from the other end: the marker that applies, or the colour nearest to the value's height on the stretch. |
| Backend.OverlayPaintsTheCount | src/common/rtimvBase.cpp:2801-2813 | With the overlay on and the counter right, which every pass keeps so unless it brings in an image without pixels of another size, exactly as many places carry the saturation marker as pixels were counted. |
| Flip.FlipIsBijective | src/common/rtimvBase.cpp:2769-2774 | Screen places and frame positions correspond one to one, so every pixel is painted at exactly one place. |
| Flip.MarksAreCounted | src/common/rtimvBase.cpp:2803-2812 | As many places are marked as positions are flagged. |
| Stretch.IndexIsInPalette | src/common/rtimvBase.cpp:2310-2373 | Every stretch sends every finite value, whatever the scale limits, to a colour of the palette. |
| Stretch.IndexIsMonotone | src/common/rtimvBase.cpp:2310-2373 | With the scale limits in order, a brighter pixel never gets a lower colour. |
| Stretch.IndexIsNearest | src/common/rtimvBase.cpp:2310-2373 | For every stretch, a value before the first limit gets colour zero, one where the curve reaches one the last colour, and any other the colour that differs from the last colour times the curve's height by at most one half, rounded up from the middle; the height is told by the equation of its curve. |
| Stretch.EndsOfScale | src/common/rtimvBase.cpp:2310-2373 | With the limits in order, at or above the upper limit every stretch shows the last colour, below the lower one colour zero, and what it shows there; the linear index is within one half of the proportion. |
| Stretch.MarkersAreDistinct | src/common/rtimvBase.cpp:1532-1633 | Marker indices never collide with each other or with data indices. |
| Backend.Imager.ChangeImdata | src/common/rtimvBase.cpp:2397-2679 | A pass follows the snapshot machine; it shows something exactly if there is a frame, or the frame to bring in is a valid image with pixels. A shown pass leaves the filtered frame with its extremes, scale, box statistics and painted screen, and global statistics that are exact for it, agree with the extremes and, if it brought in data, follow the present mask; one that brought in data leaves the calibrated main image with its saturation marked and counted; a filter-only pass leaves the calibrated frame alone; an abandoned one leaves everything shown alone, with new buffers exactly if the frame got another size; and the saturation counter stays right unless an image without pixels of another size was brought in. |
| Backend.Imager.CheckGlobalStats | src/common/rtimvBase.cpp:2140-2181 | Follows the snapshot machine, runs a pass exactly when a refresh is due and then leaves statistics exact for the present images and mask, names the reason when the input is gone, announces exactly the changes of status it made itself, and always leaves the snapshot usable. |
| Backend.Imager.CheckInput | src/common/rtimvBase.cpp:2144-2171 | The locked part of the check, with exactly when it asks for a pass or announces a changed status. |
| Backend.Imager.SetGlobalStats | src/common/rtimvBase.cpp:2019-2026 | Withdraws the old measurements and makes a refresh due when statistics are enabled. |
| Backend.Imager.SetColormode | src/common/rtimvBase.cpp:1688-1757 | Undefined exactly for box mode without a frame; otherwise box mode takes its scale from the normalized box, zeros if it shows nothing; user mode ends automatic scaling; the screen is repainted. |
| Mtf.MtfContext.CalculateMTF | src/common/rtimvFilters.cpp:125-193 | At every centred place of the output stands the modulus of that frequency over the zero frequency, as the full definition says; all packed reads and all writes are in bounds and every place is written. |
| Mtf.ShiftIsPermutation | src/common/rtimvFilters.cpp:36-45 | Centring permutes the indices of a dimension, with its inverse, and takes the zero frequency to the middle. |
| Mtf.PackedFits | src/common/rtimvFilters.cpp:137-140 | The packed half spectrum fits in the buffer that is allocated for it. |
| Mtf.WritesOne | src/common/rtimvFilters.cpp:172-192 | The visited frequencies and the written places correspond one to one. |
| Mtf.SourceHasModulus | src/common/rtimvFilters.cpp:176-180 | The packed coefficient that is read for a frequency has the modulus of that frequency. |
| Mtf.DisplayIsRatio | src/common/rtimvFilters.cpp:164-188 | What is shown is the modulus divided by that of the zero frequency, when that is finite and positive. |
| Mtf.ModulusIsLength | src/common/rtimvFilters.cpp:161-180 | The square of a finite modulus is the sum of the squares of the two parts; it is infinite only out of range. |
| Mtf.TransformIsImageSum | src/common/rtimvFilters.cpp:125-160 | The transform of the loaded input is the double sum over the columns and rows of the image, non-finite pixels adding nothing. |
| Mtf.DisplayIsNormalized | src/common/rtimvFilters.cpp:125-193 | What is displayed for a frequency is the length of its double sum over the image divided by that for the zero frequency, or the plain length or zero in the exceptional cases. |
| Spectrum.Hermitian | src/common/rtimvFilters.cpp:161-180 | The transform of a real image at opposite frequencies is conjugate, derived from the definition. |
| BlobWorld.OwnershipIsConserved | src/librtimv/rtimvDictionary.cpp:9-120 | While the allocator has something to give, over every sequence of operations on any number of blobs nothing is freed twice or written while not live, every live allocation has exactly one live owner, sizes stay within capacities, and destroying the last blob leaves no allocation. |
| BlobWorld.OwnershipFromTheStart | src/librtimv/rtimvDictionary.cpp:9-120 | In particular from the start of a process. |
| BlobWorld.StepConserves | src/librtimv/rtimvDictionary.cpp:9-68 | One operation is defined and conserves ownership if and only if it does not ask the allocator in vain; what it frees is live and owned by its blob. |
| BlobWorld.PayloadSurvives | src/librtimv/rtimvDictionary.cpp:35-91 | While nobody writes to, transfers or destroys an owning blob, no other operation changes what it reads, recycled addresses included. |
| BlobWorld.TransferKeepsPayload | src/librtimv/rtimvDictionary.cpp:25-33 | A transfer moves the duty to free and nothing else: both names read the old payload, and the timestamp stays behind. |
| BlobWorld.AliasLastsUntilFreed | src/librtimv/rtimvDictionary.cpp:9-33 | An alias's pointer stays live across an operation if and only if that does not free its storage or gets the same address back. |
| BlobSpec.GetAfterSet | src/librtimv/rtimvDictionary.cpp:35-91 | A get after a non-empty set returns the written prefix of length min(size, capacity asked), whether or not storage was reused. |
| BlobSpec.StringCopy | src/librtimv/rtimvDictionary.cpp:93-108 | The string copy has the length of what a read would copy, or of the terminator alone when that is nothing; it ends in a terminator whenever there is room for one, and every byte before it is the stored one. |
| BlobSpec.SetNeedsStorage | src/librtimv/rtimvDictionary.cpp:35-68 | A set is defined and leaves a sound blob if and only if the allocator is not asked in vain; otherwise a payload is copied through a null pointer, and without one the blob owns storage that it does not have. |
| BlobSpec.SetFootprint | src/librtimv/rtimvDictionary.cpp:35-68 | A set stamps the blob and touches no storage but its own, old and new: it reuses storage that it owns and that is large enough, and otherwise takes new storage of exactly the size. |
| Dictionary.DictBlob.ClearBlob | src/librtimv/rtimvDictionary.cpp:9-19 | Frees exactly the owned storage, which is live, and forgets it; without ownership it changes nothing; the stamp stays. |
| Dictionary.DictBlob.Transfer | src/librtimv/rtimvDictionary.cpp:25-33 | Fields of the new blob and of its source as specified; the heap is untouched. |
| Dictionary.DictBlob.SetBlob | src/librtimv/rtimvDictionary.cpp:35-68 | Fields and heap as specified, on every branch, a failed allocation included. |
| Dictionary.DictBlob.GetBlob | src/librtimv/rtimvDictionary.cpp:70-91 | Copies exactly the specified bytes and leaves the rest of the caller's buffer alone. |
| Dictionary.DictBlob.GetBlobStr | src/librtimv/rtimvDictionary.cpp:93-108 | The same for the terminated copy. |
| Dictionary.DictBlob.GetBlobSize | src/librtimv/rtimvDictionary.cpp:110-118 | The size is the number of bytes that a large enough read returns. |
| RollingStats.Slide | src/server/rtimvClientBase.cpp:2911-2918 | Appending a sample and dropping from the front leaves the last samples of the window and their sum. |
| RollingStats.LastSlides | src/server/rtimvClientBase.cpp:2911-2918 | The window after a slide is the last min(k, window) of all samples accepted since the reset. |
| RollingStats.AverageIsBetween | src/server/rtimvClientBase.cpp:2920-2923 | The average lies between the least and the greatest sample of the window. |
| RollingStats.AverageIsExact | src/server/rtimvClientBase.cpp:2920-2923 | The average times the number of samples in the window is the total of exactly the most recent samples. |
| RollingStats.RateIsReciprocal | src/server/rtimvClientBase.cpp:2950-2955 | A published frame rate times the average interval is one. |
| RollingStats.AverageIsPositive | src/server/rtimvClientBase.cpp:2950-2955 | The guard on the average interval never fails. |
| RollingStats.TransportStats.UpdateRtt | src/server/rtimvClientBase.cpp:2902-2924 | The window and the running sum stay those of all accepted samples, and the average is that of the last of them. |
| RollingStats.TransportStats.UpdateTransport | src/server/rtimvClientBase.cpp:2926-2996 | Which samples are accepted, when the frame rate is published and from what, and that both windows follow their samples. |
| RollingStats.TransportStats.Reset | src/server/rtimvClientBase.cpp:1104-1119 | A newly configured connection starts from nothing. |
| CubeTiming.ScheduleIsCorrect | src/common/rtimvBase.cpp:980-1063 | The cube period is a whole multiple of the polling time and within half a polling limit of the rounded wish; the polling time lies between one and its limit; reported rate times multiplier times period is 1000 while playing; the frame-counter timer is set as stated; the guard on the number of polls never fires. |
| CubeTiming.ScheduleIsNearIdeal | src/common/rtimvBase.cpp:1000-1050 | Measured against the exact period of the wished rate: the period is its nearest millisecond when one poll suffices, at least one, and otherwise a whole number of polls off by at most half a poll and half a millisecond; the cube timer runs with that period exactly while a cube plays. |
| CubeTiming.RateDeterminesPeriod | src/common/rtimvBase.cpp:1033-1038 | Computing the period back from the reported rate gives the same period. |
| CubeTiming.NearestMultiple | src/common/rtimvBase.cpp:1026-1031 | The rounded number of polls is at least one and its multiple is the closest within half a polling limit. |
| CubeTiming.BackendTimer.SetCurrImageTimeout | src/common/rtimvBase.cpp:980-1063 | The backend follows the schedule, its frame-counter timer included, and restarts its image timer only when the polling time changes. |
| CubeTiming.ClientTimer.SetCurrImageTimeout | src/server/rtimvClientBase.cpp:2828-2900 | The client's own copy of the code follows the same schedule, its frame-counter timer included. |

## Left out

- Real time: retry delays and deadlines are events that may happen at any time; waits of the destructor are steps that become possible when their condition holds.
- A client without a server stub: it exists once the configuration has been loaded, and nothing is dispatched before.
- ClientBase.RemoteClient.DispatchConnectionRequest: supposes a loaded configuration. The code's early return without one cannot be taken, because the stub that every dispatch tests is created after it (`src/server/rtimvClientBase.cpp:594` and `877`).
- ClientBase.RemoteClient.ImageReceived: leaves out the display values it copies and the scale requests it sends again; the latter are dispatches that the user can trigger at any time.
- Handlers on the Qt thread are single steps; an event that the code emits directly is queued, of which the direct call is a special case.
- Cancelling a request is one of the ways in which the network may complete it.
- Image names and their caching, the log, and the branches that only report an impossible context.
- Pixel, box, stretch, scale, ping, age and info requests: they are present as RPCs that shutdown must drain, and their failures as an arbitrary disconnect; the values they replay are not modelled.
- Setters with an empty response are one kind of RPC, told apart by their context.
- Rounding and overflow: pixels, sums, rates and times are exact reals, sizes are unbounded; a result beyond the largest single-precision value becomes an infinity.
- Locks of the backend: a pass that finds another one running returns at once, which is no step at all; nothing else runs between the regions of a pass.
- The numerical filters, the Fourier transform, the median and the logarithm, power and square root appear through the properties that are asked of them: of the median only that it lies within its values, of the logarithm and the power that they are increasing and right at the ends of the scale.
- A null image buffer is a frame that is not `sized`; buffers that a filter writes are new arrays rather than resized ones.
- CubeTiming.ScheduleIsCorrect: asks for a positive multiplier and a polling limit of at least a millisecond; the code divides by both.
- Dictionary.DictBlob.GetBlob: reading through an alias is asked to be sound, as the header asks of callers; mutexes are not modelled, and the caller's bytes do not overlap the blob's own storage.
- Dictionary.DictBlob.GetBlobSize: promises the size only of a sound and readable blob.
- Recolouring requested on its own, automatic-scale and bias or contrast setters, settings and their loading, plugins and overlays: one-step logic.
- The server: most of it is in `rtimvServerThread`, which is not part of this model.
- The user interface, the image readers, command-line and configuration parsing, and image decoding.
