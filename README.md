# Graffiti wall: ink ledger, pixel map and canvas geometry in Dafny

A model of the client-side core of a shared pixel wall. Every participant
paints cells of a 100 × 100 wall, each paint spends ink from a personal
budget that regenerates one unit per timer tick up to 200. The backing
store broadcasts the whole canvas to every client, and each participant's
ink to that participant's own clients.

The model covers three source files:

- `user_store.dfy` (module `Users`): the ink ledger `UserStore`, a class with
  the fields `id`, `ink`, `isLoading`, the regeneration timer handle, and a
  flag for whether the runtime still fires that timer. Its methods are
  `Initialize`, the ink-change notification handler `OnInkChanged`, the
  timer callback `RegenerationTick`, `ConsumeInk` and `Destroy`.
  `ConsumeInk` and `RegenerationTick` tie the new ink to the pure functions
  `Spend` and `TickInk` (which uses `Regenerate`). `Initialize` ties it to
  the participant that `Resolve` settles on, and `OnInkChanged` to the
  notified value. Lemmas prove what those functions promise:
  clamping, composition of spends, the cap after repeated ticks, and the
  range invariant under any interleaving of callbacks (`Run`). The choice
  between cached values and the database row is the function `Resolve`.
- `canvas_store.dfy` (module `Canvas`): the pixel map `CanvasStore`, a class
  with a `map<string, string>` field and the subscription handle. `Load`,
  `SubscribeToUpdates`, the notification handler `OnPixelsChanged`,
  `AddPixel` and `Destroy` update these fields in place.
- `canvas_utils.dfy` (module `CanvasUtils`) and `pixel_keys.dfy` (module
  `PixelKeys`): the pointer-to-cell arithmetic, the square drawn for a cell,
  the `"x,y"` key with its parse (decimal rendering, `split(',')`, `Number`),
  and `RenderCanvas`, a loop that issues one clear and then one fill per map
  entry on a recording drawing context.

`constants.dfy` holds `CANVAS_SIZE = 100`, `SCALE = 5` and `MAX_INK = 200`.
`wrappers.dfy` holds `Option`.

Network calls, the browser's local storage, UUID generation, the clock and
the timer runtime are not modelled as code. Their answers are method
parameters: the cached record, the fresh id, `now`, the upsert response, the
loaded row, notification payloads, and channel and timer handles. What the
stores send out is returned: the upsert row, the record written back to the
cache, and the ink write after a tick.

In these places the model follows the code, whose behaviour may be
unexpected:

- `addPixel` stores any coordinates. There is no range check, so a cell such
  as (200, 0) is stored (`Canvas.SnapshotDropsLocalWrite`).
- On initialization, the code upserts the locally assembled values and
  takes whatever row comes back. The model takes that row as an input. It
  does not model whether the server keeps an existing row's ink and join
  time.
- A regeneration tick adds 1. The tick is skipped when the id is falsy,
  which includes the empty string as well as no id.
- An ink notification's value is assigned as is. The code has no guard
  against a payload without `ink`, so the model's notification carries an
  integer.
- The ledger's `destroy` stops the interval but keeps the timer handle.

## Model

| member | source | states |
|---|---|---|
| `Users.Spend` | src/lib/stores/user.svelte.ts:90 | the spent ink is never negative, is `ink - amount` unless that is negative (then 0), and never exceeds the old ink for a non-negative amount from non-negative ink |
| `Users.Regenerate` | src/lib/stores/user.svelte.ts:77 | one tick never exceeds `MAX_INK`, adds exactly 1 below the cap, and yields `MAX_INK` at or above it |
| `Users.TickInk` | src/lib/stores/user.svelte.ts:74-77 | a tick leaves the ink unchanged when the id is null or empty, and regenerates it otherwise |
| `Users.SpendComposes` | src/lib/stores/user.svelte.ts:90 | for non-negative `a` and `b`, spending `a` then `b` equals spending `a + b` |
| `Users.SpendKeepsRange` | src/lib/stores/user.svelte.ts:90 | a non-negative spend keeps ink within `[0, MAX_INK]` |
| `Users.SpendNegativeRaises` | src/lib/stores/user.svelte.ts:89-91 | a negative amount is not rejected and raises the ink, with no cap at `MAX_INK` |
| `Users.SpendAllClamps` | src/lib/stores/user.svelte.ts:89-91 | a run of non-negative spends from non-negative ink ends at `max(0, ink - total)` |
| `Users.RegenerateTimesCaps` | src/lib/stores/user.svelte.ts:74-77 | `n` ticks from ink at most `MAX_INK` give `min(ink + n, MAX_INK)`, so ticks at the cap change nothing |
| `Users.RunStaysInRange` | src/lib/stores/user.svelte.ts:67-91 | any interleaving of non-negative spends, ticks and in-range notifications keeps ink within `[0, MAX_INK]` |
| `Users.RunEndsWithNotification` | src/lib/stores/user.svelte.ts:67-70 | after any history of callbacks, a final notification of `v` leaves the ink at exactly `v` |
| `Users.LocalUser` | src/lib/stores/user.svelte.ts:24-30 | each cached field is used when present and defaulted on its own when missing: id to the fresh UUID, ink to `MAX_INK`, join time to now |
| `Users.Resolve` | src/lib/stores/user.svelte.ts:43-56 | a failed upsert keeps the local participant, a returned row supplies id, ink and join time, and no error with no row yields nothing |
| `Users.UpsertRow` | src/lib/stores/user.svelte.ts:34-39 | the upserted row carries `updated_at` equal to the join time, and a database that hands that row back leads to the same participant as a failed upsert |
| `Users.CacheRecord` | src/lib/stores/user.svelte.ts:52-56 | the record written to the cache has every field present, each mirroring the participant initialization settled on |
| `Users.CachedUserIsStable` | src/lib/stores/user.svelte.ts:24-56 | the record written back to the cache is read back whole at the next start, whatever fresh UUID and clock that start has |
| `Users.FailedUpsertKeepsLocal` | src/lib/stores/user.svelte.ts:43-46 | with a complete cached record, a failed upsert settles on exactly the cached id, ink and join time |
| `Users.UserStore.constructor` | src/lib/stores/user.svelte.ts:12-15 | a fresh ledger has no id, `MAX_INK` ink, is loading and has no timer |
| `Users.UserStore.Initialize` | src/lib/stores/user.svelte.ts:23-87 | sends the assembled participant in the upsert; when `Resolve` settles on a participant, id and ink take its values, the cache mirrors it, loading ends and the interval starts; when it does not, nothing changes and no cache is written |
| `Users.UserStore.OnInkChanged` | src/lib/stores/user.svelte.ts:67-70 | the notified value replaces the ink whatever it was, so delivering it twice equals delivering it once |
| `Users.UserStore.RegenerationTick` | src/lib/stores/user.svelte.ts:74-86 | the ink becomes `TickInk` of the old ink, the range invariant is kept, and the new ink is written for the id unless the id is falsy |
| `Users.UserStore.ConsumeInk` | src/lib/stores/user.svelte.ts:89-91 | the ink becomes `Spend` of the old ink, and a non-negative amount keeps the range invariant |
| `Users.UserStore.Destroy` | src/lib/stores/user.svelte.ts:93-97 | the interval no longer fires and nothing else changes, so a second call is a no-op |
| `Users.LateNotificationWins` | src/lib/stores/user.svelte.ts:67-90 | spending 100 of a full budget leaves 100, a tick makes it 101, and a late notification of 140 sets 140 |
| `Canvas.WithPixel` | src/lib/stores/canvas.svelte.ts:48-50 | painting maps key `"x,y"` to the color, adds no other key and leaves every other entry unchanged |
| `Canvas.WithPixelReadBack` | src/lib/stores/canvas.svelte.ts:48-50 | after painting, the painted cell reads back as the color and every other cell reads as before |
| `Canvas.WithPixelCommutes` | src/lib/stores/canvas.svelte.ts:49 | writes to two different cells give the same map in either order |
| `Canvas.WithPixelOverwrites` | src/lib/stores/canvas.svelte.ts:49 | a second write to the same cell overwrites the first |
| `Canvas.SnapshotOrEmpty` | src/lib/stores/canvas.svelte.ts:25 | a present snapshot is taken as it is, and an absent one becomes the empty map |
| `Canvas.CanvasStore.constructor` | src/lib/stores/canvas.svelte.ts:6-7 | a fresh store has an empty map and no subscription |
| `Canvas.CanvasStore.Load` | src/lib/stores/canvas.svelte.ts:13-26 | on an error the map is unchanged; otherwise the map is replaced wholesale by the loaded map, or by `{}` when it is absent |
| `Canvas.CanvasStore.SubscribeToUpdates` | src/lib/stores/canvas.svelte.ts:28-46 | subscribes exactly when no subscription is open and is a no-op otherwise |
| `Canvas.CanvasStore.OnPixelsChanged` | src/lib/stores/canvas.svelte.ts:41-43 | the map becomes the snapshot, or `{}` when absent, whatever it held before, so replaying a snapshot is idempotent |
| `Canvas.CanvasStore.AddPixel` | src/lib/stores/canvas.svelte.ts:48-50 | the map becomes `WithPixel` of the old map, with no range check on the coordinates |
| `Canvas.CanvasStore.Destroy` | src/lib/stores/canvas.svelte.ts:52-57 | hands back the open handle, if any, for removal and leaves no subscription, so a second call removes nothing |
| `Canvas.SnapshotDropsLocalWrite` | src/lib/stores/canvas.svelte.ts:41-50 | an off-wall cell is stored, and a snapshot lacking a locally painted cell reverts it to unpainted |
| `Canvas.ResubscribeAfterDestroy` | src/lib/stores/canvas.svelte.ts:28-57 | a second subscribe is ignored, destroy works twice, and a subscribe after destroy opens a new subscription |
| `PixelKeys.Decimal` | src/lib/stores/canvas.svelte.ts:49 | an integer renders as a non-empty, comma-free string that starts with a digit exactly when the integer is non-negative |
| `PixelKeys.NatDigitsRoundTrip` | src/lib/utils/canvas.ts:43 | the value of the decimal digits of `n` is `n` |
| `PixelKeys.NumberOfDecimal` | src/lib/utils/canvas.ts:43 | `Number` applied to the rendering of any integer gives that integer back |
| `PixelKeys.NumberOf` | src/lib/utils/canvas.ts:43 | a blank string converts to 0, and a run of digits converts to its value |
| `PixelKeys.Split` | src/lib/utils/canvas.ts:43 | splitting on commas always yields at least one part; a comma-free string splits into itself alone (`SplitNoComma`), and a comma-free first part is split off at the first comma, before the parts of the rest (`SplitAfterFirst`), which together fix the value of every split |
| `PixelKeys.SplitNoComma` | src/lib/utils/canvas.ts:43 | a comma-free string splits into itself alone |
| `PixelKeys.SplitAfterFirst` | src/lib/utils/canvas.ts:43 | splitting `a,b` with a comma-free `a` yields `a` followed by the parts of `b` |
| `PixelKeys.Key` | src/lib/stores/canvas.svelte.ts:49 | the key splits on commas into exactly two parts, the decimal renderings of `x` and of `y` |
| `PixelKeys.ParseKey` | src/lib/utils/canvas.ts:43 | the parse inverts `addPixel`'s key: the key written for any integer cell `(x, y)` parses back to `(x, y)` (`KeyRoundTrip`), a comma-free key gives a non-numeric `y` (`CommaFreeKeyHasNoY`), and parts after the second are ignored |
| `PixelKeys.KeyRoundTrip` | src/lib/utils/canvas.ts:43 | parsing the key written by `addPixel` for `(x, y)` yields `(x, y)` for every pair of integers |
| `PixelKeys.KeyInjective` | src/lib/stores/canvas.svelte.ts:49 | two cells share a key exactly when they are the same cell |
| `PixelKeys.CommaFreeKeyHasNoY` | src/lib/utils/canvas.ts:43 | a key without a comma parses to no numeric `y` |
| `CanvasUtils.PixelCoordinates` | src/lib/utils/canvas.ts:3-14 | the result is null exactly when a floored coordinate lies outside `[0, CANVAS_SIZE)`, and every cell returned is on the wall |
| `CanvasUtils.NegativeOffsetIsOffCanvas` | src/lib/utils/canvas.ts:8-11 | a pointer left of or above the canvas gives null |
| `CanvasUtils.PixelRectMapsBack` | src/lib/utils/canvas.ts:8-23 | every point of the square drawn for an on-wall cell maps back to that cell |
| `CanvasUtils.PixelCoordinatesInsideRect` | src/lib/utils/canvas.ts:8-13 | a pointer that maps to a cell lies inside that cell's drawn square |
| `CanvasUtils.PixelRectsDisjoint` | src/lib/utils/canvas.ts:23 | a point lies in the square of at most one cell |
| `CanvasUtils.PixelRectWithinCanvas` | src/lib/utils/canvas.ts:39 | the full clear covers the square of every on-wall cell |
| `CanvasUtils.DrawPixel` | src/lib/utils/canvas.ts:16-24 | sets the fill style to the color and fills the `SCALE`-sided square at `(x*SCALE, y*SCALE)` |
| `CanvasUtils.ClearPixel` | src/lib/utils/canvas.ts:26-32 | clears the same square `DrawPixel` fills and leaves the fill style alone |
| `CanvasUtils.DrawForCell` | src/lib/utils/canvas.ts:42-44 | the entry under the key of `(x, y)` is drawn on the square of `(x, y)` in its color |
| `CanvasUtils.RenderCanvas` | src/lib/utils/canvas.ts:34-46 | issues one clear of the whole `CANVAS_SIZE*SCALE` surface (`CanvasRect`), then exactly one fill per map entry, in some order listing every key once, and leaves the fill style at the color of the last entry drawn (unchanged for an empty map) |
| `CanvasUtils.CellIndex` | src/lib/utils/canvas.ts:8-9 | the floored cell index `i` of an offset is the one whose span `[i*SCALE, (i+1)*SCALE)` contains the offset |
| `CanvasUtils.PixelRect` | src/lib/utils/canvas.ts:23 | the square is `SCALE` on each side, has a numeric corner exactly when both coordinates are numbers, and lies inside the whole surface for every on-wall cell |
| `CanvasUtils.DrawFor` | src/lib/utils/canvas.ts:43-44 | the operation for an entry is a fill in that entry's color of a `SCALE`-sided square; `DrawForCell` pins the square for keys `addPixel` writes |

## Left out

- Network I/O (upsert, select, update, channel subscription, channel removal) is not modelled. Responses, payloads and handles are parameters. The ink write after a tick is returned but never sent, and its failure is only logged in the source.
- Local storage and JSON parsing are not modelled. The cached record is an `Option` per field. A corrupt cache, which makes `JSON.parse` throw, is not modelled.
- The UUID generator and the clock are not modelled. The fresh id and `now` are parameters.
- Timers: `setInterval` and the regeneration rate are not modelled. A tick is the method `RegenerationTick`, which requires a running interval. Calling `Initialize` twice leaves two intervals firing in the source; the model keeps one flag.
- The ink subscription opened by `initialize` has no field in the source and none in the model. It stays open after `destroy`, and its deliveries are `OnInkChanged`.
- Svelte `$state` reactivity is left out.
- Concurrency between devices and the order in which the server commits writes are left out. Callbacks are taken to run one at a time, as on one event loop.
- JavaScript numbers: ink, amounts and key coordinates are unbounded integers. Fractional amounts and the 2^53 precision limit are not modelled. Pointer positions are exact reals, with no IEEE rounding.
- `PixelKeys.NumberOf`: evaluates only optionally signed decimal integers after trimming. Fractions, exponents, hex literals and `Infinity` become `NonInt`, though `Number` gives some of them integer values. Trimming covers the common white-space characters, not every Unicode space separator. Integer keys written by `addPixel` are unaffected.
- `Object.entries` visits keys that look like array indices (such as "7") first, in ascending order, then the other keys in insertion order. `CanvasUtils.RenderCanvas` leaves the order open and returns it as a ghost sequence. Keys written by `addPixel` always contain a comma, so only a loaded snapshot could hold index-like keys.
- The drawing context only records its fill style and rectangle operations. Pixels on screen, invalid color strings and the canvas's bounding rectangle are not modelled.
