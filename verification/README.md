# Art-Net controller: collection, send planner and preset list logic

This project models the logic core of a small Art-Net/DMX lighting controller. It has a
Python backend that stores nodes, fixtures and presets and sends channel values to
Art-Net nodes, and a React front end that lists presets. It covers three pieces:

- **The id-keyed collection** (`CustomRootModel`, module `Collection`). This is a list of
  records with an `id`. It supports integer and string subscripts for get, set and
  delete, plus `append`, `get` and `keys`. The model keeps the source's quirk that a
  string subscript whose first match sits at position 0 raises `KeyError`, because the
  code tests `if not index:`. The pydantic field constraints on the records are in
  module `Models`: port, fps and refresh interval positive; channel bounds in
  `[0, 256)`; fades non-negative.
- **The Art-Net send planner** (`send_message` and `_send_artnet_message`, module
  `Controller`), with the network and `asyncio` removed. It covers:
  - fixture lookup through `get`;
  - the fixture's universe set;
  - node selection, where `any(...)` over the shared universes makes a shared
    universe 0 not count;
  - fitting the value list to the fixture's channel count;
  - the choice between the immediate and the fade path.

  As written, `_send_artnet_message` rebinds its `nodes` parameter to an empty list on
  its first line, so it never builds a channel. On the fade path, `await channels[-1]`
  then raises an `IndexError`. The outer `except` catches it, but its handler calls
  `logger.error(message=..., level=...)` without the positional message that
  `Logger.error` requires. So the handler raises `TypeError`, which leaves
  `send_message`. Also, `send_message` calls `asyncio.run`, which raises `RuntimeError`
  when an event loop is already running. That is the case for the `async def` route
  handlers, so a send through the HTTP API never starts the coroutine. The model keeps
  all of these behaviours.
- **The preset list page** (module `PresetsPage`). It covers:
  - the tile text colour, from a rounded weighted brightness compared with 125;
  - what a tile click starts: navigation in edit mode, a send otherwise;
  - the message a settled send leaves;
  - the error alert, as a small state machine. Time is explicit, and the page holds a
    map of live intervals.

  The alert follows React's rules. A `setErrorMessage` with the value already held
  does not re-render, so it does not restart the 5000 ms countdown. A new value runs
  the previous effect's cleanup and then arms a new interval.

Value padding extends the caller's list in place, while truncation works on a copy.
`Controller.Normalised.callerList` records the caller's list after the call. The padding
happens before the fade path raises, so it survives the exception. A caller inside an
event loop never reaches it.

## Model

| member | source | states |
|---|---|---|
| Collection.FirstIndex | api/models.py:40 | the generator's first position whose element has the id, or none exactly when no element has it |
| Collection.Locate | api/models.py:35-42 | a subscript resolves exactly when it is an integer in `[0, len)` or an id whose first match is not at position 0; it resolves to that position; otherwise it raises IndexError or KeyError for the key |
| Collection.GetItem | api/models.py:34-43 | `c[key]` returns the element at the index or at the id's first match; it raises IndexError outside `[0, len)` (negative indices included) and KeyError for a missing id or a first match at position 0 |
| Collection.SetItem | api/models.py:45-54 | `c[key] = item` replaces exactly the addressed position; the length and every other position are unchanged; the errors are the same as for get |
| Collection.DelItem | api/models.py:56-65 | `del c[key]` removes exactly the addressed position; the length drops by one and the rest keep their order; the errors are the same as for get |
| Collection.Append | api/models.py:67-68 | append puts the item at the end, keeps every earlier element, and the length grows by one |
| Collection.Find | api/models.py:70-71 | `get(key, None)` returns the first element with the id, position 0 included, and nothing exactly when no element has it |
| Collection.Get | api/models.py:70-71 | `get(key, default)` returns the first element with the id, or the default when no element has it |
| Collection.Keys | api/models.py:73-74 | `keys()` has one id per element, in collection order |
| Collection.KeysMatchFind | api/models.py:70-74 | an id is among `keys()` exactly when `get` finds an element for it |
| Collection.GetItemVersusGet | api/models.py:39-43 | a succeeding `c[id]` returns what `get(id)` returns; `c[id]` raises while `get` finds exactly when the first match is at position 0 |
| Collection.AppendThenFind | api/models.py:67-71 | after append, `get` still returns the old element for ids already present, and returns the new item for a new id |
| Collection.SetThenGet | api/models.py:45-54 | replacing by id with an item of the same id, then subscripting that id, returns the item |
| Collection.DelThenFind | api/models.py:61-65 | deleting by id removes one element; every element that disappears carries that id; `get` then finds the next element with that id |
| Collection.HeadLookupRaises | api/models.py:41 | for a one-element collection, subscripting its own id raises KeyError while `get` returns the element |
| Collection.LocateIntended | api/models.py:39-43 | the corrected lookup (`index is None`) succeeds exactly when the id is present, at its first match |
| Collection.LocateIntendedAgreesWithFind | api/models.py:39-43 | the corrected lookup agrees with `get` for every id |
| Models.ValidateNode | api/models.py:86-94 | a node is accepted exactly when port, max_fps and refresh_every are all positive; each violated field is reported |
| Models.ChannelErrors | api/models.py:104-109 | a channel is accepted exactly when min_value and max_value both lie in `[0, 256)`; each violated bound is reported |
| Models.ChannelListErrors | api/models.py:116 | a channel list has no errors exactly when every channel is valid; each out-of-range bound is reported with that channel's position |
| Models.ValidateFixture | api/models.py:112-116 | a fixture is accepted exactly when every nested channel is valid; every invalid bound is reported |
| Models.ValidatePreset | api/models.py:119-126 | a preset is accepted exactly when fade >= 0 |
| Models.ValidateTransient | api/models.py:129-132 | a transient message is accepted exactly when fade >= 0 |
| Models.NewNode | api/models.py:86-94 | a node built with the defaults (port 6454, 50 fps, refresh 1) passes validation |
| Models.NewChannel | api/models.py:104-109 | a channel built with the defaults covers the full byte range 0..255 and is valid |
| Models.ValidFixtureChannels | api/models.py:107-108 | every channel of an accepted fixture has both bounds within 0..255 |
| Controller.NormaliseValues | api/controller.py:67-72 | the sent values have exactly the fixture's channel count; the original prefix is kept and the rest are zeros; when padding, the caller's list becomes the padded list; otherwise the caller's list is unchanged |
| Controller.NormaliseIdempotent | api/controller.py:67-72 | values pass through unchanged exactly when they already have the right length, and fitting twice equals fitting once |
| Controller.ChoosePath | api/controller.py:82-95 | fade <= 0 selects immediate set-values, fade > 0 selects the fade path with that duration; the two exclude each other |
| Controller.SendArtnet | api/controller.py:63-97 | no channel is ever built; the fitted values have the channel count and the caller's list is padded in place; the immediate path completes; the fade path always raises TypeError, because the handler's logging call fails |
| Controller.SendArtnetIntended | api/controller.py:96-97 | with a working handler, the send never raises; the fade path ends with the IndexError logged; values, caller's list, path and channels are as written |
| Controller.FadeSendRaises | api/controller.py:95-97 | a fade send with too few values pads the caller's list to the channel count and raises TypeError, where the intended handler logs the IndexError |
| Controller.SendArtnetIgnoresNodes | api/controller.py:65 | the send's outcome does not depend on the nodes passed in |
| Controller.Universes | api/controller.py:104 | the fixture's universe set is exactly the set of first components of its addresses |
| Controller.SelectNodes | api/controller.py:105 | a node is kept exactly when it shares a non-zero universe with the fixture; never more nodes than given |
| Controller.SelectNodesConcat | api/controller.py:105 | selection distributes over concatenation, so the kept nodes stay in their original order |
| Controller.UniverseZeroIgnored | api/controller.py:105 | a node whose only shared universe is 0 is not selected |
| Controller.SendMessage | api/controller.py:99-109 | an unknown fixture id returns early; otherwise the first fixture with that id is used with its universe set; no matching node means an early return; past both returns, the selection is exactly the matching nodes and is non-empty; inside an event loop `asyncio.run` refuses to start; otherwise a fade > 0 raises TypeError after padding, and fade <= 0 completes with the fitted values and no channels |
| Controller.DispatchIff | api/controller.py:99-109 | for a known fixture and no running event loop, the send coroutine runs exactly when some node shares a non-zero universe; it then raises exactly when fade > 0, and its report equals a send with no nodes at all |
| Controller.RunningLoopNeverSends | api/controller.py:109 | called from inside an event loop, `send_message` never runs the send coroutine |
| PresetsPage.Brightness | ui/src/pages/Presets.jsx:50 | the brightness is within half a unit of the weighted sum over 1000, with halves rounded up, as `Math.round` does |
| PresetsPage.TextColorFor | ui/src/pages/Presets.jsx:48-52 | text is black exactly when the brightness exceeds 125, that is, when the weighted sum is at least 125500; otherwise white |
| PresetsPage.ByteBrightnessInRange | ui/src/pages/Presets.jsx:50 | byte channels give a brightness within 0..255 |
| PresetsPage.ExtremeColors | ui/src/pages/Presets.jsx:50-51 | white tiles get black text and black tiles get white text |
| PresetsPage.BrightnessMonotonic | ui/src/pages/Presets.jsx:50 | raising any channel never lowers the brightness |
| PresetsPage.TextColorMonotonic | ui/src/pages/Presets.jsx:50-51 | raising channels never turns black text into white |
| PresetsPage.HandlePresetClick | ui/src/pages/Presets.jsx:54-79 | in edit mode a click navigates to the editor with the preset's id and sends nothing; otherwise it sends that id and does not navigate |
| PresetsPage.MessageAfterSend | ui/src/pages/Presets.jsx:68-76 | a reply with falsy success sets the send-failed message; a rejection sets "Unknown Error: " followed by the error text; a successful reply keeps the message |
| PresetsPage.Cleanup | ui/src/pages/Presets.jsx:43-45 | the cleanup clears exactly the interval its effect run armed |
| PresetsPage.RunEffect | ui/src/pages/Presets.jsx:36-41 | an empty message arms nothing; a non-empty one arms one new interval due 5000 ms from now |
| PresetsPage.Mount | ui/src/pages/Presets.jsx:18-46 | the page starts with an empty message and no live interval |
| PresetsPage.SetErrorMessage | ui/src/pages/Presets.jsx:34-46 | the same value changes nothing; a new value cancels the previous interval and re-arms one due 5000 ms from now when non-empty, and none when empty; the invariant is kept |
| PresetsPage.Elapse | ui/src/pages/Presets.jsx:38-40 | when its interval is due, a shown message is cleared; before that, nothing changes but the clock; the invariant is kept |
| PresetsPage.Unmount | ui/src/pages/Presets.jsx:43-45 | leaving the page leaves no live interval |
| PresetsPage.OnSendSettled | ui/src/pages/Presets.jsx:68-76 | a settled send shows the failure or unknown-error message, and a successful one changes nothing, including the timer |
| PresetsPage.AtMostOneTimer | ui/src/pages/Presets.jsx:34-46 | at most one interval is live, and one is live exactly when a message shows |
| PresetsPage.ClearsAfterTimeout | ui/src/pages/Presets.jsx:37-41 | a new non-empty message shows for exactly 5000 ms when nothing else happens |
| PresetsPage.NewMessageRestartsTimer | ui/src/pages/Presets.jsx:34-46 | a different message shown before the first expires gets its own full 5000 ms; the first interval no longer clears it |
| PresetsPage.RepeatedFailureKeepsDeadline | ui/src/pages/Presets.jsx:71 | a second identical failure while its message still shows changes nothing, so the countdown is not restarted |
| PresetsPage.ElapseAdditive | ui/src/pages/Presets.jsx:38-40 | letting time pass in two steps equals one step of the total |

## Left out

- Keys that are neither `int` nor `str`: the subscripts then fall through, so get returns `None` and set and delete do nothing. Every caller passes a string id, so `Collection.Key` has only the two cases. Python's `bool` is an `int` subclass, and that case is not modelled either.
- `__iter__`, `__len__` and `values()` only expose the underlying list, which the model uses directly.
- The `uuid4` id defaults are random, so ids are parameters. Pydantic type coercion and JSON parsing and serialisation are foreign library behaviour.
- `min_value <= max_value` is not checked by the source, so it is not part of `Models.ValidChannel`.
- File persistence, the singleton constructor and the `persist_*` methods of the controller are file I/O.
- The HTTP route handlers only call the collection operations modelled here.
- `ArtNetNode`, `add_universe`, `add_channel`, `set_values`, `add_fade`, `asyncio.run`/`sleep` and logging are foreign networking, async and logging code. Because of the rebinding of `nodes`, none of the channel calls is reached. `Controller.ChannelHandle` only names what a channel would have been.
- The message text of each exception, and the logging itself, are not modelled; only which exception ends the call.
- Controller.SendArtnet: it does not model what the per-node loop would do if it ran. As written it iterates over the empty local list, and a non-empty list would also grow while being iterated.
- PresetsPage.Brightness: computes with exact integers, where the page uses binary floating point. The two agree for weighted sums below 2^53 in magnitude, which covers every byte colour.
- PresetsPage.HandlePresetClick: the `fetch` call, JSON body and headers are left out; the click yields the action it starts. Response handling is in `MessageAfterSend`.
- The initial preset list fetch, the edit-mode toggle buttons and all rendering are presentation only.
- `setInterval` fires repeatedly, but its first firing empties the message, and the effect's cleanup then clears it. So the model fires it at most once. A `setErrorMessage` arriving from an unmounted page is not modelled.
- The preset editor page only holds colour-picker state and calls a colour library. Navigation, theming, the app bar, settings and the API base URL are configuration and presentation.

## Findings

| source | as written | input that shows it | evidently intended | confidence | as-written member | corrected member |
|---|---|---|---|---|---|---|
| api/controller.py:97 | the `except` handler calls `logger.error(message=..., level="error")`, which lacks the positional message, so it raises TypeError instead of logging | `send_message` with fade 1 for a fixture whose universe a node shares, outside an event loop | `logger.error(f"...")`: the IndexError is logged and the call returns | high, not executed | Controller.FadeSendRaises | Controller.SendArtnetIntended |
| api/models.py:41 | `if not index:` also rejects a match found at position 0, so `c[id]`, `c[id] = x` and `del c[id]` raise KeyError for the first element | a collection `[p]` subscripted with `p.id` | `if index is None:`, so that every present id is addressable | high, not executed | Collection.HeadLookupRaises | Collection.LocateIntended |

The subscript operations `GetItem`, `SetItem` and `DelItem` keep the written behaviour. The update and delete route handlers then catch the `KeyError` for the first stored record. They return an `HTTPException` object rather than raising it, so the reply is that error object, not a 403 status and not a `success` reply. `LocateIntended` states what the lookup evidently means to do, and `LocateIntendedAgreesWithFind` proves that it then agrees with `get`. Likewise, `SendMessage` keeps the raising handler as written; `SendArtnetIntended` states the send with a working handler.
