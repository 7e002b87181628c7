# qmk_accessibility_hid, modelled in Dafny

qmk_accessibility_hid has two halves that talk over one 32-byte raw HID report.

- **The keyboard firmware** (`accessibility_events.c`) tells the host when the active layer changes and when caps word turns on or off. It also answers the host's query for the current layer.
- **The host watcher** (`accessibility_watcher.py`) decodes those reports. It tracks the previous and current layer and picks a sound: `layer_up`, `layer_down`, `caps_word_on` or `caps_word_off`. A per-sound enable flag gates each sound.

Every report has the same layout: byte 0 is the tag, byte 1 is the payload, and bytes 2..31 are zero. The tags are:

| tag | meaning | payload |
|---|---|---|
| 1 | layer change | the layer |
| 2 | caps word | 1 for on, 0 for off |
| 99 | query / reply | 0 in the query, the live layer in the reply |

## Files

- `wire.dfy` (module `Wire`): the report layout.
  - `Report` builds a report.
  - `WellFormed` is the shape every firmware report has.
  - `LastPayload` is the payload of the last report with a given tag.
- `firmware.dfy` (module `Firmware`): the firmware notifier.
  - The three statics `previous_layer`, `caps_word_state` and `last_time` form a `State`.
  - Each entry point is a pure step function: `OnReceive`, `OnLayerChange`, `OnCapsWordOn` and `OnCapsWordOff`.
  - The class `EventNotifier` holds the statics as fields. Its methods build each report in a fresh 32-byte array, record it in the ghost log `sent`, and are proved equal to the step functions.
  - The invariant `Consistent` states three facts:
    - every report sent is well formed;
    - `previous_layer` is the last layer reported, or 255 before the first report;
    - `caps_word_state` is true exactly when the last caps-word report said on.
- `firmware_traces.dfy` (module `FirmwareTraces`): `Run` replays a sequence of calls. The lemmas about it cover:
  - the invariant over whole sessions;
  - the debounce behaviour;
  - concrete scenarios of layer and caps-word calls.
- `watcher.dfy` (module `Watcher`): the host side.
  - `Decode` is the length check and tag dispatch.
  - `TrackLayer`, `LayerSound` and `CapsWordSound` choose the sounds.
  - `Audible` is the enable gate of `play_sound`.
  - `QueryCommand` is the query report.
  - The class `AccessibilityWatcher` holds the watcher's layer fields. Its methods follow the Python statement by statement, and a ghost `played` log records each sound that passes the gate.
- `protocol.dfy` (module `Protocol`): round trips between the halves. It also proves that over any session without queries, once the watcher has seen a layer report, its current layer equals the firmware's `previous_layer`; before that the watcher is in its initial state and the firmware still holds 255. Queries are excluded because a reply carries the live layer, and that can differ from `previous_layer`. It differs after a debounced layer-change call, for example: layer 3 is reported at tick 200, layer 5 arrives at tick 250 and is debounced, and a query then returns 5 while `previous_layer` is still 3. `connect_device` sends such a query on every connection (accessibility_watcher.py:199). For sessions with queries, `HostFollowsLastLayerCarried` proves that the watcher ends on the layer of the last layer report or query reply.

Inputs from outside are parameters:
- `timer_read()` is the `now` parameter, a `uint32` tick count. Tick differences wrap modulo 2^32, as `uint32_t` subtraction does.
- `get_highest_layer(layer_state)` is the `liveLayer` parameter.

`raw_hid_send` is an append to the ghost log `sent`.

### Debounce: what the code does

One might expect a call inside the 200-tick debounce window to refresh the timestamp too. The code does not do this: it returns early at accessibility_events.c:44-46, and only a call past the gate sets `last_time` (line 59). The model follows the code.

As a result, the window is measured from the last call that passed the gate. `FirmwareTraces.WindowMeasuredFromLastAcceptedCall` shows this on a concrete trace. Because `last_time` starts at 0, every call before tick 200 is dropped (`FirmwareTraces.EarlyChangeDropped`).

## Model

| member | source | states |
|---|---|---|
| `Wire.Report` | accessibility_events.c:49-51 | a report is 32 bytes: the tag, the payload, then 30 zero bytes |
| `Wire.ReportDeterminedByHeader` | accessibility_events.c:49-51 | a 32-byte buffer whose bytes 2..31 are zero is the report built from its first two bytes |
| `Firmware.Elapsed` | accessibility_events.c:41-44 | the debounce difference is the tick distance modulo 2^32: `last + d ≡ now`, and it is `now - last` when there is no wrap |
| `Firmware.OnReceive` | accessibility_events.c:28-38 | tag 99 yields exactly the reply `[99, live layer, 0×30]`; any other first byte yields nothing; `length` is not an input of the decision |
| `Firmware.OnLayerChange` | accessibility_events.c:40-60 | inside the window: no report and no state change (`last_time` included); past it: `last_time := now` and `previous_layer := layer` in every case, and a report `[1, layer, 0×30]` is sent if and only if `layer != previous_layer` |
| `Firmware.OnCapsWordOn` | accessibility_events.c:63-74 | afterwards the state is on; `[2, 1, 0×30]` is sent if and only if the state was off |
| `Firmware.OnCapsWordOff` | accessibility_events.c:76-87 | afterwards the state is off; `[2, 0, 0×30]` is sent if and only if the state was on |
| `Firmware.ConsistentAppend` | accessibility_events.c:48-53 | sending one well-formed report and updating the statics the way the sender does keeps the invariant |
| `Firmware.LayerChangeKeepsConsistent` | accessibility_events.c:48-59 | after a layer-change call, `previous_layer` is still the last layer reported (255 before any) and every report sent is well formed |
| `Firmware.CapsWordKeepsConsistent` | accessibility_events.c:63-87 | after a caps-word call, `caps_word_state` still mirrors the last caps-word report |
| `Firmware.ReceiveKeepsConsistent` | accessibility_events.c:28-38 | answering a query keeps the invariant (the reply carries tag 99 and moves no static) |
| `Firmware.NewReport` | accessibility_events.c:49-51 | the zero-initialised `data[32]`, with bytes 0 and 1 set, is exactly `Report(tag, payload)` |
| `Firmware.EventNotifier.constructor` | accessibility_events.c:22-25 | the statics start at `previous_layer = 255`, `caps_word_state = false`, `last_time = 0`, with nothing sent |
| `Firmware.EventNotifier.RawHidReceive` | accessibility_events.c:28-38 | no static changes; the reports sent grow by `OnReceive(data, live layer)`, so at most one reply |
| `Firmware.EventNotifier.SendLayerChange` | accessibility_events.c:40-60 | the statics and the reports sent move exactly as `OnLayerChange` says, and the invariant holds |
| `Firmware.EventNotifier.SendCapsWordOn` | accessibility_events.c:63-74 | the statics and the reports sent move exactly as `OnCapsWordOn` says, and the invariant holds |
| `Firmware.EventNotifier.SendCapsWordOff` | accessibility_events.c:76-87 | the statics and the reports sent move exactly as `OnCapsWordOff` says, and the invariant holds |
| `FirmwareTraces.RunKeepsConsistent` | accessibility_events.c:22-87 | any sequence of calls keeps the statics consistent with everything sent |
| `FirmwareTraces.EmittedReportsWellFormed` | accessibility_events.c:28-87 | every report sent after start-up is 32 bytes, with tag 1, 2 or 99 and zero bytes 2..31 |
| `FirmwareTraces.DebouncedCallsAreSilent` | accessibility_events.c:44-46 | layer-change calls all inside the window of `last_time` send nothing and change nothing |
| `FirmwareTraces.BurstEmitsAtMostOnce` | accessibility_events.c:41-59 | calls in tick order inside one 200-tick window send at most one report, however many distinct layers they carry; ticks are `uint32_t` offsets from the window's start, so the window may straddle the counter's wrap-around |
| `FirmwareTraces.ElapsedSplits` | accessibility_events.c:44 | for two ticks in order after a common start, the `uint32_t` difference between them is the difference of their offsets from the start, across the wrap-around too |
| `FirmwareTraces.SpacedCallsReportEachChange` | accessibility_events.c:44-59 | when calls are at least 200 ticks apart, every call passes the gate, and a report goes out exactly when the layer differs from the previous call's layer; for the first call, the comparison is against the `previous_layer` left by earlier calls, or 255 after start-up |
| `FirmwareTraces.FirstAcceptedLayer` | accessibility_events.c:48-53 | since `previous_layer` starts at 255, the first accepted call reports every layer except 255 |
| `FirmwareTraces.LayerScenario` | accessibility_events.c:40-60 | layers 3, 3, 7 at ticks 200, 400, 600 after start-up report 3 and 7 only |
| `FirmwareTraces.EarlyChangeDropped` | accessibility_events.c:41-46 | after start-up, a call before tick 200 sends nothing and changes nothing |
| `FirmwareTraces.WindowMeasuredFromLastAcceptedCall` | accessibility_events.c:44-59 | a suppressed call does not move `last_time`: calls at ticks 300, 450 and 550 report the first and the third |
| `FirmwareTraces.CapsWordScenario` | accessibility_events.c:63-87 | caps word on, on, off, on after start-up reports on, off, on |
| `FirmwareTraces.CapsWordEdgesCounted` | accessibility_events.c:63-87 | from off, `on, off, off` sends exactly two reports and `on, on` exactly one |
| `FirmwareTraces.CapsWordIdempotent` | accessibility_events.c:64-77 | repeating on (or off) changes and sends nothing |
| `FirmwareTraces.QueryIgnoresDebounce` | accessibility_events.c:28-46 | a query right after a debounced layer call is still answered with the live layer, and the statics stay as they were |
| `Watcher.EnabledWithFallback` | accessibility_watcher.py:86-96 | the enable map has exactly the nine sound names; a configured flag is used as given, and a missing one is true |
| `Watcher.Audible` | accessibility_watcher.py:115-118 | a chosen sound is played if and only if its flag is enabled; with no sound chosen nothing is played |
| `Watcher.Decode` | accessibility_watcher.py:170-186 | a report is rejected if and only if its length is not 32 or its first byte is not 1, 2 or 99; an accepted report keeps its tag and payload |
| `Watcher.DecodeEncode` | accessibility_watcher.py:173-181 | every event's report decodes back to that event |
| `Watcher.EncodeDecode` | accessibility_watcher.py:173-181 | every accepted report with zero padding is the encoding of what it decodes to |
| `Watcher.LayerSound` | accessibility_watcher.py:149-153 | "layer_up" if and only if the new layer is higher, "layer_down" if and only if it is lower, and none if and only if the layers are equal |
| `Watcher.TrackLayer` | accessibility_watcher.py:143-155 | the new tracker has `previous_layer` = the old `current_layer`, `current_layer` = the new layer, and `initial_layer_retrieved` set; before the first layer no sound is chosen; afterwards the sound is the up/down/none choice between the old and new layer, and a sound is only ever chosen between two different real layers (0..255) |
| `Watcher.TrackLayerKeepsValid` | accessibility_watcher.py:143-155 | every layer change keeps the tracker invariant: both layers in -1..255, and `initial_layer_retrieved` set exactly when the current layer is not -1 |
| `Watcher.CapsWordSound` | accessibility_watcher.py:157-164 | "caps_word_on" if and only if the state is 1, "caps_word_off" if and only if it is 0, and nothing for any other value |
| `Watcher.Handle` | accessibility_watcher.py:168-186 | returns True if and only if the length is 32 and the tag is 99; a bad length or tag changes nothing; tag 99 updates the layer exactly as tag 1 does; tag 2 leaves the layers alone |
| `Watcher.PadTo` | accessibility_watcher.py:224-225 | a shorter list is zero-extended to `n` bytes, and a list of `n` or more bytes is returned unchanged |
| `Watcher.QueryCommand` | accessibility_watcher.py:223-226 | the query is exactly `[99, 0×31]`, 32 bytes, so the padding branch adds nothing |
| `Watcher.AccessibilityWatcher.constructor` | accessibility_watcher.py:86-113 | the layers start at -1 and -1, the flag starts false, nothing has been played, and the enable map is `EnabledWithFallback(config)` |
| `Watcher.AccessibilityWatcher.PlaySound` | accessibility_watcher.py:115-118 | with `enable` false nothing happens; otherwise the sound is played |
| `Watcher.AccessibilityWatcher.HandleLayerChange` | accessibility_watcher.py:143-155 | the layer fields become `TrackLayer(old, layer)`, and the sound it chooses is played if enabled |
| `Watcher.AccessibilityWatcher.HandleCapsWord` | accessibility_watcher.py:157-166 | only the played log changes, by `CapsWordSound(state)` passed through the enable gate |
| `Watcher.AccessibilityWatcher.HandleHidEvent` | accessibility_watcher.py:168-186 | the return value, the new layer fields and the sounds played are those of `Handle`; the inner `else` branch is proved unreachable |
| `Protocol.LayerReportRoundTrip` | accessibility_watcher.py:174-175 | a layer report from the firmware decodes to that layer and sets the watcher's `current_layer` to it |
| `Protocol.CapsWordRoundTrip` | accessibility_watcher.py:176-177 | a caps-word report from the firmware selects the matching sound and leaves the watcher's layers alone |
| `Protocol.QueryRoundTrip` | accessibility_events.c:28-33 | the firmware answers the watcher's query with `[99, live layer, 0×30]`, and the watcher handles that reply (returns True) and moves to the live layer |
| `Protocol.OnlyQueryIsAnswered` | accessibility_events.c:29 | the firmware answers a report if and only if its first byte is the query command's tag |
| `Protocol.NoQueriesNoReplies` | accessibility_events.c:28-33 | a session with no incoming query sends no tag-99 reply |
| `Protocol.HostTracksLastLayerReport` | accessibility_watcher.py:143-186 | after a run of layer and caps-word reports, the watcher's current layer is the last layer reported; with no layer report the watcher does not move |
| `Protocol.HostFollowsLastLayerCarried` | accessibility_watcher.py:143-186 | after any sequence of reports, including query replies and malformed data, the watcher's current layer is the payload of the last 32-byte report tagged 1 or 99; with none the watcher does not move |
| `Protocol.HostMirrorsFirmware` | accessibility_events.c:48-53 | in any session without queries, once the watcher has seen a layer, its `current_layer` equals the firmware's `previous_layer`; before that, the watcher is in its initial state and the firmware still holds 255 |

## Left out

- Transport: `raw_hid_send` is an append to a ghost log, and `raw_hid_receive` is called directly. USB, `hid.enumerate`, `device.read`/`device.write`, `connect_device`, `disconnect_device` and `process_hid_events` are not modelled.
- `timer_read()` and `get_highest_layer(layer_state)` are inputs. Their definitions are not part of this model, including the timer's real width; ticks are taken as `uint32_t` to match `last_time`.
- The `CAPS_WORD_ENABLE` conditional: the caps-word operations are always present. `CONSOLE_ENABLE`/`uprintf` output and all Python logging are not modelled, because they never affect control flow.
- `accessibility_events.h` holds prototypes only.
- `Watcher.AccessibilityWatcher.PlaySound`: the model records the sound's name rather than its file path. It does not model the file-existence check (an I/O result), wave/pyaudio playback, the playback thread or `terminate_event`.
- `Protocol.HostMirrorsFirmware`: holds only for sessions without queries, while `connect_device` sends a query on every connection. A query reply carries the live layer, which can differ from `previous_layer` after a debounced call. Sessions with queries are covered by `Protocol.HostFollowsLastLayerCarried` instead.
- `request_current_layer`: only the report it writes is modelled. The device write, the five retries and the sleeps are I/O.
- Concurrency is not modelled: `layer_lock`, the threads and the signal handlers. The modelled handlers run sequentially, as they do once the lock is held.
- Configuration: the model takes the `[EnabledSounds]` flags as a map. Parsing with configparser, the `[Device]` ids, the float `VOLUME`, the sound file paths, argparse and `create_default_config` are not modelled.
- `Watcher.AccessibilityWatcher.HandleCapsWord`: the `try`/`except` is not modelled, because with all nine keys present in both sound maps nothing in the body can raise.
