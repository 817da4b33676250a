# MIDI player event timeline

A Dafny model of the event timeline behind Frescobaldi's base MIDI player
(`frescobaldi_app/midiplayer.py`). It has two parts.

- **Timeline builder** (`events.dfy`, module `MidiEvents`). `make_event_list` merges a song's
  MIDI events, periodic time ticks and beat markers into one list of `(timestamp, Event)`
  pairs sorted by timestamp. An `Event` bundles an optional MIDI payload, a time-tick flag and
  an optional beat marker `(measnum, beat, num, den)`. The model keeps the source's shape:
  three loops fill a timestamp-to-Event map (a defaultdict in the source), then the map is
  listed by ascending key. `Bundles` is the same map as a function of the song. The lemmas
  say what it holds: its key set is the union of the three sources, and `Expected` gives each
  bundle read straight off the song.
- **Timeline cursor** (`player.dfy`, module `MidiPlayer`). The class `Player` holds the
  built timeline, a position, and a ghost log of the hooks it has called (`midi_event`,
  `time_event`, `beat_event`, `finish` and the `stop` that `finish` calls). It supports a
  binary-search seek by time, a linear seek to a measure and beat, and `next_event`, which
  plays one bundle and returns the wait until the next one. `PlayToEnd` calls `next_event`
  until the end, as a concrete player's timer does.
- `scenarios.dfy` (module `MidiScenarios`) works the model through small concrete timelines:
  a merged song, seeks by time, stepping a player to the end, and seeks by measure.

The song is given as plain sequences: `music` of `(timestamp, payload)` with a generic
payload type, `length`, and `beats`. Each beat descriptor `(t, measnum, beat, num, den)` is
split as `(t, BeatMarker(measnum, beat, num, den))`, which is `i[0]` and `i[1:]` in the
source. The `time` argument of `make_event_list` is an integer. A value of 0 stands for both
`None` and 0, since neither makes ticks. A negative value makes an empty `range`, so it
makes no ticks either.

The model follows the code at these points, where it may surprise a reader:

- `set_song` does not reset `_position`. After a shorter song is loaded, the position can
  lie past the new end. So `position <= |events|` is not a class invariant. `Seek`,
  `SeekMeasure` and `NextEvent` establish it or keep it. `SetSong` can break it, and so can
  `SetPosition`, which accepts any natural position; its only callers, `Seek` and
  `SeekMeasure`, pass one within the timeline. Negative positions are not modelled. No
  caller passes one, and Python's `set_position(-1)` would make `next_event` play
  `_events[-1]`.
- A tick falls at the song's length only when the length is a multiple of the interval.
  `range(0, length + 1, time)` stops at the last multiple.
- A negative seek target is searched like any other and is not clamped to 0. On a
  non-empty timeline it lands on position 0, with offset `ts[0] - time`. On an empty
  timeline the source raises IndexError at frescobaldi_app/midiplayer.py:120, and `Seek`
  gives position 0 with offset 0 (see "Findings").
- `handle_event` reads an undefined name `e`. The model dispatches on its `event` argument,
  as the docstrings describe (see "Left out").

The choice for `seek` past the last timestamp: the source raises IndexError there. The
model's `Player.Seek` moves the position to `|events|` (finished) with offset 0. Its
behaviour as written is kept beside it (`SeekAsWritten`, see "Findings").

## Model

| member | source | states |
|---|---|---|
| `MidiEvents.Bundles` | frescobaldi_app/midiplayer.py:244-255 | the defaultdict after its three loops, as a function of the song: music payloads written in order, then tick flags at the multiples of a positive interval up to the length, then beat markers when beats are on; it carries no contract of its own, `BundleKeys`, `BundleAt` and `BundlesNonEmpty` state what it holds |
| `MidiEvents.MakeEventList` | frescobaldi_app/midiplayer.py:234-257 | the timeline is strictly increasing by timestamp, its timestamps are exactly the keys of the filled map, and each entry's bundle is the map's bundle at that timestamp |
| `MidiEvents.AddMidi` | frescobaldi_app/midiplayer.py:246-247 | the music loop leaves the map `WithMidi` describes: each music timestamp's midi set, in order, last write wins |
| `MidiEvents.AddTicks` | frescobaldi_app/midiplayer.py:249-251 | the tick loop over `range(0, length + 1, time)` sets the time flag on exactly the multiples of the interval up to the length (`TickSet`) and changes nothing else |
| `MidiEvents.AddBeats` | frescobaldi_app/midiplayer.py:253-255 | the beat loop sets each beat timestamp's marker to the descriptor's last four fields, in order, last write wins |
| `MidiEvents.Listing` | frescobaldi_app/midiplayer.py:257 | `[(t, d[t]) for t in sorted(d)]` lists every key of the map once, ascending, each with its bundle |
| `MidiEvents.Min` | frescobaldi_app/midiplayer.py:257 | the key `sorted` would put first: a member of the set no greater than any other |
| `MidiEvents.LastAt` | frescobaldi_app/midiplayer.py:246-255 | the index of the last entry at a timestamp, or -1 exactly when there is none; no later entry has that timestamp |
| `MidiEvents.BundleKeys` | frescobaldi_app/midiplayer.py:244-257 | the timeline's timestamp set is the union of the music timestamps, the tick multiples up to the length (when the interval is positive) and the beat timestamps (when beats are on) |
| `MidiEvents.BundleAt` | frescobaldi_app/midiplayer.py:244-257 | the bundle at each timestamp has: the payload of the last music entry there, or none; a time flag exactly when the timestamp is a multiple of the interval no greater than the length; the marker of the last beat descriptor there, only when beats are on |
| `MidiEvents.BundlesNonEmpty` | frescobaldi_app/midiplayer.py:218-221 | every stored bundle has at least one field set, because the defaultdict only creates one when some source writes to it |
| `MidiEvents.TickSetStep` | frescobaldi_app/midiplayer.py:250 | one step of the tick range adds exactly the current multiple to the ticks seen so far |
| `MidiEvents.TickSetEnd` | frescobaldi_app/midiplayer.py:250 | when the range stops, at the first multiple beyond the length, the ticks seen are exactly the multiples up to the length |
| `MidiPlayer.Player.constructor` | frescobaldi_app/midiplayer.py:43-47 | a new player has an empty (sorted) timeline, position 0 and has called no hook |
| `MidiPlayer.Player.SetSong` | frescobaldi_app/midiplayer.py:58-68 | the timeline becomes the built timeline of the song (sorted, the union of its sources), the position is left unchanged, and the total time is the greatest timestamp of the built timeline |
| `MidiPlayer.Player.TotalTime` | frescobaldi_app/midiplayer.py:74-78 | the last timestamp, which on a sorted timeline bounds every timestamp; 0 when empty |
| `MidiPlayer.Player.CurrentTime` | frescobaldi_app/midiplayer.py:80-88 | the timestamp of the bundle before the position, or 0 at position 0; never beyond the total time |
| `MidiPlayer.LowerBound` | frescobaldi_app/midiplayer.py:112-119 | the lower bound of a target: every bundle before it is earlier than the target, and the one at it (if any) is not |
| `MidiPlayer.Bisect` | frescobaldi_app/midiplayer.py:112-119 | the binary search keeps `pos <= end`, terminates and returns the lower bound: all earlier bundles are before the target, all later ones at or after it |
| `MidiPlayer.Player.Seek` | frescobaldi_app/midiplayer.py:107-121 | seek(0) goes to 0 with offset 0 without searching; otherwise the position is the lower bound and the offset is that bundle's timestamp minus the target (0 past the end); the offset is never negative; afterwards the current time is before any positive target |
| `MidiPlayer.SeekAsWritten` | frescobaldi_app/midiplayer.py:107-121 | `seek` as written: (0, 0) for a zero target; it fails (None, the IndexError at line 120) exactly when the target is non-zero and every timestamp is earlier than it; otherwise, by its definition, the lower bound with its timestamp minus the target |
| `MidiPlayer.SeekPastEndRaises` | frescobaldi_app/midiplayer.py:120 | as written, every non-zero target after the last timestamp (for an empty timeline, every non-zero target) reaches `self._events[pos]` with `pos == len` |
| `MidiPlayer.FirstHalt` | frescobaldi_app/midiplayer.py:130-138 | where the measure scan breaks: the first bundle of a later measure, or of the measure at or after the beat; the timeline length when it runs through |
| `MidiPlayer.FindMeasure` | frescobaldi_app/midiplayer.py:129-138 | the scan finds something exactly when a bundle it looks at is in the measure, and then returns the last such bundle |
| `MidiPlayer.Player.SeekMeasure` | frescobaldi_app/midiplayer.py:123-142 | returns true exactly when a scanned bundle is in the measure, and then moves to the last such bundle; returns false and leaves the position unchanged otherwise |
| `MidiPlayer.MissingMeasureNotFound` | frescobaldi_app/midiplayer.py:129-142 | a measure that no beat marker mentions is never found |
| `MidiPlayer.MeasureTargetShape` | frescobaldi_app/midiplayer.py:132-138 | a found bundle is either where the scan broke, at or after the beat, or the last bundle of the measure before the scan broke, before the beat |
| `MidiPlayer.Player.SetPosition` | frescobaldi_app/midiplayer.py:144-154 | the position becomes the given one; the time offset is ignored |
| `MidiPlayer.Dispatch` | frescobaldi_app/midiplayer.py:183-190 | the hooks `handle_event` calls for one bundle: none exactly when the bundle is empty, at most three, the MIDI payload first when there is one and the beat last when there is one; it carries no contract of its own, `DispatchShape` states these properties |
| `MidiPlayer.DispatchShape` | frescobaldi_app/midiplayer.py:183-190 | the hooks for one bundle are empty exactly when the bundle is empty, number at most three, start with the MIDI payload when there is one and end with the beat report when there is one |
| `MidiPlayer.Player.HandleEvent` | frescobaldi_app/midiplayer.py:183-190 | the log grows by the bundle's hooks in the fixed order midi payload, time, beat, each only when present |
| `MidiPlayer.Player.MidiEvent` | frescobaldi_app/midiplayer.py:192-197 | records one `midi_event` call with its payload |
| `MidiPlayer.Player.TimeEvent` | frescobaldi_app/midiplayer.py:199-200 | records one `time_event` call with its time |
| `MidiPlayer.Player.BeatEvent` | frescobaldi_app/midiplayer.py:202-203 | records one `beat_event` call with its four arguments |
| `MidiPlayer.Player.Finish` | frescobaldi_app/midiplayer.py:175-181 | records `finish` and then the `stop` it calls |
| `MidiPlayer.Player.NextEvent` | frescobaldi_app/midiplayer.py:156-173 | at or past the end: returns 0 and changes nothing. Otherwise, keeping the position within the timeline: dispatches the bundle, advances by exactly one, and makes the current time that bundle's time. If a bundle follows, it returns the positive gap to it; after the last bundle it records finish/stop and returns 0 |
| `MidiPlayer.DispatchNeverFinishes` | frescobaldi_app/midiplayer.py:183-190 | handling a bundle never calls `finish` |
| `MidiPlayer.DispatchNonEmpty` | frescobaldi_app/midiplayer.py:183-190 | every non-empty bundle calls at least one hook |
| `MidiPlayer.BuiltTimelineDispatches` | frescobaldi_app/midiplayer.py:183-190 | on any timeline whose timestamps and bundles are those `MakeEventList` guarantees, every bundle calls at least one hook |
| `MidiPlayer.PlaybackFinishesOnce` | frescobaldi_app/midiplayer.py:163-173 | stepping from any position before the end to the end calls `finish` exactly once, followed by `stop`, as the last calls; stepping from the end calls nothing |
| `MidiPlayer.TotalWaitReachesEnd` | frescobaldi_app/midiplayer.py:159-171 | the waits returned while stepping from a position to the end add up to the time from that bundle to the last one |
| `MidiPlayer.PlayToEnd` | frescobaldi_app/midiplayer.py:156-173 | calling `next_event` until the cursor reaches the end leaves it at the end, logs exactly the playback from the starting position (one `finish` when anything was left to play), and returns the sum of the waits, which is the time from the starting bundle to the last one |
| `MidiScenarios.SmallSongTimeline` | frescobaldi_app/midiplayer.py:244-257 | music at 0 and 100 with ticks every 50 up to length 100 and a beat at 0 gives bundles at exactly 0, 50 and 100 with the expected fields |
| `MidiScenarios.TickSeekScenario` | frescobaldi_app/midiplayer.py:107-121 | a player on timestamps 0, 50, 100: `Seek(30)` moves to position 1 and returns 20; `Seek(1000)` moves to position 3 and returns 0, where the source raises |
| `MidiScenarios.TickStepScenario` | frescobaldi_app/midiplayer.py:159-171 | a player on timestamps 0, 50, 100 stepped from position 0: three `NextEvent` calls return 50, 50 and 0, and the hooks called are the three time reports, then finish and stop |
| `MidiScenarios.BeatSeekScenario` | frescobaldi_app/midiplayer.py:123-142 | a player on beats (1,1), (1,2), (2,1): `SeekMeasure(1, 2)` and `SeekMeasure(1, 3)` both find the second bundle; `SeekMeasure(5, 1)` returns false and leaves the position there |

## Left out

- `Player.load` and `midisong.load` (frescobaldi_app/midiplayer.py:49-56) read a MIDI file through a module that is not part of this model. The song is a parameter.
- `Player.song` and the `_song` field (frescobaldi_app/midiplayer.py:70-72) only keep the song object for callers. They are not modelled.
- `start`, `stop` and `is_playing` (frescobaldi_app/midiplayer.py:90-97) are empty hooks for a real-time timer. `stop` appears only as the `Stopped` entry that `finish` records.
- `set_tempo_factor` and `tempo_factor` (frescobaldi_app/midiplayer.py:99-105) store a float that nothing in the core uses.
- `Event.__repr__` (frescobaldi_app/midiplayer.py:223-231) is debug formatting.
- The bodies of `midi_event`, `time_event` and `beat_event` are real MIDI output in concrete players. Here they are only log entries in a ghost field.
- The waiting a subclass may do with the `time_offset` of `set_position`. `Seek` returns the offset, but no time passes in the model.
- MidiPlayer.Player.HandleEvent: the source's `handle_event` reads the undefined name `e`, so every call raises NameError. The model dispatches on its `event` argument.
- MidiPlayer.Player.HandleEvent: Python truthiness is not modelled. A stored payload that is falsy (an empty list, say) would not reach `midi_event` in the source. The model dispatches every stored payload.
- MidiPlayer.Player.CurrentTime: requires `position <= |events|`. The source raises IndexError otherwise, which can only happen after `set_song` loads a shorter song or `set_position` is given a position past the end.
- Default arguments are explicit parameters: `make_event_list(song, time=None, beat=None)` (frescobaldi_app/midiplayer.py:234) is `MakeEventList(song, interval, withBeats)`, with `None` as interval 0 and `beat=None` as `false`; `set_song(time=1000, beat=True)` (frescobaldi_app/midiplayer.py:58) is `SetSong(song, interval, withBeats)`, `seek_measure(beat=1)` (frescobaldi_app/midiplayer.py:123) is `SeekMeasure(measnum, beat)`, and `set_position(time_offset=0)` (frescobaldi_app/midiplayer.py:144) is `SetPosition(pos, timeOffset)`.
- Timestamps and the song length are natural numbers. Non-integer or negative timestamps and a non-integer tick interval are not modelled.
- frescobaldi_app/preferences/helpers.py is a PyQt4 preferences page (widgets, translations, QSettings) and is not part of this model.

## Findings

| source | as written | input that shows it | evidently intended | confidence | as-written member | corrected member |
|---|---|---|---|---|---|---|
| frescobaldi_app/midiplayer.py:120 | after the search, the offset is computed from the entry at the found position even when that position equals the list length, which raises IndexError | a timeline with one bundle at 0 and `seek(10)`; or an empty timeline and `seek(5)` | a target after the last timestamp puts the cursor at the end (finished), with no offset | medium, not executed | `MidiPlayer.SeekPastEndRaises` | `MidiPlayer.Player.Seek` |
