/**
 The timeline builder of the MIDI player: the `Event` bundle and the merge of a song's
 music, periodic time ticks and beat markers into one list of (timestamp, Event) pairs
 sorted by timestamp (`make_event_list` in midiplayer.py).
 */
module MidiEvents {

  datatype Option<T> = None | Some(value: T)

  /** The `(measnum, beat, num, den)` part of a beat descriptor. */
  datatype BeatMarker = BeatMarker(measure: int, beat: int, num: int, den: int)

  /** Everything that happens at one timestamp: an optional MIDI payload, a time-tick flag
      and an optional beat marker. A fresh bundle has none of them. */
  datatype Event<P> = Event(midi: Option<P>, time: bool, beat: Option<BeatMarker>)

  function NoEvent<P>(): Event<P> { Event(None, false, None) }

  predicate IsEmpty<P>(e: Event<P>) { e.midi.None? && !e.time && e.beat.None? }

  /** A loaded song: its music as (timestamp, payload) pairs, its length, and its beat
      descriptors, each split as (timestamp, marker). */
  datatype Song<P> = Song(music: seq<(nat, P)>, length: nat, beats: seq<(nat, BeatMarker)>)

  type Timeline<P> = seq<(nat, Event<P>)>

  /** The timestamps occurring in a sequence of timestamped entries. */
  ghost function Times<V>(s: seq<(nat, V)>): set<nat>
  {
    set j | 0 <= j < |s| :: s[j].0
  }

  ghost predicate StrictlyIncreasing<P>(tl: Timeline<P>)
  {
    forall i, j :: 0 <= i < j < |tl| ==> tl[i].0 < tl[j].0
  }

  /** The index of the last entry of `s` at timestamp `t`, or -1 when there is none. */
  function LastAt<V>(s: seq<(nat, V)>, t: nat): (r: int)
    ensures -1 <= r < |s|
    ensures r >= 0 ==> s[r].0 == t
    ensures forall k :: r < k < |s| ==> s[k].0 != t
    decreases |s|
  {
    if |s| == 0 then -1
    else if s[|s| - 1].0 == t then |s| - 1
    else LastAt(s[..|s| - 1], t)
  }

  /** The bundle a defaultdict of Events yields at `t`: the stored one, or a fresh one. */
  function Get<P>(d: map<nat, Event<P>>, t: nat): Event<P>
  {
    if t in d then d[t] else NoEvent()
  }

  /** The map `d` after the music slot of the bundle at each timestamp of `music` is set to that entry's message, the entries taken in order. */
  ghost function WithMidi<P>(d: map<nat, Event<P>>, music: seq<(nat, P)>): map<nat, Event<P>>
    decreases |music|
  {
    if |music| == 0 then d
    else
      var d' := WithMidi(d, music[..|music| - 1]);
      var t := music[|music| - 1].0;
      d'[t := Get(d', t).(midi := Some(music[|music| - 1].1))]
  }

  /** The map `d` after the beat slot of the bundle at each timestamp of `beats` is set to that entry's marker, the entries taken in order. */
  ghost function WithBeats<P>(d: map<nat, Event<P>>, beats: seq<(nat, BeatMarker)>): map<nat, Event<P>>
    decreases |beats|
  {
    if |beats| == 0 then d
    else
      var d' := WithBeats(d, beats[..|beats| - 1]);
      var t := beats[|beats| - 1].0;
      d'[t := Get(d', t).(beat := Some(beats[|beats| - 1].1))]
  }

  /** The multiples of `interval` below `upto`. */
  ghost function TickSet(interval: nat, upto: nat): set<nat>
    requires interval > 0
  {
    set t: nat | t < upto && t % interval == 0
  }

  /** The map `d` with the tick flag raised in the bundle at every timestamp of `TickSet(interval, upto)`. */
  ghost function WithTicks<P>(d: map<nat, Event<P>>, interval: nat, upto: nat): map<nat, Event<P>>
    requires interval > 0
  {
    map t | t in d.Keys + TickSet(interval, upto) ::
      if t in TickSet(interval, upto) then Get(d, t).(time := true) else d[t]
  }

  /** Raising tick flags adds exactly the tick instants to the keys. */
  lemma WithTicksKeys<P>(d: map<nat, Event<P>>, interval: nat, upto: nat)
    requires interval > 0
    ensures WithTicks(d, interval, upto).Keys == d.Keys + TickSet(interval, upto)
  {
  }

  /** The defaultdict `make_event_list` has filled once its three loops are done. A
      non-positive interval stands for `time` being None or 0 (no ticks) or negative
      (an empty range). */
  ghost function Bundles<P>(song: Song<P>, interval: int, withBeats: bool): map<nat, Event<P>>
  {
    var d1 := WithMidi(map[], song.music);
    var d2 := if interval > 0 then WithTicks(d1, interval, song.length + 1) else d1;
    if withBeats then WithBeats(d2, song.beats) else d2
  }

  /** Whether `t` is one of the periodic time-report instants `range(0, length + 1, interval)`. */
  predicate IsTick(interval: int, length: nat, t: nat)
  {
    interval > 0 && t <= length && t % interval == 0
  }

  /** The bundle at `t`, read straight off the song: the payload of the last music entry
      at t, the tick flag, and the marker of the last beat descriptor at t when beats are on. */
  function Expected<P>(song: Song<P>, interval: int, withBeats: bool, t: nat): Event<P>
  {
    var m := LastAt(song.music, t);
    var b := LastAt(song.beats, t);
    Event(if m < 0 then None else Some(song.music[m].1),
          IsTick(interval, song.length, t),
          if withBeats && b >= 0 then Some(song.beats[b].1) else None)
  }

  lemma {:induction false} TimesSnoc<V>(s: seq<(nat, V)>)
    requires |s| > 0
    ensures Times(s) == Times(s[..|s| - 1]) + {s[|s| - 1].0}
  {
    var s' := s[..|s| - 1];
    forall t | t in Times(s) ensures t in Times(s') + {s[|s| - 1].0} {
      var j :| 0 <= j < |s| && s[j].0 == t;
      if j < |s| - 1 { assert s'[j].0 == t; }
    }
    forall t | t in Times(s') ensures t in Times(s) {
      var j :| 0 <= j < |s'| && s'[j].0 == t;
      assert s[j].0 == t;
    }
  }

  lemma {:induction false} WithMidiAt<P>(d: map<nat, Event<P>>, music: seq<(nat, P)>, t: nat)
    ensures WithMidi(d, music).Keys == d.Keys + Times(music)
    ensures Get(WithMidi(d, music), t) ==
      (var r := LastAt(music, t); if r < 0 then Get(d, t) else Get(d, t).(midi := Some(music[r].1)))
    decreases |music|
  {
    if |music| > 0 {
      WithMidiAt(d, music[..|music| - 1], t);
      TimesSnoc(music);
    } else {
      assert Times(music) == {};
    }
  }

  lemma {:induction false} WithBeatsAt<P>(d: map<nat, Event<P>>, beats: seq<(nat, BeatMarker)>, t: nat)
    ensures WithBeats(d, beats).Keys == d.Keys + Times(beats)
    ensures Get(WithBeats(d, beats), t) ==
      (var r := LastAt(beats, t); if r < 0 then Get(d, t) else Get(d, t).(beat := Some(beats[r].1)))
    decreases |beats|
  {
    if |beats| > 0 {
      WithBeatsAt(d, beats[..|beats| - 1], t);
      TimesSnoc(beats);
    } else {
      assert Times(beats) == {};
    }
  }

  /** Every timestamp of the built timeline comes from one of the three sources: the music,
      the tick multiples up to the song's length, and (when enabled) the beats. */
  lemma BundleKeys<P>(song: Song<P>, interval: int, withBeats: bool)
    ensures Bundles(song, interval, withBeats).Keys ==
      Times(song.music)
      + (if interval > 0 then TickSet(interval, song.length + 1) else {})
      + (if withBeats then Times(song.beats) else {})
  {
    WithMidiAt(map[], song.music, 0);
    var d1 := WithMidi(map[], song.music);
    var ticks: set<nat> := if interval > 0 then TickSet(interval, song.length + 1) else {};
    var d2 := if interval > 0 then WithTicks(d1, interval, song.length + 1) else d1;
    if interval > 0 { WithTicksKeys(d1, interval, song.length + 1); }
    assert d2.Keys == Times(song.music) + ticks;
    if withBeats {
      WithBeatsAt(d2, song.beats, 0);
      assert Bundles(song, interval, withBeats) == WithBeats(d2, song.beats);
    } else {
      assert Bundles(song, interval, withBeats) == d2;
    }
  }

  /** What the built timeline holds at each timestamp: the last music payload there, a tick
      exactly at the multiples of the interval up to the length, the last beat marker there. */
  lemma BundleAt<P>(song: Song<P>, interval: int, withBeats: bool, t: nat)
    ensures Get(Bundles(song, interval, withBeats), t) == Expected(song, interval, withBeats, t)
  {
    WithMidiAt(map[], song.music, t);
    var d1 := WithMidi(map[], song.music);
    var d2 := if interval > 0 then WithTicks(d1, interval, song.length + 1) else d1;
    if withBeats { WithBeatsAt(d2, song.beats, t); }
  }

  lemma {:induction false} LastAtPresent<V>(s: seq<(nat, V)>, t: nat)
    requires t in Times(s)
    ensures LastAt(s, t) >= 0
  {
    var j :| 0 <= j < |s| && s[j].0 == t;
  }

  /** A bundle is only ever created because some source contributes to it. */
  lemma BundlesNonEmpty<P>(song: Song<P>, interval: int, withBeats: bool, t: nat)
    requires t in Bundles(song, interval, withBeats)
    ensures !IsEmpty(Bundles(song, interval, withBeats)[t])
  {
    BundleKeys(song, interval, withBeats);
    BundleAt(song, interval, withBeats, t);
    if t in Times(song.music) {
      LastAtPresent(song.music, t);
    } else if withBeats && t in Times(song.beats) {
      LastAtPresent(song.beats, t);
    }
  }

  lemma MulAtLeast(i: nat, c: int)
    requires c >= 1
    ensures i * c >= i
  {
    assert i * c - i == i * (c - 1);
  }

  /** Two multiples of `interval` lie at least `interval` apart. */
  lemma MultiplesGap(interval: nat, t: nat, x: nat)
    requires interval > 0 && t % interval == 0 && x % interval == 0 && t < x
    ensures t + interval <= x
  {
    var c := x / interval - t / interval;
    assert x - t == interval * c;
    assert c >= 1;
    MulAtLeast(interval, c);
  }

  /** The step of `range(0, length + 1, interval)` stays on the multiples. */
  lemma ModStep(interval: nat, t: nat)
    requires interval > 0 && t % interval == 0
    ensures (t + interval) % interval == 0
  {
    var q := (t + interval) / interval;
    var r := (t + interval) % interval;
    var c := t / interval + 1 - q;
    assert t == interval * (t / interval);
    assert t + interval == interval * q + r;
    assert interval * c == r;
    if c >= 1 {
      MulAtLeast(interval, c);
    } else if c <= -1 {
      MulAtLeast(interval, -c);
    }
  }

  lemma TickSetStep(interval: nat, t: nat)
    requires interval > 0 && t % interval == 0
    ensures TickSet(interval, t + interval) == TickSet(interval, t) + {t}
  {
    forall x | x in TickSet(interval, t + interval) ensures x in TickSet(interval, t) + {t} {
      if t < x { MultiplesGap(interval, t, x); }
    }
  }

  /** One iteration of the tick loop marks the next multiple. */
  lemma WithTicksStep<P>(d: map<nat, Event<P>>, interval: nat, t: nat)
    requires interval > 0 && t % interval == 0
    ensures WithTicks(d, interval, t)[t := Get(WithTicks(d, interval, t), t).(time := true)]
            == WithTicks(d, interval, t + interval)
  {
    TickSetStep(interval, t);
    assert t !in TickSet(interval, t);
  }

  lemma TickSetEnd(interval: nat, t: nat, length: nat)
    requires interval > 0 && t % interval == 0 && length < t <= length + interval
    ensures TickSet(interval, t) == TickSet(interval, length + 1)
  {
    forall x | x in TickSet(interval, t) ensures x <= length {
      MultiplesGap(interval, x, t);
    }
  }

  /** The smallest element of a non-empty set of timestamps. */
  method Min(s: set<nat>) returns (m: nat)
    requires s != {}
    ensures m in s && forall k :: k in s ==> m <= k
  {
    m :| m in s;
    var todo := s - {m};
    while todo != {}
      invariant todo <= s && m in s
      invariant forall k :: k in s && k !in todo ==> m <= k
      decreases todo
    {
      var k :| k in todo;
      if k < m { m := k; }
      todo := todo - {k};
    }
  }

  /** The loop state of `Listing`: `timeline` lists, in ascending order, the keys of `d`
      that are not in `rest`, and each of them is below every key still in `rest`. */
  ghost predicate ListedSoFar<P>(d: map<nat, Event<P>>, timeline: Timeline<P>, rest: set<nat>)
  {
    Times(timeline) + rest == d.Keys && Times(timeline) !! rest
    && StrictlyIncreasing(timeline)
    && (forall j, k :: 0 <= j < |timeline| && k in rest ==> timeline[j].0 < k)
    && (forall j :: 0 <= j < |timeline| ==> timeline[j].0 in d && timeline[j].1 == d[timeline[j].0])
  }

  /** Moving the smallest remaining key to the end of the listing keeps `ListedSoFar`. */
  lemma ListingStep<P>(d: map<nat, Event<P>>, timeline: Timeline<P>, rest: set<nat>, m: nat)
    requires ListedSoFar(d, timeline, rest)
    requires m in rest && forall k :: k in rest ==> m <= k
    ensures m in d && ListedSoFar(d, timeline + [(m, d[m])], rest - {m})
  {
    TimesSnoc(timeline + [(m, d[m])]);
    assert (timeline + [(m, d[m])])[..|timeline|] == timeline;
  }

  /** Lists the entries of `d` by ascending timestamp, taking the smallest remaining key each round. */
  method Listing<P>(d: map<nat, Event<P>>) returns (timeline: Timeline<P>)
    ensures StrictlyIncreasing(timeline)
    ensures Times(timeline) == d.Keys
    ensures forall j :: 0 <= j < |timeline| ==> timeline[j].0 in d && timeline[j].1 == d[timeline[j].0]
  {
    timeline := [];
    var rest := d.Keys;
    assert Times(timeline) == {};
    while rest != {}
      invariant ListedSoFar(d, timeline, rest)
      decreases rest
    {
      var m := Min(rest);
      ListingStep(d, timeline, rest, m);
      timeline := timeline + [(m, d[m])];
      rest := rest - {m};
    }
  }

  /** Walks `music` front to back and stores each message in the bundle at its timestamp, creating the bundle when it is missing. */
  method AddMidi<P>(d0: map<nat, Event<P>>, music: seq<(nat, P)>) returns (d: map<nat, Event<P>>)
    ensures d == WithMidi(d0, music)
  {
    d := d0;
    var i := 0;
    while i < |music|
      invariant 0 <= i <= |music|
      invariant d == WithMidi(d0, music[..i])
    {
      var t := music[i].0;
      d := d[t := Get(d, t).(midi := Some(music[i].1))];
      assert music[..i + 1][..i] == music[..i];
      i := i + 1;
    }
    assert music[..i] == music;
  }

  /** Counts from 0 up to `length` in steps of `interval` and raises the tick flag of the bundle at each count, creating the bundle when it is missing. */
  method AddTicks<P>(d0: map<nat, Event<P>>, interval: nat, length: nat) returns (d: map<nat, Event<P>>)
    requires interval > 0
    ensures d == WithTicks(d0, interval, length + 1)
  {
    d := d0;
    var t := 0;
    assert TickSet(interval, 0) == {};
    while t <= length
      invariant t % interval == 0 && t <= length + interval
      invariant d == WithTicks(d0, interval, t)
    {
      WithTicksStep(d0, interval, t);
      ModStep(interval, t);
      d := d[t := Get(d, t).(time := true)];
      t := t + interval;
    }
    TickSetEnd(interval, t, length);
  }

  /** Walks `beats` front to back and stores each marker in the bundle at its timestamp, creating the bundle when it is missing. */
  method AddBeats<P>(d0: map<nat, Event<P>>, beats: seq<(nat, BeatMarker)>) returns (d: map<nat, Event<P>>)
    ensures d == WithBeats(d0, beats)
  {
    d := d0;
    var i := 0;
    while i < |beats|
      invariant 0 <= i <= |beats|
      invariant d == WithBeats(d0, beats[..i])
    {
      var t := beats[i].0;
      d := d[t := Get(d, t).(beat := Some(beats[i].1))];
      assert beats[..i + 1][..i] == beats[..i];
      i := i + 1;
    }
    assert beats[..i] == beats;
  }

  /** `make_event_list`: fills a timestamp-to-Event map from the music, the ticks and the
      beats, then lists it by ascending timestamp. */
  method MakeEventList<P>(song: Song<P>, interval: int, withBeats: bool) returns (timeline: Timeline<P>)
    ensures StrictlyIncreasing(timeline)
    ensures Times(timeline) == Bundles(song, interval, withBeats).Keys
    ensures forall j :: 0 <= j < |timeline| ==>
      timeline[j].1 == Bundles(song, interval, withBeats)[timeline[j].0]
  {
    var d := AddMidi(map[], song.music);
    if interval > 0 {
      d := AddTicks(d, interval, song.length);
    }
    if withBeats {
      d := AddBeats(d, song.beats);
    }
    timeline := Listing(d);
  }
}
