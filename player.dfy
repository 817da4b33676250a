/**
 The timeline cursor of the MIDI player (`Player` in midiplayer.py): a built timeline and a
 position in it, seeking by time or by measure and beat, and stepping from one bundle to
 the next. The hooks a concrete player overrides are recorded in a ghost log.
 */
module MidiPlayer {
  import opened MidiEvents

  /** One call of a player hook: `midi_event`, `time_event`, `beat_event`, `finish`, and the
      `stop` that `finish` calls. */
  datatype Notification<P> =
    | MidiPlayed(midi: P)
    | TimeReported(msec: nat)
    | BeatReported(measnum: int, beat: int, num: int, den: int)
    | Finished
    | Stopped

  /** The hooks `handle_event` calls for one bundle: the MIDI payload, then the time, then
      the beat, each only when the bundle has it. */
  ghost function Dispatch<P>(time: nat, e: Event<P>): seq<Notification<P>>
  {
    (if e.midi.Some? then [MidiPlayed(e.midi.value)] else [])
    + (if e.time then [TimeReported(time)] else [])
    + (match e.beat
       case Some(b) => [BeatReported(b.measure, b.beat, b.num, b.den)]
       case None => [])
  }

  /** The hooks one `next_event` call at position `p` invokes. */
  ghost function Step<P>(events: Timeline<P>, p: nat): seq<Notification<P>>
  {
    if p >= |events| then []
    else Dispatch(events[p].0, events[p].1) + (if p + 1 == |events| then [Finished, Stopped] else [])
  }

  /** What one `next_event` call at position `p` returns: the wait until the next bundle. */
  function StepDelta<P>(events: Timeline<P>, p: nat): int
  {
    if p + 1 < |events| then events[p + 1].0 as int - events[p].0 else 0
  }

  /** The hooks invoked by calling `next_event` from position `p` until it returns 0. */
  ghost function Playback<P>(events: Timeline<P>, p: nat): seq<Notification<P>>
    decreases |events| - p
  {
    if p >= |events| then [] else Step(events, p) + Playback(events, p + 1)
  }

  /** The sum of the waits `next_event` returns from position `p` to the end. */
  function TotalWait<P>(events: Timeline<P>, p: nat): int
    decreases |events| - p
  {
    if p >= |events| then 0 else StepDelta(events, p) + TotalWait(events, p + 1)
  }

  function CountFinished<P>(log: seq<Notification<P>>): nat
  {
    if log == [] then 0 else (if log[0].Finished? then 1 else 0) + CountFinished(log[1..])
  }

  lemma {:induction false} CountFinishedAppend<P>(a: seq<Notification<P>>, b: seq<Notification<P>>)
    ensures CountFinished(a + b) == CountFinished(a) + CountFinished(b)
    decreases |a|
  {
    if a != [] {
      assert (a + b)[1..] == a[1..] + b;
      CountFinishedAppend(a[1..], b);
    } else {
      assert a + b == b;
    }
  }

  /** `handle_event` calls no hook exactly for an empty bundle and at most three otherwise,
      sending the MIDI payload first and the beat last when the bundle has them. */
  lemma DispatchShape<P>(time: nat, e: Event<P>)
    ensures Dispatch(time, e) == [] <==> IsEmpty(e)
    ensures |Dispatch(time, e)| <= 3
    ensures e.midi.Some? ==> Dispatch(time, e)[0] == MidiPlayed(e.midi.value)
    ensures e.beat.Some? ==>
      Dispatch(time, e)[|Dispatch(time, e)| - 1] ==
        BeatReported(e.beat.value.measure, e.beat.value.beat, e.beat.value.num, e.beat.value.den)
  {
  }

  /** `handle_event` never reports the end of the song. */
  lemma DispatchNeverFinishes<P>(time: nat, e: Event<P>)
    ensures CountFinished(Dispatch(time, e)) == 0
  {
    var m: seq<Notification<P>> := if e.midi.Some? then [MidiPlayed(e.midi.value)] else [];
    var t: seq<Notification<P>> := if e.time then [TimeReported(time)] else [];
    var b: seq<Notification<P>> := match e.beat
       case Some(bm) => [BeatReported(bm.measure, bm.beat, bm.num, bm.den)]
       case None => [];
    CountFinishedAppend(m, t);
    CountFinishedAppend(m + t, b);
  }

  /** `handle_event` invokes at least one hook for every non-empty bundle. */
  lemma DispatchNonEmpty<P>(time: nat, e: Event<P>)
    requires !IsEmpty(e)
    ensures |Dispatch(time, e)| >= 1
  {
  }

  /** Every bundle of a timeline built from a song (as `make_event_list` returns it) makes
      `handle_event` call at least one hook. */
  lemma BuiltTimelineDispatches<P>(song: Song<P>, interval: int, withBeats: bool, tl: Timeline<P>)
    requires Times(tl) == Bundles(song, interval, withBeats).Keys
    requires forall j :: 0 <= j < |tl| ==> tl[j].1 == Bundles(song, interval, withBeats)[tl[j].0]
    ensures forall j :: 0 <= j < |tl| ==> |Dispatch(tl[j].0, tl[j].1)| >= 1
  {
    forall j | 0 <= j < |tl|
      ensures |Dispatch(tl[j].0, tl[j].1)| >= 1
    {
      assert tl[j].0 in Times(tl);
      BundlesNonEmpty(song, interval, withBeats, tl[j].0);
      DispatchNonEmpty(tl[j].0, tl[j].1);
    }
  }

  /** Playing from any position before the end calls `finish` (and so `stop`) exactly once,
      as the very last thing; playing from the end calls nothing. */
  lemma {:induction false} PlaybackFinishesOnce<P>(events: Timeline<P>, p: nat)
    ensures p >= |events| ==> Playback(events, p) == []
    ensures p < |events| ==> CountFinished(Playback(events, p)) == 1
    ensures p < |events| ==>
      |Playback(events, p)| >= 2 && Playback(events, p)[|Playback(events, p)| - 2..] == [Finished, Stopped]
    decreases |events| - p
  {
    if p < |events| {
      PlaybackFinishesOnce(events, p + 1);
      DispatchNeverFinishes(events[p].0, events[p].1);
      var d := Dispatch(events[p].0, events[p].1);
      if p + 1 == |events| {
        var fin: seq<Notification<P>> := [Finished, Stopped];
        CountFinishedAppend(d, fin);
        assert CountFinished(fin) == 1 by {
          assert fin[1..] == [Stopped];
          assert fin[1..][1..] == [];
        }
        assert Playback(events, p) == d + fin;
      } else {
        assert Step(events, p) == d;
        CountFinishedAppend(d, Playback(events, p + 1));
      }
    }
  }

  /** The waits returned while playing from `p` add up to the time from `p`'s bundle to the
      last one, so a driver that re-arms its timer with them reaches the total time. */
  lemma {:induction false} TotalWaitReachesEnd<P>(events: Timeline<P>, p: nat)
    requires p < |events|
    ensures TotalWait(events, p) == events[|events| - 1].0 as int - events[p].0
    decreases |events| - p
  {
    if p + 1 < |events| {
      TotalWaitReachesEnd(events, p + 1);
    }
  }

  /** The lower bound of `time` in the timeline: the number of leading bundles before it. */
  ghost function LowerBound<P>(events: Timeline<P>, time: int): (r: nat)
    ensures r <= |events|
    ensures forall j :: 0 <= j < r ==> events[j].0 < time
    ensures r < |events| ==> time <= events[r].0
    decreases |events|
  {
    if |events| == 0 || time <= events[0].0 then 0 else 1 + LowerBound(events[1..], time)
  }

  /** The binary search of `seek`: the first position whose timestamp is at least `time`. */
  method Bisect<P>(events: Timeline<P>, time: int) returns (pos: nat)
    requires StrictlyIncreasing(events)
    ensures pos <= |events|
    ensures forall j :: 0 <= j < pos ==> events[j].0 < time
    ensures forall j :: pos <= j < |events| ==> time <= events[j].0
    ensures pos == LowerBound(events, time)
  {
    pos := 0;
    var end := |events|;
    while pos < end
      invariant pos <= end <= |events|
      invariant forall j :: 0 <= j < pos ==> events[j].0 < time
      invariant forall j :: end <= j < |events| ==> time <= events[j].0
      decreases end - pos
    {
      var mid := (pos + end) / 2;
      if time > events[mid].0 {
        pos := mid + 1;
      } else {
        end := mid;
      }
    }
    ghost var r := LowerBound(events, time);
    assert r < |events| ==> time <= events[r].0;
    assert pos < |events| ==> time <= events[pos].0;
  }

  /** `seek` as written: it reads `events[pos]` after the search, which raises IndexError
      (None here) when the position found is past the end. */
  ghost function SeekAsWritten<P>(events: Timeline<P>, time: int): (r: Option<(nat, int)>)
    ensures time == 0 ==> r == Some((0, 0))
    ensures r.None? <==> time != 0 && forall j :: 0 <= j < |events| ==> events[j].0 < time
  {
    if time == 0 then Some((0, 0))
    else
      var pos := LowerBound(events, time);
      if pos < |events| then Some((pos, events[pos].0 - time)) else None
  }

  /** The source's `seek` fails for every non-zero target after the last timestamp, the empty
      timeline included. */
  lemma SeekPastEndRaises<P>(events: Timeline<P>, time: int)
    requires time != 0
    requires forall j :: 0 <= j < |events| ==> events[j].0 < time
    ensures SeekAsWritten(events, time) == None
  {
  }

  /** The beat marker of `e` is in measure `measnum`. */
  predicate InMeasure<P>(e: Event<P>, measnum: int)
  {
    e.beat.Some? && e.beat.value.measure == measnum
  }

  /** `seek_measure` stops its scan at `e`: a later measure, or the measure at or after the beat. */
  predicate Halts<P>(e: Event<P>, measnum: int, beat: int)
  {
    e.beat.Some? &&
    (e.beat.value.measure > measnum || (e.beat.value.measure == measnum && e.beat.value.beat >= beat))
  }

  /** The position where the scan of `seek_measure` stops, or |events| when it runs through. */
  ghost function FirstHalt<P>(events: Timeline<P>, measnum: int, beat: int): (r: nat)
    ensures r <= |events|
    ensures r < |events| ==> Halts(events[r].1, measnum, beat)
    ensures forall j :: 0 <= j < r ==> !Halts(events[j].1, measnum, beat)
    decreases |events|
  {
    if |events| == 0 then 0
    else if Halts(events[0].1, measnum, beat) then 0
    else 1 + FirstHalt(events[1..], measnum, beat)
  }

  /** How many bundles the scan of `seek_measure` looks at (the halting one included). */
  ghost function Scanned<P>(events: Timeline<P>, measnum: int, beat: int): nat
  {
    var h := FirstHalt(events, measnum, beat);
    if h < |events| then h + 1 else h
  }

  /** `pos` is the last bundle in measure `measnum` among those the scan looks at. */
  ghost predicate IsMeasureTarget<P>(events: Timeline<P>, measnum: int, beat: int, pos: int)
  {
    var n := Scanned(events, measnum, beat);
    0 <= pos < n && n <= |events| && InMeasure(events[pos].1, measnum) &&
    forall k :: pos < k < n ==> !InMeasure(events[k].1, measnum)
  }

  /** The scan of `seek_measure`: whether some scanned bundle is in measure `measnum`, and the
      last such bundle. */
  method FindMeasure<P>(events: Timeline<P>, measnum: int, beat: int) returns (found: bool, pos: nat)
    ensures found <==> exists j :: 0 <= j < Scanned(events, measnum, beat) && InMeasure(events[j].1, measnum)
    ensures found ==> IsMeasureTarget(events, measnum, beat, pos)
  {
    found, pos := false, 0;
    var i := 0;
    while i < |events|
      invariant 0 <= i <= |events|
      invariant forall k :: 0 <= k < i ==> !Halts(events[k].1, measnum, beat)
      invariant found <==> exists j :: 0 <= j < i && InMeasure(events[j].1, measnum)
      invariant found ==>
        pos < i && InMeasure(events[pos].1, measnum) && forall k :: pos < k < i ==> !InMeasure(events[k].1, measnum)
    {
      var e := events[i].1;
      if e.beat.Some? {
        if e.beat.value.measure == measnum {
          pos, found := i, true;
          if e.beat.value.beat >= beat {
            assert FirstHalt(events, measnum, beat) == i;
            break;
          }
        }
        if e.beat.value.measure > measnum {
          assert FirstHalt(events, measnum, beat) == i;
          break;
        }
      }
      i := i + 1;
    }
  }

  /** A measure that no bundle's beat marker mentions is never found. */
  lemma MissingMeasureNotFound<P>(events: Timeline<P>, measnum: int, beat: int)
    requires forall j :: 0 <= j < |events| ==> !InMeasure(events[j].1, measnum)
    ensures !exists j :: 0 <= j < Scanned(events, measnum, beat) && InMeasure(events[j].1, measnum)
  {
  }

  /** A found position is either where the scan halted (the requested beat or later in that
      measure) or the last bundle of the measure before the scan halted. */
  lemma MeasureTargetShape<P>(events: Timeline<P>, measnum: int, beat: int, pos: int)
    requires IsMeasureTarget(events, measnum, beat, pos)
    ensures (pos == FirstHalt(events, measnum, beat) && events[pos].1.beat.value.beat >= beat)
         || (pos < FirstHalt(events, measnum, beat) && events[pos].1.beat.value.beat < beat)
  {
  }

  class Player<P> {
    /** The built timeline, `_events`. */
    var events: Timeline<P>
    /** The index of the next bundle to play, `_position`. */
    var position: nat
    /** Every hook called so far. */
    ghost var log: seq<Notification<P>>

    ghost predicate Valid()
      reads this`events
    {
      StrictlyIncreasing(events)
    }

    constructor ()
      ensures Valid() && events == [] && position == 0 && log == []
    {
      events, position := [], 0;
      log := [];
    }

    /** `set_song`: builds the timeline of `song`; the position is left where it was. */
    method SetSong(song: Song<P>, interval: int, withBeats: bool)
      modifies this`events
      ensures Valid()
      ensures Times(events) == Bundles(song, interval, withBeats).Keys
      ensures forall j :: 0 <= j < |events| ==> events[j].1 == Bundles(song, interval, withBeats)[events[j].0]
      ensures events != [] ==> TotalTime() in Bundles(song, interval, withBeats).Keys
      ensures forall t :: t in Bundles(song, interval, withBeats).Keys ==> t <= TotalTime()
    {
      events := MakeEventList(song, interval, withBeats);
      if events != [] {
        assert events[|events| - 1].0 in Times(events);
      }
    }

    /** `total_time`: the last timestamp, the greatest of them, or 0 for an empty timeline. */
    function TotalTime(): (t: nat)
      reads this`events
      ensures events == [] ==> t == 0
      ensures events != [] ==> t == events[|events| - 1].0
      ensures Valid() ==> forall j :: 0 <= j < |events| ==> events[j].0 <= t
    {
      if events != [] then events[|events| - 1].0 else 0
    }

    /** `current_time`: the time of the last bundle played, or 0 before the first one. */
    function CurrentTime(): (t: nat)
      reads this`events, this`position
      requires position <= |events|
      ensures position == 0 ==> t == 0
      ensures position > 0 ==> t == events[position - 1].0
      ensures Valid() ==> t <= TotalTime()
    {
      if position > 0 then events[position - 1].0 else 0
    }

    /** `set_position`; the base player ignores the offset. */
    method SetPosition(pos: nat, timeOffset: int)
      modifies this`position
      ensures position == pos
    {
      position := pos;
    }

    /** `seek`: moves to the first bundle at or after `time` and returns how long after
        `time` that bundle is due. A target after the last timestamp moves to the end. */
    method Seek(time: int) returns (offset: int)
      requires Valid()
      modifies this`position
      ensures position == LowerBound(events, time) && position <= |events|
      ensures forall j :: 0 <= j < position ==> events[j].0 < time
      ensures forall j :: position <= j < |events| ==> time <= events[j].0
      ensures time == 0 ==> position == 0 && offset == 0
      ensures time != 0 ==> offset == (if position < |events| then events[position].0 - time else 0)
      ensures offset >= 0
      ensures time > 0 ==> CurrentTime() < time
    {
      var pos := 0;
      offset := 0;
      if time != 0 {
        pos := Bisect(events, time);
        if pos < |events| {
          offset := events[pos].0 - time;
        }
      }
      SetPosition(pos, offset);
    }

    /** `seek_measure`: moves to the bundle of measure `measnum` at beat `beat`, or to the
        last one of that measure before it; reports false and stays put when none is found. */
    method SeekMeasure(measnum: int, beat: int) returns (found: bool)
      modifies this`position
      ensures found <==> exists j :: 0 <= j < Scanned(events, measnum, beat) && InMeasure(events[j].1, measnum)
      ensures found ==> IsMeasureTarget(events, measnum, beat, position) && position < |events|
      ensures !found ==> position == old(position)
    {
      var pos;
      found, pos := FindMeasure(events, measnum, beat);
      if found {
        SetPosition(pos, 0);
      }
    }

    /** `handle_event`: calls the hooks for one bundle (dispatching on the bundle given). */
    method HandleEvent(time: nat, event: Event<P>)
      modifies this`log
      ensures log == old(log) + Dispatch(time, event)
    {
      if event.midi.Some? {
        MidiEvent(event.midi.value);
      }
      if event.time {
        TimeEvent(time);
      }
      if event.beat.Some? {
        var b := event.beat.value;
        BeatEvent(b.measure, b.beat, b.num, b.den);
      }
    }

    /** `midi_event`: the hook that sends a payload to the MIDI output. */
    method MidiEvent(midi: P)
      modifies this`log
      ensures log == old(log) + [MidiPlayed(midi)]
    {
      log := log + [MidiPlayed(midi)];
    }

    /** `time_event`: the hook for a time update. */
    method TimeEvent(msec: nat)
      modifies this`log
      ensures log == old(log) + [TimeReported(msec)]
    {
      log := log + [TimeReported(msec)];
    }

    /** `beat_event`: the hook for a beat. */
    method BeatEvent(measnum: int, beat: int, num: int, den: int)
      modifies this`log
      ensures log == old(log) + [BeatReported(measnum, beat, num, den)]
    {
      log := log + [BeatReported(measnum, beat, num, den)];
    }

    /** `finish`: called once the last bundle is played; by default it calls `stop`. */
    method Finish()
      modifies this`log
      ensures log == old(log) + [Finished, Stopped]
    {
      log := log + [Finished, Stopped];
    }

    /** `next_event`: plays the bundle at the position, advances past it and returns the
        wait until the next one; after the last bundle it calls `finish` and returns 0, and
        at the end it does nothing and returns 0. */
    method NextEvent() returns (delta: int)
      requires Valid()
      modifies this`position, this`log
      ensures log == old(log) + Step(events, old(position))
      ensures delta == StepDelta(events, old(position))
      ensures old(position) >= |events| ==> position == old(position) && log == old(log) && delta == 0
      ensures old(position) < |events| ==> position == old(position) + 1 && CurrentTime() == events[old(position)].0
      ensures position < |events| ==> delta > 0 && CurrentTime() + delta == events[position].0
      ensures position == |events| ==> delta == 0
      ensures old(position) <= |events| ==> position <= |events|
    {
      if events != [] && position < |events| {
        var time := events[position].0;
        var event := events[position].1;
        HandleEvent(time, event);
        position := position + 1;
        if position < |events| {
          return events[position].0 as int - time;
        }
        Finish();
      }
      return 0;
    }
  }

  /** The bookkeeping of a playback begun at `start` with log `log0`, now at `q`: the hooks
      logged so far followed by the rest of the playback are the whole playback, and the
      waits returned so far plus the waits still to come are all the waits. */
  ghost predicate PlayedFrom<P>(events: Timeline<P>, start: nat, log0: seq<Notification<P>>,
                                q: nat, log: seq<Notification<P>>, total: int)
  {
    start <= q <= |events|
    && log0 + Playback(events, start) == log + Playback(events, q)
    && total + TotalWait(events, q) == TotalWait(events, start)
  }

  /** One more `next_event` call keeps the bookkeeping. */
  lemma PlayStep<P>(events: Timeline<P>, start: nat, log0: seq<Notification<P>>,
                    q: nat, log: seq<Notification<P>>, total: int)
    requires q < |events| && PlayedFrom(events, start, log0, q, log, total)
    ensures PlayedFrom(events, start, log0, q + 1, log + Step(events, q), total + StepDelta(events, q))
  {
    PlaybackUnfold(events, q, log);
  }

  /** One `next_event` call's hooks, appended to a log, followed by the rest of the playback. */
  lemma PlaybackUnfold<P>(events: Timeline<P>, q: nat, log: seq<Notification<P>>)
    requires q < |events|
    ensures log + Playback(events, q) == (log + Step(events, q)) + Playback(events, q + 1)
  {
    assert Playback(events, q) == Step(events, q) + Playback(events, q + 1);
  }

  /** At the end, the log holds the whole playback, with one `finish` when anything was
      played, and the waits add up to the time from the first bundle played to the last. */
  lemma PlayedToEnd<P>(events: Timeline<P>, start: nat, log0: seq<Notification<P>>,
                       log: seq<Notification<P>>, total: int)
    requires PlayedFrom(events, start, log0, |events|, log, total)
    ensures log == log0 + Playback(events, start)
    ensures total == TotalWait(events, start)
    ensures start < |events| ==>
      CountFinished(Playback(events, start)) == 1 &&
      total == events[|events| - 1].0 as int - events[start].0
  {
    assert Playback(events, |events|) == [];
    assert log + Playback(events, |events|) == log;
    if start < |events| {
      PlaybackFinishesOnce(events, start);
      TotalWaitReachesEnd(events, start);
    }
  }

  /** Calls `next_event` until the cursor reaches the end, as the timer of a concrete player
      does: the hooks called are `Playback`, with exactly one `finish` (and its `stop`) last
      when anything was left to play, and the waits add up to the time to the last bundle. */
  method PlayToEnd<P>(p: Player<P>) returns (total: int)
    requires p.Valid() && p.position <= |p.events|
    modifies p`position, p`log
    ensures p.position == |p.events|
    ensures p.log == old(p.log) + Playback(p.events, old(p.position))
    ensures total == TotalWait(p.events, old(p.position))
    ensures old(p.position) < |p.events| ==>
      CountFinished(Playback(p.events, old(p.position))) == 1 &&
      total == p.events[|p.events| - 1].0 as int - p.events[old(p.position)].0
  {
    ghost var start, log0 := p.position, p.log;
    total := 0;
    while p.position < |p.events|
      invariant p.Valid()
      invariant PlayedFrom(p.events, start, log0, p.position, p.log, total)
      decreases |p.events| - p.position
    {
      ghost var q, before := p.position, p.log;
      PlayStep(p.events, start, log0, q, before, total);
      var delta := p.NextEvent();
      assert p.position == q + 1 && p.log == before + Step(p.events, q) && delta == StepDelta(p.events, q);
      total := total + delta;
    }
    PlayedToEnd(p.events, start, log0, p.log, total);
  }
}
