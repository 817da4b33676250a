/**
 Concrete timelines: a small song merged into its timeline, and players on three bundles
 that seek a time, step to the end, and seek a measure and beat.
 */
module MidiScenarios {
  import opened MidiEvents
  import opened MidiPlayer

  /** Music at 0 and 100, a tick every 50 up to a length of 100, one beat marker at 0. */
  function SmallSong(): Song<string>
  {
    Song([(0, "A"), (100, "B")], 100, [(0, BeatMarker(1, 1, 4, 4))])
  }

  lemma SmallTicks()
    ensures TickSet(50, 101) == {0, 50, 100}
  {
    forall x | x in TickSet(50, 101) ensures x in {0, 50, 100} {
      if 0 < x < 50 { MultiplesGap(50, 0, x); }
      else if 50 < x < 100 { MultiplesGap(50, 50, x); }
    }
  }

  /** The merge of the small song: bundles at exactly 0, 50 and 100, holding what each
      source contributes there. */
  lemma SmallSongTimeline()
    ensures Bundles(SmallSong(), 50, true).Keys == {0, 50, 100}
    ensures Get(Bundles(SmallSong(), 50, true), 0) == Event(Some("A"), true, Some(BeatMarker(1, 1, 4, 4)))
    ensures Get(Bundles(SmallSong(), 50, true), 50) == Event(None, true, None)
    ensures Get(Bundles(SmallSong(), 50, true), 100) == Event(Some("B"), true, None)
  {
    var song := SmallSong();
    BundleKeys(song, 50, true);
    SmallTicks();
    assert Times(song.music) == {0, 100} by {
      assert song.music[0].0 == 0 && song.music[1].0 == 100;
    }
    assert Times(song.beats) == {0} by {
      assert song.beats[0].0 == 0;
    }
    BundleAt(song, 50, true, 0);
    BundleAt(song, 50, true, 50);
    BundleAt(song, 50, true, 100);
  }

  function Ticks(): Timeline<string>
  {
    [(0, Event(None, true, None)), (50, Event(None, true, None)), (100, Event(None, true, None))]
  }

  /** A player on timestamps 0, 50, 100: seeking 30 lands on 50 with 20 to wait; seeking
      1000 runs past the end, to position 3 with no wait, where the source raises. */
  method TickSeekScenario() returns (nearPos: nat, nearOffset: int, pastPos: nat, pastOffset: int)
    ensures nearPos == 1 && nearOffset == 20
    ensures pastPos == 3 && pastOffset == 0
    ensures SeekAsWritten(Ticks(), 1000) == None
  {
    var p := new Player<string>();
    p.events := Ticks();
    nearOffset := p.Seek(30);
    nearPos := p.position;
    pastOffset := p.Seek(1000);
    pastPos := p.position;
  }

  /** A player on timestamps 0, 50, 100 stepped from the start: three `next_event` calls
      wait 50, 50 and then 0, reporting each tick and finishing after the last. */
  method TickStepScenario() returns (first: int, second: int, third: int, ghost log: seq<Notification<string>>)
    ensures first == 50 && second == 50 && third == 0
    ensures log == [TimeReported(0), TimeReported(50), TimeReported(100), Finished, Stopped]
  {
    var p := new Player<string>();
    p.events := Ticks();
    first := p.NextEvent();
    second := p.NextEvent();
    third := p.NextEvent();
    log := p.log;
  }

  function Beats(): Timeline<string>
  {
    [(0, Event(None, false, Some(BeatMarker(1, 1, 4, 4)))),
     (480, Event(None, false, Some(BeatMarker(1, 2, 4, 4)))),
     (960, Event(None, false, Some(BeatMarker(2, 1, 4, 4))))]
  }

  /** A player on beats (1,1), (1,2), (2,1): measure 1 beat 2 lands on the bundle at
      480; measure 1 beat 3 lands there too, the last beat of measure 1 before measure 2
      stops the scan; measure 5 is not found and the position stays where it was. */
  method BeatSeekScenario() returns (found12: bool, pos12: nat, found13: bool, pos13: nat, found5: bool, pos5: nat)
    ensures found12 && pos12 == 1
    ensures found13 && pos13 == 1
    ensures !found5 && pos5 == 1
  {
    var p := new Player<string>();
    p.events := Beats();
    assert Halts(Beats()[1].1, 1, 2) && !Halts(Beats()[0].1, 1, 2);
    assert FirstHalt(Beats(), 1, 2) == 1;
    found12 := p.SeekMeasure(1, 2);
    pos12 := p.position;
    found13 := p.SeekMeasure(1, 3);
    pos13 := p.position;
    found5 := p.SeekMeasure(5, 1);
    pos5 := p.position;
  }
}
