/** The element's other entry points (gstlibuvch264src.c:1101-1142, 1373-1377, 1736-1739, 2108-2109, 857-859) on the
    same object as the feeder's callback, and whole runs of them: the object follows PipelineRuns.Run. */
module ElementRuns {
  import opened Bytes
  import opened AnnexB
  import opened PipelineSpec
  import opened PipelineRuns
  import opened FramePipeline

  // ---------- any number of critical sections is one interference ----------

  /** One critical section of another thread. */
  datatype Section = SetClock(present: bool) | PausedToPlaying

  function SectionStep(st: State, s: Section): State {
    match s
    case SetClock(present) =>
      if present then st.(hasClock := true, baseTime := CLOCK_NONE, prevPts := CLOCK_NONE) else st.(hasClock := false)
    case PausedToPlaying => st.(baseTime := CLOCK_NONE, prevPts := CLOCK_NONE)
  }

  function Sections(st: State, sections: seq<Section>): State {
    if sections == [] then st else SectionStep(Sections(st, sections[..|sections| - 1]), sections[|sections| - 1])
  }

  predicate AnyRebase(sections: seq<Section>) {
    sections != [] && (AnyRebase(sections[..|sections| - 1]) || sections[|sections| - 1] != SetClock(false))
  }

  /** The clock field after the sections, if any of them wrote it. */
  function LastClock(sections: seq<Section>): Option<bool> {
    if sections == [] then None
    else match sections[|sections| - 1]
      case SetClock(present) => Some(present)
      case PausedToPlaying => LastClock(sections[..|sections| - 1])
  }

  /** However often set_clock() and change_state() get the lock between two critical sections of the callback, the
      effect is one Interference: a rebaseline if any section made one, and the last clock that was set. */
  lemma {:induction false} SectionsAreOneInterference(st: State, sections: seq<Section>)
    ensures Sections(st, sections) == Interfere(st, Interference(AnyRebase(sections), LastClock(sections)))
  {
    if sections != [] { SectionsAreOneInterference(st, sections[..|sections| - 1]); }
  }

  // ---------- the entry points ----------

  /** set_clock(): rebaseline only when a clock is given. */
  method SetClockOf(self: Element, clock: bool)
    modifies self`hasClock, self`baseTime, self`prevPts
    ensures self.View() == SectionStep(old(self.View()), SetClock(clock))
  {
    if self.hasClock { self.hasClock := false; }
    if clock {
      self.hasClock := true;
      self.baseTime := CLOCK_NONE;
      self.prevPts := CLOCK_NONE;
    }
  }

  method ChangeState(self: Element, pausedToPlaying: bool)
    modifies self`baseTime, self`prevPts
    ensures self.View() == if pausedToPlaying then SectionStep(old(self.View()), PausedToPlaying) else old(self.View())
  {
    if pausedToPlaying {
      self.baseTime := CLOCK_NONE;
      self.prevPts := CLOCK_NONE;
    }
  }

  /** The per-session reset of start(). */
  method ResetFrameState(self: Element)
    modifies self`hadIdr, self`sendSets, self`frameOffset, self`prevPts, self`baseTime
    ensures self.View() == old(self.View()).(hadIdr := false, sendSets := false, frameOffset := 0,
                                             prevPts := CLOCK_NONE, baseTime := CLOCK_NONE)
  {
    self.hadIdr := false;
    self.sendSets := false;
    self.frameOffset := 0;
    self.prevPts := CLOCK_NONE;
    self.baseTime := CLOCK_NONE;
  }

  /** The re-arm of reopen_once() before the feeder spawns: the numbering goes on. */
  method RearmStream(self: Element)
    modifies self`hadIdr, self`sendSets, self`prevPts, self`baseTime
    ensures self.View() ==
            old(self.View()).(hadIdr := false, sendSets := false, prevPts := CLOCK_NONE, baseTime := CLOCK_NONE)
  {
    self.hadIdr := false;
    self.sendSets := false;
    self.baseTime := CLOCK_NONE;
    self.prevPts := CLOCK_NONE;
  }

  method RestoreSets(self: Element, sets: ParamSets)
    requires self.Valid()
    requires |sets.vps| <= SPSPPSBUFSZ && |sets.sps| <= SPSPPSBUFSZ && |sets.pps| <= SPSPPSBUFSZ
    modifies self`vpsLength, self`spsLength, self`ppsLength, self`sets, self.vps, self.sps, self.pps
    ensures self.Valid() && self.View() == old(self.View()).(sets := sets)
  {
    Fill(self.vps, 0, sets.vps);
    Fill(self.sps, 0, sets.sps);
    Fill(self.pps, 0, sets.pps);
    self.vpsLength, self.spsLength, self.ppsLength := |sets.vps|, |sets.sps|, |sets.pps|;
    assert self.vps[..|sets.vps|] == sets.vps && self.sps[..|sets.sps|] == sets.sps
           && self.pps[..|sets.pps|] == sets.pps;
    self.sets := sets;
  }

  /** One event on the object does what the run's step says. */
  method Handle(self: Element, e: Event)
    requires self.Valid()
    requires e.Load? ==> |e.sets.vps| <= SPSPPSBUFSZ && |e.sets.sps| <= SPSPPSBUFSZ && |e.sets.pps| <= SPSPPSBUFSZ
    modifies self, self.vps, self.sps, self.pps
    ensures self.Valid() && self.format == old(self.format) && self.frameInterval == old(self.frameInterval)
    ensures var step := EventStep(self.format, self.frameInterval, old(self.View()), e);
            self.View() == step.st && self.queue == old(self.queue) + step.buffers
  {
    match e
    case Deliver(d) => self.FrameCallback(d);
    case Elsewhere(other) => self.OtherThreads(other);
    case Start => ResetFrameState(self);
    case Reopen => RearmStream(self);
    case BeginStreaming => ChangeState(self, true);
    case Load(sets) => RestoreSets(self, sets);
  }

  /** `r` is what the first `n` events come to. */
  ghost predicate AfterEvents(format: Format, frameInterval: int, st: State, events: seq<Event>, n: nat, r: Outcome)
    requires n <= |events|
  {
    r == Run(format, frameInterval, st, events, n)
  }

  lemma {:induction false} AfterEventsNext(format: Format, frameInterval: int, st: State, events: seq<Event>, n: nat,
                                           r: Outcome)
    requires n < |events| && AfterEvents(format, frameInterval, st, events, n, r)
    ensures AfterEvents(format, frameInterval, st, events, n + 1,
                        Then(r, EventStep(format, frameInterval, r.st, events[n])))
  {
  }

  /** Any sequence of deliveries, starts, reopens, rebaselines and loads on one element follows the specified run. */
  method Play(self: Element, events: seq<Event>)
    requires self.Valid()
    requires forall i :: 0 <= i < |events| && events[i].Load? ==>
               |events[i].sets.vps| <= SPSPPSBUFSZ && |events[i].sets.sps| <= SPSPPSBUFSZ
                 && |events[i].sets.pps| <= SPSPPSBUFSZ
    modifies self, self.vps, self.sps, self.pps
    ensures self.Valid()
    ensures var r := Run(old(self.format), old(self.frameInterval), old(self.View()), events, |events|);
            self.View() == r.st && self.queue == old(self.queue) + r.buffers
  {
    ghost var st0 := self.View();
    ghost var r := Outcome(st0, [], []);
    var i := 0;
    while i < |events|
      invariant 0 <= i <= |events| && self.Valid()
      invariant self.format == old(self.format) && self.frameInterval == old(self.frameInterval)
      invariant AfterEvents(self.format, self.frameInterval, st0, events, i, r)
      invariant self.View() == r.st && self.queue == old(self.queue) + r.buffers
    {
      ghost var step := EventStep(self.format, self.frameInterval, r.st, events[i]);
      AfterEventsNext(self.format, self.frameInterval, st0, events, i, r);
      Assoc(old(self.queue), r.buffers, step.buffers);
      r := Then(r, step);
      Handle(self, events[i]);
      i := i + 1;
    }
  }
}
