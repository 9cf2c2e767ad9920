/** What the element may do to the device, and with the frames it gets, over a whole life: a protocol that a
    history of calls either follows or breaks. Session.dfy proves that every history the element can produce
    follows it; the lemmas here say what following it means. */
module Protocol {
  import opened Bytes

  /** A queued buffer: the stream that pushed it, its OFFSET, and whether it bears an IDR slice. */
  datatype Frame = Frame(stream: nat, offset: nat, idr: bool)

  /** A buffer that the feeder of a stream may push: the next number, and behind a closed gate with an IDR slice. */
  predicate MayPush(hadIdr: bool, offset: nat, stream: nat, frame: Frame) {
    frame.stream == stream && frame.offset == offset && (hadIdr || frame.idr)
  }

  datatype Call =
    | Started
    | Init(ok: bool)
    | Exit
    | Enumerate(found: bool)
    | Unref
    | OpenDevice(ok: bool)
    | Close
    | Probe(ok: bool)
    | StartStream(ok: bool)
    /** uvc_start_streaming() on a NULL handle */
    | StartWithoutHandle
    | StopStream
    /** the silence ladder of create() decides on a wedge recovery; the two properties as read there */
    | Attempt(reconnect: bool, autoPortReset: bool)
    | PortReset(ok: bool)
    | Settle(ok: bool)
    | Deep(acted: bool)
    /** unlock_stop() clears the flush flag and empties the queue, from here to there */
    | Resume
    | Resumed
    /** create() returned the frame, or the element released it unseen; the flush flag as read then */
    | Out(frame: Frame)
    | Drop(frame: Frame, flushing: bool)

  datatype History = Fresh | After(prev: History, last: Call)

  datatype Phase = Idle | Attempted | WasReset | SettledDry | Deepened

  /** `held` is the device reference; `live` says that a stream was started and not stopped; `stream` numbers the
      successful starts; `taken` counts the frames of the current stream that left the queue. The last five are since
      the latest start(), `next` being the OFFSET of the frame that leaves the queue next. */
  datatype Standing = Standing(ctx: bool, held: bool, handle: bool, live: bool, resuming: bool, stream: nat, taken: nat,
                               phase: Phase, deepRuns: nat, attempts: nat, returned: nat, next: nat)

  const Untouched := Standing(false, false, false, false, false, 0, 0, Idle, 0, 0, 0, 0)

  function Allow(condition: bool, s: Standing): Option<Standing> {
    if condition then Some(s) else None
  }

  function Step(s: Standing, call: Call): Option<Standing> {
    match call
    case Started => Some(s.(phase := Idle, deepRuns := 0, attempts := 0, returned := 0, next := 0))
    case Init(ok) => Allow(!s.ctx, s.(ctx := ok))
    case Exit => Allow(s.ctx && !s.held && !s.handle, s.(ctx := false))
    case Enumerate(found) => Allow(s.ctx && !s.held && !s.handle, s.(held := found))
    case Unref => Allow(s.held && !s.handle, s.(held := false))
    case OpenDevice(ok) => Allow(s.ctx && s.held && !s.handle, s.(handle := ok))
    case Close => Allow(s.handle, s.(handle := false))
    case Probe(_) => Allow(s.handle, s)
    case StartStream(ok) => Allow(s.handle, if ok then s.(live := true, stream := s.stream + 1, taken := 0) else s)
    case StartWithoutHandle => Allow(!s.handle, s)
    case StopStream => Allow(s.handle, s.(live := false))
    case Attempt(reconnect, autoPortReset) =>
           Allow(!reconnect && autoPortReset, s.(attempts := s.attempts + 1, phase := Attempted))
    case PortReset(ok) => Allow(s.handle && s.phase == Attempted, s.(phase := if ok then WasReset else Idle))
    case Settle(ok) =>
      if s.phase == WasReset then Some(s.(phase := if ok then Idle else SettledDry))
      else Allow(s.phase == Deepened, s.(phase := Idle))
    case Deep(acted) => Allow(s.phase == SettledDry && s.deepRuns == 0 && !s.handle,
                              s.(deepRuns := 1, phase := if acted then Deepened else Idle))
    case Resume => Some(s.(resuming := true))
    case Resumed => Some(s.(resuming := false))
    case Out(frame) =>
           Allow(s.handle && frame.stream == s.stream && frame.offset == s.next && (s.taken == 0 ==> frame.idr),
                             s.(taken := s.taken + 1, returned := s.returned + 1, next := s.next + 1))
    case Drop(frame, flushing) =>
           Allow(frame.stream == s.stream && frame.offset == s.next && (flushing || s.resuming || !s.live),
                               s.(taken := s.taken + 1, next := s.next + 1))
  }

  /** Where a history leads, or None when one of its calls broke the protocol. */
  function Replay(h: History): Option<Standing> {
    match h
    case Fresh => Some(Untouched)
    case After(prev, last) =>
      match Replay(prev)
      case None => None
      case Some(s) => Step(s, last)
  }

  // ---------- what following the protocol means ----------

  function Count(h: History, what: Call): nat {
    match h
    case Fresh => 0
    case After(prev, last) => Count(prev, what) + if last == what then 1 else 0
  }

  function Toggle(b: bool): nat {
    if b then 1 else 0
  }

  /** Takes minus gives is 1 while the resource is held and 0 otherwise. */
  ghost predicate Balanced(h: History, take: Call, give: Call, held: bool) {
    Count(h, take) - Count(h, give) == Toggle(held)
  }

  /** How a call turns a resource: taken only when it was free, given back only when it was held. */
  predicate Turns(call: Call, take: Call, give: Call, before: bool, after: bool) {
    if call == take then !before && after else if call == give then before && !after else after == before
  }

  lemma {:induction false} BalancedNext(h: History, call: Call, take: Call, give: Call, before: bool, after: bool)
    requires Balanced(h, take, give, before) && take != give && Turns(call, take, give, before, after)
    ensures Balanced(After(h, call), take, give, after)
  {
  }

  predicate Nests(s: Standing) {
    (s.handle ==> s.held) && (s.held ==> s.ctx)
  }

  /** How a call turns the three resources. */
  predicate TurnsAll(call: Call, s: Standing, s': Standing) {
    && Turns(call, OpenDevice(true), Close, s.handle, s'.handle)
    && Turns(call, Enumerate(true), Unref, s.held, s'.held)
    && Turns(call, Init(true), Exit, s.ctx, s'.ctx)
  }

  lemma {:induction false} StepNests(s: Standing, call: Call)
    requires Nests(s) && Step(s, call).Some?
    ensures Nests(Step(s, call).value) && TurnsAll(call, s, Step(s, call).value)
  {
  }

  /** The handle, the device reference and the context are balanced, and they nest. */
  ghost predicate Nested(h: History, s: Standing) {
    && Balanced(h, OpenDevice(true), Close, s.handle)
    && Balanced(h, Enumerate(true), Unref, s.held)
    && Balanced(h, Init(true), Exit, s.ctx)
    && Nests(s)
  }

  lemma {:induction false} NestedNext(h: History, s: Standing, call: Call, s': Standing)
    requires Nested(h, s) && Nests(s') && TurnsAll(call, s, s')
    ensures Nested(After(h, call), s')
  {
    BalancedNext(h, call, OpenDevice(true), Close, s.handle, s'.handle);
    BalancedNext(h, call, Enumerate(true), Unref, s.held, s'.held);
    BalancedNext(h, call, Init(true), Exit, s.ctx, s'.ctx);
  }

  /** Every resource is taken and given back in turn, and the handle, the device reference and the context nest. */
  lemma {:induction false} ResourcesNest(h: History)
    requires Replay(h).Some?
    ensures Nested(h, Replay(h).value)
  {
    if h.After? {
      ResourcesNest(h.prev);
      StepNests(Replay(h.prev).value, h.last);
      NestedNext(h.prev, Replay(h.prev).value, h.last, Replay(h).value);
    }
  }

  ghost predicate IsPrefix(a: History, h: History) {
    a == h || (h.After? && IsPrefix(a, h.prev))
  }

  lemma {:induction false} PrefixFollows(a: History, h: History)
    requires IsPrefix(a, h) && Replay(h).Some?
    ensures Replay(a).Some?
  {
    if a != h { PrefixFollows(a, h.prev); }
  }

  /** At every moment of a history that follows the protocol, not only at its end. */
  lemma {:induction false} ResourcesNestAlways(h: History, moment: History)
    requires Replay(h).Some? && IsPrefix(moment, h)
    ensures 0 <= Count(moment, OpenDevice(true)) - Count(moment, Close)
              <= Count(moment, Enumerate(true)) - Count(moment, Unref)
              <= Count(moment, Init(true)) - Count(moment, Exit) <= 1
  {
    PrefixFollows(moment, h);
    ResourcesNest(moment);
  }

  /** The calls since the latest start(). */
  function SinceStart(h: History): History {
    match h
    case Fresh => Fresh
    case After(prev, last) => if last == Started then Fresh else After(SinceStart(prev), last)
  }

  function CountAttempts(h: History): nat {
    match h case Fresh => 0 case After(prev, last) => CountAttempts(prev) + if last.Attempt? then 1 else 0
  }

  function CountDeep(h: History): nat {
    match h case Fresh => 0 case After(prev, last) => CountDeep(prev) + if last.Deep? then 1 else 0
  }

  function CountOut(h: History): nat {
    match h case Fresh => 0 case After(prev, last) => CountOut(prev) + if last.Out? then 1 else 0
  }

  ghost predicate Tallied(h: History) {
    && Replay(h).Some?
    && var s := Replay(h).value;
    && s.attempts == CountAttempts(SinceStart(h))
    && s.deepRuns == CountDeep(SinceStart(h)) <= 1
    && s.returned == CountOut(SinceStart(h))
  }

  lemma {:induction false} TalliesNext(h: History, call: Call)
    requires Tallied(h) && Step(Replay(h).value, call).Some?
    ensures Tallied(After(h, call))
  {
  }

  lemma {:induction false} TalliesCount(h: History)
    requires Replay(h).Some?
    ensures Tallied(h)
  {
    if h.After? {
      TalliesCount(h.prev);
      TalliesNext(h.prev, h.last);
    }
  }

  predicate IsRung(call: Call) {
    call.Attempt? || call.PortReset? || call.Settle? || call.Deep? || call.Started?
  }

  /** A call on the device, its handle or its stream. */
  predicate IsWork(call: Call) {
    || call.Enumerate? || call.Unref? || call.OpenDevice? || call.Close? || call.Probe? || call.StartStream?
    || call.StartWithoutHandle? || call.StopStream?
  }

  /** A call that moves the recovery ladder or the context. */
  predicate IsRise(call: Call) {
    IsRung(call) || call.Init? || call.Exit?
  }

  /** The calls on the device, and those that moved the ladder or the context, each in order. */
  datatype Book = Book(work: seq<Call>, ladder: seq<Call>)

  function Enter(book: Book, call: Call): Book {
    if IsWork(call) then book.(work := book.work + [call])
    else if IsRise(call) then book.(ladder := book.ladder + [call])
    else book
  }

  /** The book that a history fills. */
  function Read(h: History): Book {
    match h case Fresh => Book([], []) case After(prev, last) => Enter(Read(prev), last)
  }

  /** The newest call that moves the recovery ladder. */
  function LastRung(h: History): Option<Call> {
    match h
    case Fresh => None
    case After(prev, last) =>
      if IsRung(last) then Some(last) else LastRung(prev)
  }

  function BeforeLastRung(h: History): History {
    match h
    case Fresh => Fresh
    case After(prev, last) =>
      if IsRung(last) then prev else BeforeLastRung(prev)
  }

  ghost predicate PhaseTold(h: History) {
    && Replay(h).Some?
    && var phase := Replay(h).value.phase;
    && (phase == Attempted ==> LastRung(h) == Some(Attempt(false, true)))
    && (phase == Deepened ==> LastRung(h) == Some(Deep(true)))
    && (phase == WasReset ==> LastRung(h) == Some(PortReset(true)))
    && (phase == SettledDry ==>
          LastRung(h) == Some(Settle(false)) && LastRung(BeforeLastRung(h)) == Some(PortReset(true)))
  }

  lemma {:induction false} PhaseNext(h: History, call: Call)
    requires PhaseTold(h) && Step(Replay(h).value, call).Some?
    ensures PhaseTold(After(h, call))
  {
  }

  lemma {:induction false} PhaseIsLastRung(h: History)
    requires Replay(h).Some?
    ensures PhaseTold(h)
  {
    if h.After? {
      PhaseIsLastRung(h.prev);
      PhaseNext(h.prev, h.last);
    }
  }

  /** The deep rung runs at most once per start(), and the rungs right before it are a settle pass that failed and,
      before that, a port reset that succeeded. */
  lemma {:induction false} DeepIsLastResort(h: History, moment: History)
    requires Replay(h).Some? && IsPrefix(moment, h) && moment.After? && moment.last.Deep?
    ensures CountDeep(SinceStart(moment)) == 1
    ensures LastRung(moment.prev) == Some(Settle(false))
    ensures LastRung(BeforeLastRung(moment.prev)) == Some(PortReset(true))
  {
    PrefixFollows(moment, h);
    TalliesCount(moment);
    PhaseIsLastRung(moment.prev);
  }

  /** A port is reset only with the handle held, and no rung lies between the attempt and its reset. */
  lemma {:induction false} ResetsFollowAttempts(h: History, moment: History)
    requires Replay(h).Some? && IsPrefix(moment, h) && moment.After? && moment.last.PortReset?
    ensures LastRung(moment.prev) == Some(Attempt(false, true))
    ensures Balanced(moment.prev, OpenDevice(true), Close, true)
  {
    PrefixFollows(moment, h);
    PhaseIsLastRung(moment.prev);
    var s := Replay(moment.prev).value;
    assert s.handle && s.phase == Attempted;
    ResourcesNest(moment.prev);
  }

  /** A settle pass comes right behind a port reset that went through or an escalation that acted. */
  lemma {:induction false} SettlesFollowResets(h: History, moment: History)
    requires Replay(h).Some? && IsPrefix(moment, h) && moment.After? && moment.last.Settle?
    ensures LastRung(moment.prev) == Some(PortReset(true)) || LastRung(moment.prev) == Some(Deep(true))
  {
    PrefixFollows(moment, h);
    PhaseIsLastRung(moment.prev);
  }

  /** No wedge recovery is ever attempted with reconnect on or auto-port-reset off. */
  lemma {:induction false} AttemptsArePermitted(h: History, moment: History)
    requires Replay(h).Some? && IsPrefix(moment, h) && moment.After? && moment.last.Attempt?
    ensures moment.last == Attempt(false, true)
  {
    PrefixFollows(moment, h);
  }

  /** The number of streams started so far. */
  function Streams(h: History): nat {
    Count(h, StartStream(true))
  }

  /** Frames that left the queue since the latest stream start. */
  function TakenFromStream(h: History): nat {
    match h
    case Fresh => 0
    case After(prev, last) =>
      if last == StartStream(true) then 0 else TakenFromStream(prev) + if last.Out? || last.Drop? then 1 else 0
  }

  /** The OFFSET of the latest frame returned since start(), -1 before the first. */
  function LastOffset(h: History): int {
    match h
    case Fresh => -1
    case After(prev, last) => if last == Started then -1 else if last.Out? then last.frame.offset else LastOffset(prev)
  }

  ghost predicate StreamTold(h: History) {
    && Replay(h).Some?
    && var s := Replay(h).value;
    && s.stream == Streams(h) && s.taken == TakenFromStream(h) && LastOffset(h) < s.next
  }

  lemma {:induction false} StreamNext(h: History, call: Call)
    requires StreamTold(h) && Step(Replay(h).value, call).Some?
    ensures StreamTold(After(h, call))
  {
  }

  lemma {:induction false} StreamTallies(h: History)
    requires Replay(h).Some?
    ensures StreamTold(h)
  {
    if h.After? {
      StreamTallies(h.prev);
      StreamNext(h.prev, h.last);
    }
  }

  /** No stale video: a returned frame was pushed by the newest stream, its OFFSET exceeds every earlier one of the
      session, and the first frame to leave the queue of a stream bears an IDR slice. */
  lemma {:induction false} ReturnedFramesAreFresh(h: History, moment: History)
    requires Replay(h).Some? && IsPrefix(moment, h) && moment.After? && moment.last.Out?
    ensures moment.last.frame.stream == Streams(moment.prev)
    ensures moment.last.frame.offset > LastOffset(moment.prev)
    ensures TakenFromStream(moment.prev) == 0 ==> moment.last.frame.idr
  {
    PrefixFollows(moment, h);
    StreamTallies(moment.prev);
  }

  // ---------- no frame is lost off the record ----------

  predicate TakesFrame(call: Call) {
    call.Out? || call.Drop?
  }

  /** How many frames left the queue. */
  function CountGone(h: History): nat {
    match h case Fresh => 0 case After(prev, last) => CountGone(prev) + if TakesFrame(last) then 1 else 0
  }

  lemma {:induction false} NextIsGone(h: History)
    requires Replay(h).Some?
    ensures Replay(h).value.next == CountGone(SinceStart(h))
  {
    if h.After? { NextIsGone(h.prev); }
  }

  /** The k-th frame to leave the queue since start(), returned or dropped, has OFFSET k: nothing that was pushed
      vanishes, is taken twice or is passed over. */
  lemma {:induction false} FramesLeaveInOrder(h: History, moment: History)
    requires Replay(h).Some? && IsPrefix(moment, h) && moment.After? && TakesFrame(moment.last)
    ensures moment.last.frame.offset == CountGone(SinceStart(moment.prev))
  {
    PrefixFollows(moment, h);
    NextIsGone(moment.prev);
  }

  /** A stream was started and not stopped since. */
  predicate Live(h: History) {
    match h
    case Fresh => false
    case After(prev, last) => last == StartStream(true) || (last != StopStream && Live(prev))
  }

  /** unlock_stop() has begun to empty the queue and has not finished. */
  predicate Resuming(h: History) {
    match h
    case Fresh => false
    case After(prev, last) => last == Resume || (last != Resumed && Resuming(prev))
  }

  ghost predicate LiveTold(h: History) {
    Replay(h).Some? && Replay(h).value.live == Live(h) && Replay(h).value.resuming == Resuming(h)
  }

  lemma {:induction false} LiveNext(h: History, call: Call)
    requires LiveTold(h) && Step(Replay(h).value, call).Some?
    ensures LiveTold(After(h, call))
  {
  }

  lemma {:induction false} StandingIsLive(h: History)
    requires Replay(h).Some?
    ensures LiveTold(h)
  {
    if h.After? {
      StandingIsLive(h.prev);
      LiveNext(h.prev, h.last);
    }
  }

  /** A frame is released unseen only with the flush flag on, by the unlock_stop() that ends a flush, or when its
      stream was stopped. */
  lemma {:induction false} DropsHaveReason(h: History, moment: History)
    requires Replay(h).Some? && IsPrefix(moment, h) && moment.After? && moment.last.Drop?
    ensures moment.last.flushing || Resuming(moment.prev) || !Live(moment.prev)
  {
    PrefixFollows(moment, h);
    StandingIsLive(moment.prev);
  }

  // ---------- the start on a NULL handle ----------

  const OpenedSession := After(After(After(After(After(Fresh, Started), Init(true)), Enumerate(true)),
                                     OpenDevice(true)), StartStream(true))
  const ResetSession := After(After(OpenedSession, Attempt(false, true)), PortReset(true))
  const LostSession := After(After(After(After(After(ResetSession, StopStream), Close), Unref), Exit), Init(true))

  const Streaming := Untouched.(ctx := true, held := true, handle := true, live := true, stream := 1)
  const Lost := Untouched.(ctx := true, stream := 1, attempts := 1, phase := WasReset)

  lemma {:induction false} SessionOpens()
    ensures Replay(OpenedSession) == Some(Streaming)
  {
    assert Replay(After(Fresh, Started)) == Some(Untouched);
    var first := After(After(After(Fresh, Started), Init(true)), Enumerate(true));
    assert Replay(first) == Some(Untouched.(ctx := true, held := true));
  }

  lemma {:induction false} SessionIsReset()
    ensures Replay(ResetSession) == Some(Streaming.(attempts := 1, phase := WasReset))
  {
    SessionOpens();
  }

  lemma {:induction false} SessionIsLost()
    ensures Replay(LostSession) == Some(Lost)
  {
    SessionIsReset();
    assert Replay(After(After(ResetSession, StopStream), Close)) ==
           Some(Lost.(held := true));
  }

  /** The device does not come back after its port was reset, and create() is called again: the protocol allows the
      start on a NULL handle. */
  lemma {:induction false} NullHandleIsStarted() returns (h: History)
    ensures h == After(After(After(LostSession, Enumerate(false)), Settle(false)), StartWithoutHandle)
    ensures Replay(h).Some? && !Replay(h).value.handle && Replay(h).value.attempts == 1
  {
    SessionIsLost();
    h := After(After(After(LostSession, Enumerate(false)), Settle(false)), StartWithoutHandle);
  }
}
