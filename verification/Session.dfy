/** The streaming-thread side of the element (gstlibuvch264src.c:165-183, 1293-1599, 1636-2245): start, stop,
    unlock, create with its silence ladder, reconnect and the wedge recovery.

    The device answers as it likes, other threads run as they like, time passes as it likes: every such answer is
    a nondeterministic choice. What is assumed: a wait that nothing interrupts lasts at least as long as asked;
    uvc_stop_streaming() returns only once the feeder is gone; flushing is cleared (unlock_stop) only between
    calls of create(); a start on a NULL handle does not succeed. */
module Session {
  import opened Bytes
  import opened Protocol

  const DISCONNECT_TIMEOUT_COUNT := 5
  const RECONNECT_MAX_RETRIES := 5
  const RECONNECT_BACKOFF_INITIAL_S := 1
  const RESET_POLL_INITIAL_MS := 25
  const RESET_POLL_MAX_MS := 200
  const SECOND := 1000000
  const TIMEOUT_DURATION := SECOND

  /** Milliseconds and seconds in microseconds. */
  function Millis(ms: int): int {
    1000 * ms
  }

  function Seconds(s: int): int {
    1000000 * s
  }

  /** What the element did so far, and where it led. */
  datatype Record = Record(history: History, book: Book, standing: Standing)

  ghost predicate Sound(r: Record) {
    Replay(r.history) == Some(r.standing) && Read(r.history) == r.book
  }

  function Logged(r: Record, call: Call): Record
    requires Step(r.standing, call).Some?
  {
    Record(After(r.history, call), Enter(r.book, call), Step(r.standing, call).value)
  }

  /** A buffer knows when the feeder pushed it. */
  datatype QueueItem = Sentinel | Buffer(frame: Frame, at: int)

  /** What one turn of create()'s loop comes to. */
  datatype Flow = Again | Ok(frame: Frame) | Flushing | Error

  /** What create() popped. */
  datatype Got = Flush | Nothing | Stale | Real

  /** What one reopen inside the settle loop comes to. */
  datatype Turn = Refused | Silent | Proved

  /** The real frames of a queue, in order. */
  function Frames(queue: seq<QueueItem>): seq<Frame> {
    if queue == [] then []
    else (if queue[0].Buffer? then [queue[0].frame] else []) + Frames(queue[1..])
  }

  lemma {:induction false} FramesAppend(a: seq<QueueItem>, b: seq<QueueItem>)
    ensures Frames(a + b) == Frames(a) + Frames(b)
  {
    if a == [] {
      assert a + b == b;
    } else {
      FramesAppend(a[1..], b);
      assert (a + b)[1..] == a[1..] + b;
      Assoc(if a[0].Buffer? then [a[0].frame] else [], Frames(a[1..]), Frames(b));
    }
  }

  lemma {:induction false} FramesSnoc(queue: seq<QueueItem>, item: QueueItem)
    ensures Frames(queue + [item]) == Frames(queue) + (if item.Buffer? then [item.frame] else [])
  {
    FramesAppend(queue, [item]);
    assert Frames([item]) == (if item.Buffer? then [item.frame] else []) + Frames([]);
  }

  lemma {:induction false} FramesHead(queue: seq<QueueItem>)
    requires queue != []
    ensures queue[0].Buffer? ==>
              Frames(queue) != [] && Frames(queue)[0] == queue[0].frame && Frames(queue)[1..] == Frames(queue[1..])
    ensures queue[0].Sentinel? ==> Frames(queue) == Frames(queue[1..])
  {
    assert Frames(queue) == (if queue[0].Buffer? then [queue[0].frame] else []) + Frames(queue[1..]);
  }

  /** The frames are one stream's and their OFFSETs count up to `end`. */
  ghost predicate Numbered(frames: seq<Frame>, stream: nat, end: nat) {
    && |frames| <= end
    && (forall i :: 0 <= i < |frames| ==> frames[i].stream == stream && frames[i].offset == end - |frames| + i)
  }

  lemma {:induction false} NumberedTail(frames: seq<Frame>, stream: nat, end: nat)
    requires frames != [] && Numbered(frames, stream, end)
    ensures Numbered(frames[1..], stream, end)
    ensures frames[0].stream == stream && frames[0].offset == end - |frames|
  {
  }

  lemma {:induction false} NumberedSnoc(frames: seq<Frame>, stream: nat, end: nat, idr: bool)
    requires Numbered(frames, stream, end)
    ensures Numbered(frames + [Frame(stream, end, idr)], stream, end + 1)
  {
  }

  /** How many sentinels a queue holds. */
  function Sentinels(queue: seq<QueueItem>): nat {
    if queue == [] then 0 else (if queue[0].Sentinel? then 1 else 0) + Sentinels(queue[1..])
  }

  lemma {:induction false} SentinelsSnoc(queue: seq<QueueItem>, item: QueueItem)
    ensures Sentinels(queue + [item]) == Sentinels(queue) + (if item.Sentinel? then 1 else 0)
  {
    if queue == [] {
      assert queue + [item] == [item];
    } else {
      SentinelsSnoc(queue[1..], item);
      assert (queue + [item])[1..] == queue[1..] + [item];
    }
  }

  /** A history with the frames of a drained queue released at its end. */
  function Drops(h: History, frames: seq<Frame>, flushing: bool): History
    decreases |frames|
  {
    if frames == [] then h else Drops(After(h, Drop(frames[0], flushing)), frames[1..], flushing)
  }

  /** The latest answer of the device to the steps of a reopen. */
  function LastAnswer(h: History): Option<bool> {
    if h.Fresh? then None
    else match h.last
      case Enumerate(found) => Some(found)
      case OpenDevice(ok) => Some(ok)
      case Probe(ok) => Some(ok)
      case StartStream(ok) => Some(ok)
      case _ => LastAnswer(h.prev)
  }

  /** n times k, by repeated addition. */
  function Times(k: nat, n: nat): nat {
    if n == 0 then 0 else Times(k, n - 1) + k
  }

  lemma {:induction false} TimesIsProduct(k: nat, n: nat)
    ensures Times(k, n) == k * n
  {
    if n > 0 { TimesIsProduct(k, n - 1); }
  }

  lemma {:induction false} TimesMonotone(j: nat, k: nat, n: nat)
    requires j <= k
    ensures Times(j, n) <= Times(k, n)
  {
    if n > 0 { TimesMonotone(j, k, n - 1); }
  }

  /** The silence ladder's books: with at most one recovery in doubt, every earlier one was paid for by `rearm`
      returned frames. */
  predicate Paid(used: bool, sinceReset: nat, rearm: nat, attempts: nat, returned: nat) {
    if used then attempts >= 1 && Times(rearm, attempts - 1) + sinceReset <= returned
    else Times(rearm, attempts) <= returned
  }

  /** attempts <= 1 + returned / rearm. */
  lemma {:induction false} PaidBound(used: bool, sinceReset: nat, rearm: nat, attempts: nat, returned: nat)
    requires rearm >= 1 && Paid(used, sinceReset, rearm, attempts, returned)
    ensures attempts <= 1 + returned / rearm
  {
    var earlier := if used then attempts - 1 else attempts;
    TimesIsProduct(rearm, earlier);
    if earlier > returned / rearm {
      assert returned < rearm * (returned / rearm + 1);
      MulMonotone(rearm, returned / rearm + 1, earlier);
    }
  }

  lemma {:induction false} MulMonotone(k: nat, a: nat, b: nat)
    requires a <= b
    ensures k * a <= k * b
  {
  }

  /** One more frame returned than the books say: it may be booked, and enough of them close the doubt. */
  lemma {:induction false} PaidFrame(sinceReset: nat, rearm: nat, lowest: nat, attempts: nat, returned: nat)
    requires Paid(true, sinceReset + 1, lowest, attempts, returned) && 1 <= lowest <= rearm
    ensures Paid(sinceReset + 1 < rearm, sinceReset + 1, lowest, attempts, returned)
  {
  }

  lemma {:induction false} PaidLower(used: bool, sinceReset: nat, lower: nat, lowest: nat, attempts: nat, returned: nat)
    requires Paid(used, sinceReset, lowest, attempts, returned) && lower <= lowest
    ensures Paid(used, sinceReset, lower, attempts, returned)
  {
    TimesMonotone(lower, lowest, if used then attempts - 1 else attempts);
  }

  /** The books of the silence ladder. */
  predicate BooksOk(used: bool, sinceReset: nat, lowest: nat, rearm: nat, attempts: nat, returned: nat) {
    1 <= lowest <= rearm && Paid(used, sinceReset, lowest, attempts, returned)
  }

  /** The queued frames are the current stream's, numbered up to the counter; the first frame ever of the stream
      bears an IDR slice. */
  ghost predicate QueueOk(frames: seq<Frame>, stream: nat, end: nat, taken: nat, feeding: bool, hadIdr: bool) {
    && Numbered(frames, stream, end)
    && (taken == 0 && frames != [] ==> frames[0].idr)
    && (feeding && taken == 0 && frames == [] ==> !hadIdr)
  }

  // ---------- the waits of the two retry loops ----------

  /** Seconds of backoff in front of reconnect attempt `k`: 1, 2, 4, ... */
  function BackoffS(k: nat): (s: nat)
    ensures s >= 1
  {
    if k == 0 then RECONNECT_BACKOFF_INITIAL_S else 2 * BackoffS(k - 1)
  }

  /** The wait after `k` refused reopens: 25, 50, 100, 200, 200, ... milliseconds. */
  function RetryMs(k: nat): (ms: nat)
    ensures RESET_POLL_INITIAL_MS <= ms <= RESET_POLL_MAX_MS
  {
    if k == 0 then RESET_POLL_INITIAL_MS else Min(RetryMs(k - 1) * 2, RESET_POLL_MAX_MS)
  }

  /** The first `k` waits together, in microseconds. */
  function RetrySum(k: nat): nat {
    if k == 0 then 0 else RetrySum(k - 1) + Millis(RetryMs(k - 1))
  }

  lemma {:induction false} RetrySumGrows(k: nat)
    requires k >= 3
    ensures RetryMs(k) == RESET_POLL_MAX_MS && RetrySum(k) == 175000 + 200000 * (k - 3)
  {
    if k == 3 {
      assert RetryMs(0) == 25 && RetryMs(1) == 50 && RetryMs(2) == 100;
      assert RetrySum(1) == 25000 && RetrySum(2) == 75000;
    } else {
      RetrySumGrows(k - 1);
    }
  }

  /** The waits between `n` looks for the device that found nothing. */
  function Polls(n: nat): seq<int> {
    if n == 0 then [] else Polls(n - 1) + [Millis(RetryMs(n - 1))]
  }

  lemma {:induction false} PollsWithin(n: nat)
    ensures forall i :: 0 <= i < |Polls(n)| ==> Polls(n)[i] <= Millis(RESET_POLL_MAX_MS)
  {
    if n > 0 { PollsWithin(n - 1); }
  }

  /** The backoffs of `n` reconnect attempts. */
  function Backoffs(n: nat): seq<int> {
    if n == 0 then [] else Backoffs(n - 1) + [Seconds(BackoffS(n - 1))]
  }

  lemma {:induction false} BackoffsAre()
    ensures Backoffs(RECONNECT_MAX_RETRIES) == [1000000, 2000000, 4000000, 8000000, 16000000]
  {
    assert BackoffS(1) == 2 && BackoffS(2) == 4 && BackoffS(3) == 8 && BackoffS(4) == 16;
    assert Backoffs(1) == [1000000] && Backoffs(2) == [1000000, 2000000];
    assert Backoffs(3) == [1000000, 2000000, 4000000] && Backoffs(4) == [1000000, 2000000, 4000000, 8000000];
  }

  lemma {:induction false} Append3<T>(a: seq<T>, b: seq<T>, c: seq<T>, d: seq<T>)
    ensures (a + (b + c)) + d == a + (b + (c + d))
  {
  }

  // ---------- what the calls of a reopen look like ----------

  /** `n` looks that found nothing. */
  function Misses(n: nat): seq<Call> {
    if n == 0 then [] else Misses(n - 1) + [Enumerate(false)]
  }

  /** From the look that found the device to the open; with a deadline there may have been no time for it. */
  predicate OpenedAs(calls: seq<Call>, bounded: bool, ok: bool) {
    if ok then calls == [Enumerate(true), OpenDevice(true)]
    else
      || calls == []
      || calls == [Enumerate(true), OpenDevice(false), Unref]
      || (bounded && calls == [Enumerate(true), Unref])
  }

  /** What is left to a reopen on the open handle: renegotiate, start; whatever fails is given back. */
  predicate BroughtUpAs(calls: seq<Call>, bounded: bool, ok: bool) {
    if ok then calls == [Probe(true), StartStream(true)]
    else
      || calls == [Probe(false), Close, Unref]
      || calls == [Probe(true), StartStream(false), Close, Unref]
      || (bounded && (calls == [Close, Unref] || calls == [Probe(true), Close, Unref]))
  }

  /** A whole reopen, behind the looks that found nothing. */
  predicate ReopenedAs(calls: seq<Call>, bounded: bool, ok: bool) {
    || (!ok && OpenedAs(calls, bounded, false))
    || (|calls| >= 2 && OpenedAs(calls[..2], bounded, true) && BroughtUpAs(calls[2..], bounded, ok))
  }

  /** Without a deadline there is one look. */
  predicate LooksOnce(missed: nat, calls: seq<Call>) {
    missed == if calls == [] then 1 else 0
  }

  /** How often the device was looked for. */
  function Looks(calls: seq<Call>): nat {
    if calls == [] then 0 else Looks(calls[..|calls| - 1]) + if calls[|calls| - 1].Enumerate? then 1 else 0
  }

  lemma {:induction false} LooksAppend(a: seq<Call>, b: seq<Call>)
    ensures Looks(a + b) == Looks(a) + Looks(b)
  {
    if b == [] {
      assert a + b == a;
    } else {
      LooksAppend(a, b[..|b| - 1]);
      assert (a + b)[..|a + b| - 1] == a + b[..|b| - 1];
    }
  }

  /** A reopen without a deadline looks once. */
  lemma {:induction false} OneLook(missed: nat, calls: seq<Call>, ok: bool)
    requires LooksOnce(missed, calls) && ReopenedAs(calls, false, ok)
    ensures Looks(Misses(missed) + calls) == 1
  {
    LooksAppend(Misses(missed), calls);
    if calls == [] {
      assert Misses(1)[..0] == Misses(0);
    } else {
      LooksFirst(calls);
    }
  }

  /** Every reopen looks for the device. */
  lemma {:induction false} ReopenLooks(before: seq<Call>, missed: nat, calls: seq<Call>, rest: seq<Call>)
    requires calls == [] ==> missed >= 1
    requires calls != [] ==> calls[0].Enumerate?
    ensures Looks(before + (Misses(missed) + calls + rest)) > Looks(before)
  {
    LooksAppend(before, Misses(missed) + calls + rest);
    LooksAppend(Misses(missed) + calls, rest);
    LooksAppend(Misses(missed), calls);
    if calls == [] {
      assert Looks(Misses(missed)) >= 1;
    } else {
      LooksSome(calls);
    }
  }

  lemma {:induction false} LooksSome(calls: seq<Call>)
    requires calls != [] && calls[0].Enumerate?
    ensures Looks(calls) >= 1
  {
    if |calls| > 1 { LooksSome(calls[..|calls| - 1]); }
  }

  lemma {:induction false} LooksFirst(calls: seq<Call>)
    requires calls != [] && calls[0].Enumerate? && forall i :: 1 <= i < |calls| ==> !calls[i].Enumerate?
    ensures Looks(calls) == 1
  {
    if |calls| > 1 { LooksFirst(calls[..|calls| - 1]); }
  }

  /** A handle and a reference given back. */
  function TornDown(handle: bool, dev: bool): seq<Call> {
    (if handle then [StopStream, Close] else []) + if dev then [Unref] else []
  }

  lemma {:induction false} TornDownLooks(before: seq<Call>, handle: bool, dev: bool)
    ensures Looks(before + TornDown(handle, dev)) == Looks(before)
  {
    var calls := TornDown(handle, dev);
    LooksAppend(before, calls);
    forall i | 0 <= i < |calls| ensures !calls[i].Enumerate? {
      if handle { assert calls[0] == StopStream && calls[1] == Close; }
    }
    NoLooks(calls);
  }

  lemma {:induction false} NoLooks(calls: seq<Call>)
    requires forall i :: 0 <= i < |calls| ==> !calls[i].Enumerate?
    ensures Looks(calls) == 0
  {
    if calls != [] { NoLooks(calls[..|calls| - 1]); }
  }

  // ---------- what the calls of a start look like ----------

  /** The context of a new session: none with a bad selector; given up again when no device opens. */
  function SessionLadder(selected: bool, got: bool, ok: bool): seq<Call> {
    [Started] + if selected then [Init(got)] + (if got && !ok then [Exit] else []) else []
  }

  predicate EndsWith<T(==)>(s: seq<T>, tail: seq<T>) {
    |tail| <= |s| && s[|s| - |tail|..] == tail
  }

  /** How the looks and the open of a new session go; without a context there are none. */
  predicate SessionCalls(got: bool, missed: nat, calls: seq<Call>, ok: bool) {
    if got then OpenedAs(calls, false, ok) && (calls == [] ==> missed >= 1) else missed == 0 && calls == [] && !ok
  }

  // ---------- what the rungs of a recovery look like ----------

  /** A new context and, on it, a settle pass. */
  function Repass(ctxOk: bool, ok: bool): seq<Call> {
    [Exit, Init(ctxOk)] + if ctxOk then [Settle(ok)] else []
  }

  /** The deep rung: not taken, taken without effect, or taken and behind it a second pass. */
  predicate EscalatedAs(calls: seq<Call>, permitted: bool, ok: bool) {
    if !permitted then calls == [] && !ok
    else
      || (calls == [Deep(false)] && !ok)
      || (calls == [Deep(true)] + Repass(false, false) && !ok)
      || calls == [Deep(true)] + Repass(true, ok)
  }

  /** Behind a port reset that went through: a new context and a settle pass; if that fails, the deep rung where it is
      permitted. */
  predicate SettledAs(calls: seq<Call>, permitted: bool, ok: bool) {
    || (calls == Repass(false, false) && !ok)
    || (calls == Repass(true, true) && ok)
    || (|calls| >= 3 && calls[..3] == Repass(true, false) && EscalatedAs(calls[3..], permitted, ok))
  }

  /** A whole recovery: the port reset, and if it goes through the rest. */
  predicate RecoveredAs(calls: seq<Call>, permitted: bool, ok: bool) {
    || (calls == [PortReset(false)] && !ok)
    || (calls != [] && calls[0] == PortReset(true) && SettledAs(calls[1..], permitted, ok))
  }

  /** What `refused` refused and `silent` silent reopens have cost at least, in microseconds. */
  function Spent(refused: nat, silent: nat): nat {
    RetrySum(refused) + Times(SECOND, silent)
  }

  /** Each reopen began while the budget, in microseconds, lasted. */
  predicate WithinBudget(refused: nat, silent: nat, budget: int) {
    && (refused > 0 ==> RetrySum(refused - 1) < budget)
    && (silent > 0 ==> Times(SECOND, silent - 1) < budget)
  }

  /** When the waits before the latest refused reopen fit the budget, there were at most 4 + budget/200 of them, and at
      most one silent second for each second begun. */
  lemma {:induction false} BudgetBounds(refused: nat, silent: nat, budgetMs: nat)
    requires WithinBudget(refused, silent, Millis(budgetMs))
    ensures refused <= 4 + budgetMs / 200 && silent <= (budgetMs + 999) / 1000
  {
    if refused > 4 { RetrySumGrows(refused - 1); }
    if silent > 0 { TimesIsProduct(SECOND, silent - 1); }
  }

  /** The reopens so far began within the budget, and unless the loop is over the time they cost has passed. */
  predicate Paced(refused: nat, silent: nat, budget: int, passed: int, over: bool) {
    WithinBudget(refused, silent, budget) && (over || passed >= Spent(refused, silent))
  }

  /** A reopen that begins while the budget lasts may be counted, whichever way it ends. */
  lemma {:induction false} PacedTurn(refused: nat, silent: nat, budget: int, began: int, passed: int, over: bool,
                                     turn: Turn)
    requires Paced(refused, silent, budget, began, false) && began < budget
    requires turn == Refused ==> over || passed >= began + Millis(RetryMs(refused))
    requires turn == Silent ==> over || passed >= began + SECOND
    ensures WithinBudget(refused, silent, budget)
    ensures turn == Refused ==> Paced(refused + 1, silent, budget, passed, over)
    ensures turn == Silent ==> Paced(refused, silent + 1, budget, passed, over)
  {
  }

  class Source {
    // properties
    var selectorOk: bool
    var reconnectEnabled: bool
    var autoPortReset: bool
    var deepPortRecovery: bool
    var settleMaxMs: nat
    var rearmFrames: nat
    // device
    var ctx: bool
    var dev: bool
    var handle: bool
    // stream
    var streaming: bool
    var flushing: bool
    var queue: seq<QueueItem>
    var hadIdr: bool
    var frameOffset: nat
    // silence ladder
    var consecutiveTimeouts: nat
    var resetRecoveryUsed: bool
    var framesSinceReset: nat
    var deepRecoveryUsed: bool
    /** g_get_monotonic_time(), in microseconds */
    var now: int

    /** Every call so far, and where it led. */
    ghost var log: Record
    /** The world's side: the feeder thread exists; the number of the current stream, which its frames bear. */
    var feeding: bool
    var stream: nat
    /** How often unlock() ran, and how often a sentinel was released as if it were a buffer. */
    ghost var unlocks: nat
    ghost var misreleased: nat
    /** The time each wait was asked to last at most, in microseconds. */
    ghost var asked: seq<int>
    /** The smallest re-arm threshold in force since start(). */
    ghost var lowestRearm: nat

    /** What holds at every step, teardowns included. */
    ghost predicate Core()
      reads this
    {
      && now > 0
      && Sound(log) && (log.standing.deepRuns > 0 ==> deepRecoveryUsed)
      && log.standing.ctx == ctx && log.standing.held == dev && log.standing.handle == handle
        && log.standing.live == streaming
      && (handle ==> dev) && (dev ==> ctx)
      && log.standing.stream == stream
      && QueueOk(Frames(queue), stream, frameOffset, log.standing.taken, feeding, hadIdr)
      && log.standing.next == frameOffset - |Frames(queue)|
      && (streaming ==> handle) && (feeding ==> streaming)
    }

    /** The element made this call, and the protocol allows it. */
    ghost method Log(call: Call)
      requires Sound(log) && Step(log.standing, call).Some?
      modifies this`log
      ensures Sound(log) && log == Logged(old(log), call)
    {
      log := Logged(log, call);
    }

    /** What holds between calls: without a stream no frame is queued, and a fresh handle has a closed gate. */
    ghost predicate Valid()
      reads this
    {
      && Core() && !log.standing.resuming
      && (!streaming ==> Frames(queue) == []) && (handle && !streaming ==> !hadIdr)
    }

    /** The books of the silence ladder are in order. Only what changes them mentions it: elsewhere the counts and the
        fields are the same. */
    ghost predicate Booked()
      reads this`log, this`resetRecoveryUsed, this`framesSinceReset, this`lowestRearm, this`rearmFrames
    {
      BooksOk(resetRecoveryUsed, framesSinceReset, lowestRearm, rearmFrames, log.standing.attempts,
              log.standing.returned)
    }

    constructor ()
      ensures Valid() && Booked() && log.history == Fresh && !ctx && !dev && !handle && !streaming && queue == []
      ensures !reconnectEnabled && autoPortReset && !deepPortRecovery && settleMaxMs == 8000 && rearmFrames == 30
    {
      selectorOk, reconnectEnabled, autoPortReset, deepPortRecovery := true, false, true, false;
      settleMaxMs, rearmFrames := 8000, 30;
      ctx, dev, handle, streaming, flushing, queue, hadIdr, frameOffset := false, false, false, false, false, [],
        false, 0;
      consecutiveTimeouts, resetRecoveryUsed, framesSinceReset, deepRecoveryUsed := 0, false, 0, false;
      now := 1;
      feeding, stream := false, 0;
      log := Record(Fresh, Book([], []), Untouched);
      unlocks, misreleased, lowestRearm, asked := 0, 0, 30, [];
    }

    // ---------- the other threads ----------

    /** frame_callback() pushes a buffer (Feeder.CallbackIsPushes). */
    method FeederPush() returns (frame: Frame)
      requires Core() && feeding
      modifies this`queue, this`hadIdr, this`frameOffset
      ensures Core() && hadIdr && frameOffset == old(frameOffset) + 1
      ensures queue == old(queue) + [Buffer(frame, now)] && MayPush(old(hadIdr), old(frameOffset), stream, frame)
      ensures old(queue) <= queue && old(Frames(queue)) <= Frames(queue)
      ensures Sentinels(queue) == old(Sentinels(queue))
    {
      var idr: bool := *;
      frame := Frame(stream, frameOffset, idr || !hadIdr);
      FramesSnoc(queue, Buffer(frame, now));
      NumberedSnoc(Frames(queue), stream, frameOffset, frame.idr);
      SentinelsSnoc(queue, Buffer(frame, now));
      queue := queue + [Buffer(frame, now)];
      hadIdr := true;
      frameOffset := frameOffset + 1;
    }

    /** unlock(): wake a blocked create() with a sentinel, wake every interruptible wait. */
    method Unlock()
      modifies this`flushing, this`queue, this`unlocks
      ensures flushing && queue == old(queue) + [Sentinel] && unlocks == old(unlocks) + 1
      ensures Frames(queue) == old(Frames(queue)) && Sentinels(queue) == old(Sentinels(queue)) + 1
      ensures old(Core()) ==> Core()
      ensures old(Valid()) ==> Valid()
    {
      FramesSnoc(queue, Sentinel);
      SentinelsSnoc(queue, Sentinel);
      flushing := true;
      queue := queue + [Sentinel];
      unlocks := unlocks + 1;
    }

    method Tick()
      modifies this`now
      ensures now >= old(now)
    {
      var t: int := *;
      if t > 0 { now := now + t; }
    }

    /** Time has passed and other threads have run. */
    twostate predicate Waited()
      reads this
    {
      && now >= old(now)
      && (old(flushing) ==> flushing)
      && old(queue) <= queue
      && (old(queue) == [] && queue != [] && queue[0].Buffer? ==> queue[0].at >= old(now))
      && old(Frames(queue)) <= Frames(queue)
      && (!feeding ==> Frames(queue) == old(Frames(queue)) && hadIdr == old(hadIdr) && frameOffset == old(frameOffset))
      && unlocks >= old(unlocks)
      && (!flushing ==> unlocks == old(unlocks))
      && (unlocks == old(unlocks) ==> flushing == old(flushing))
      && Sentinels(queue) == old(Sentinels(queue)) + (unlocks - old(unlocks))
    }

    /** No attempt was made and no frame returned. What the standing says of resources and frames follows from Core. */
    twostate predicate CountsKept()
      reads this`log
    {
      && log.standing.attempts == old(log.standing).attempts && log.standing.returned == old(log.standing).returned
      && log.standing.resuming == old(log.standing).resuming
    }

    /** Nor did the deep rung run. */
    twostate predicate TalliesKept()
      reads this`log
    {
      CountsKept() && log.standing.deepRuns == old(log.standing).deepRuns
    }

    /** Nor has anything moved on the recovery ladder. */
    twostate predicate LadderKept()
      reads this`log
    {
      PhaseKept() && log.book.ladder == old(log.book).ladder
    }

    /** Nothing has moved on it but the context. */
    twostate predicate PhaseKept()
      reads this`log
    {
      TalliesKept() && log.standing.phase == old(log.standing).phase
    }

    /** The ladder's calls since are these. */
    twostate predicate Climbed(calls: seq<Call>)
      reads this`log
    {
      log.book.ladder == old(log.book).ladder + calls
    }

    /** The calls on the device since are these. */
    twostate predicate Worked(calls: seq<Call>)
      reads this`log
    {
      log.book.work == old(log.book).work + calls
    }

    /** The waits asked for since are these. */
    twostate predicate Asked(waits: seq<int>)
      reads this`asked
    {
      asked == old(asked) + waits
    }

    /** No wait asked for since was to last longer. */
    twostate predicate AskedWithin(us: int)
      reads this`asked
    {
      old(asked) <= asked && forall i :: |old(asked)| <= i < |asked| ==> asked[i] <= us
    }

    /** The device was looked for. */
    twostate predicate Looked()
      reads this`log
    {
      Looks(log.book.work) > Looks(old(log).book.work)
    }

    /** Time has passed and no frame came: there is no stream. */
    twostate predicate Idled()
      reads this
    {
      && now >= old(now) && (old(flushing) ==> flushing)
      && Frames(queue) == old(Frames(queue)) && hadIdr == old(hadIdr) && frameOffset == old(frameOffset)
    }

    method FeederRuns()
      requires Core() && feeding
      modifies this`queue, this`hadIdr, this`frameOffset
      ensures Core() && Waited()
    {
      var frame := FeederPush();
    }

    method FlushBegins()
      requires Core()
      modifies this`flushing, this`queue, this`unlocks
      ensures Core() && Waited()
    {
      Unlock();
    }

    method TimePasses()
      requires Core()
      modifies this`now
      ensures Core() && Waited()
    {
      Tick();
    }

    /** One step of some other thread, or of the clock. */
    method Interleave()
      requires Core()
      modifies this`now, this`queue, this`flushing, this`hadIdr, this`frameOffset, this`unlocks
      ensures Core() && Waited()
    {
      if {
        case feeding => FeederRuns();
        case true => FlushBegins();
        case true => TimePasses();
      }
    }

    /** Any number of such steps. */
    method OthersRun()
      requires Core()
      modifies this`now, this`queue, this`flushing, this`hadIdr, this`frameOffset, this`unlocks
      ensures Core() && Waited()
    {
      var steps: int := *;
      while steps > 0
        invariant Core() && Waited()
      {
        Interleave();
        steps := steps - 1;
      }
    }

    /** At least this much time. */
    method Elapse(atLeast: nat)
      requires Core()
      modifies this`now, this`queue, this`flushing, this`hadIdr, this`frameOffset, this`unlocks
      ensures Core() && Waited() && now >= old(now) + atLeast
      ensures old(Valid()) ==> Valid()
    {
      OthersRun();
      now := now + atLeast;
    }

    // ---------- waiting ----------

    /** Park until `us` have passed or a flush comes; true exactly when no flush is on. */
    method InterruptibleWait(us: int) returns (goOn: bool)
      requires Core()
      modifies this`asked, this`now, this`queue, this`flushing, this`hadIdr, this`frameOffset, this`unlocks
      ensures Core() && Waited() && goOn == !flushing
      ensures old(Valid()) ==> Valid()
      ensures goOn ==> now >= old(now) + us
      ensures Asked(if us > 0 then [us] else [])
    {
      if us > 0 {
        asked := asked + [us];
        Park(now + us);
        Elapse(0);
      }
      goOn := !flushing;
    }

    /** Its loop: wake up now and then until the deadline has passed or a flush came. */
    method Park(deadline: int)
      requires Core()
      modifies this`now, this`queue, this`flushing, this`hadIdr, this`frameOffset, this`unlocks
      ensures Core() && Waited() && (flushing || now >= deadline)
    {
      var wakeups: int := *;
      var timedOut := false;
      while !flushing && !timedOut
        invariant Core() && Waited()
        invariant timedOut ==> now >= deadline
        decreases if wakeups > 0 then wakeups else 0, !timedOut
      {
        timedOut := wakeups <= 0;
        Elapse(if timedOut && deadline > now then deadline - now else 0);
        wakeups := wakeups - 1;
      }
    }

    /** g_async_queue_timeout_pop() up to the pop: wait until the queue holds something or `us` have passed. */
    method WaitForItem(us: nat) returns (some: bool)
      requires Core()
      modifies this`asked, this`now, this`queue, this`flushing, this`hadIdr, this`frameOffset, this`unlocks
      ensures Core() && Waited() && (old(Valid()) ==> Valid())
      ensures if some then queue != [] else queue == [] && old(queue) == [] && now >= old(now) + us
      ensures Asked([us])
    {
      asked := asked + [us];
      Elapse(0);
      if queue == [] { Elapse(us); }
      some := queue != [];
    }

    /** A flush is on or just over, or the stream was stopped. */
    ghost predicate MayDrop()
      reads this`flushing, this`log
    {
      flushing || log.standing.resuming || !log.standing.live
    }

    /** Pop the head; a frame that is released unseen goes on record. */
    method Release() returns (item: QueueItem)
      requires Core() && queue != [] && (queue[0].Buffer? ==> MayDrop())
      modifies this`queue, this`log
      ensures Core() && (old(Valid()) ==> Valid())
      ensures item == old(queue)[0] && queue == old(queue)[1..]
      ensures item.Sentinel? ==>
                Frames(queue) == old(Frames(queue)) && Sentinels(queue) == old(Sentinels(queue)) - 1
                && log == old(log)
      ensures log.history == if item.Buffer? then After(old(log.history), Drop(item.frame, flushing))
              else old(log.history)
      ensures LadderKept()
      ensures Worked([])
    {
      item := queue[0];
      if item.Buffer? {
        DropHead();
      } else {
        FramesHead(queue);
        queue := queue[1..];
      }
    }

    method DropHead()
      requires Core() && queue != [] && queue[0].Buffer? && MayDrop()
      modifies this`queue, this`log
      ensures Core() && (old(Valid()) ==> Valid())
      ensures queue == old(queue)[1..] && log.history == After(old(log.history), Drop(old(queue)[0].frame, flushing))
      ensures LadderKept()
      ensures Worked([])
    {
      FramesHead(queue);
      NumberedTail(Frames(queue), stream, frameOffset);
      Log(Drop(queue[0].frame, flushing));
      queue := queue[1..];
    }

    /** Drop everything queued. */
    method DrainQueue()
      requires Core() && MayDrop()
      modifies this`queue, this`log
      ensures Core() && queue == [] && (old(Valid()) ==> Valid())
      ensures log.history == Drops(old(log.history), Frames(old(queue)), flushing)
      ensures LadderKept()
      ensures Worked([])
    {
      while queue != []
        invariant Core() && (old(Valid()) ==> Valid())
        invariant Drops(log.history, Frames(queue), flushing) == Drops(old(log.history), Frames(old(queue)), flushing)
        invariant LadderKept() && Worked([])
        decreases |queue|
      {
        FramesHead(queue);
        var item := Release();
      }
    }

    // ---------- single calls to libuvc ----------

    /** uvc_find_devices() and the match; the reference it takes is held in `dev` from here on, also while the source
        still has it in a local. */
    method Find() returns (found: bool)
      requires Core() && ctx && !dev && !handle
      modifies this`log, this`dev
      ensures Core() && dev == found && log.history == After(old(log.history), Enumerate(found))
      ensures log.standing == old(log.standing).(held := found)
      ensures Worked([Enumerate(found)]) && LadderKept()
    {
      found := *;
      Log(Enumerate(found));
      dev := found;
    }

    method OpenHandle() returns (ok: bool)
      requires Core() && ctx && dev && !handle
      modifies this`log, this`handle
      ensures Core() && handle == ok && log.history == After(old(log.history), OpenDevice(ok))
      ensures log.standing == old(log.standing).(handle := ok)
      ensures Worked([OpenDevice(ok)]) && LadderKept()
    {
      ok := *;
      Log(OpenDevice(ok));
      handle := ok;
    }

    method CloseHandle()
      requires Core() && handle && !streaming
      modifies this`log, this`handle
      ensures Core() && !handle && log.history == After(old(log.history), Close)
      ensures log.standing == old(log.standing).(handle := false)
      ensures Worked([Close]) && LadderKept()
    {
      Log(Close);
      handle := false;
    }

    method UnrefDevice()
      requires Core() && dev && !handle
      modifies this`log, this`dev
      ensures Core() && !dev && log.history == After(old(log.history), Unref)
      ensures log.standing == old(log.standing).(held := false)
      ensures Worked([Unref]) && LadderKept()
    {
      Log(Unref);
      dev := false;
    }

    /** uvc_start_streaming(): on success the feeder of a new stream exists. */
    method StartStreaming() returns (ok: bool)
      requires Core() && handle && !streaming && !hadIdr && Frames(queue) == []
      modifies this`log, this`streaming, this`feeding, this`stream
      ensures Core() && streaming == feeding == ok && stream == old(stream) + (if ok then 1 else 0)
      ensures log.history == After(old(log.history), StartStream(ok))
      ensures log.standing == old(log.standing).(live := streaming, stream := stream,
                                                           taken := log.standing.taken)
      ensures Worked([StartStream(ok)]) && LadderKept()
    {
      ok := *;
      Log(StartStream(ok));
      if ok { streaming, feeding, stream := true, true, stream + 1; }
    }

    // ---------- the device ----------

    /** What a look and, behind one that found nothing, the time and the wait come to: Some(true) holds the device,
        Some(false) gives up, None looks again. */
    method Look(deadline: int, intervalMs: nat) returns (found: Option<bool>, ghost waited: bool)
      requires Valid() && ctx && !dev && !handle && intervalMs > 0
      modifies this`asked, this`now, this`queue, this`flushing, this`hadIdr, this`frameOffset, this`unlocks, this`log,
               this`dev
      ensures Valid() && Idled() && LadderKept() && dev == (found.Some? && found.value)
      ensures LastAnswer(log.history) == Some(dev) && Worked([Enumerate(dev)])
      ensures found.Some? && !found.value ==> deadline == 0 || flushing || now >= deadline
      ensures found == None ==> waited && deadline != 0 && old(now) < deadline && now >= old(now) + Millis(intervalMs)
      ensures Asked(if waited then [Millis(intervalMs)] else [])
      ensures waited ==> deadline != 0 && !dev
    {
      waited := false;
      var held := Find();
      found := Some(held);
      if held || deadline == 0 || now >= deadline { return; }
      waited := true;
      var goOn := InterruptibleWait(Millis(intervalMs));
      found := if goOn then None else Some(false);
    }

    /** resolve_device(): enumerate until the selector matches, once when there is no deadline; `missed` looks found
        nothing, and behind all of them, or all but the last, came a wait. */
    method ResolveDevice(deadline: int) returns (found: bool, ghost missed: nat, ghost polls: nat)
      requires Valid() && ctx && !dev && !handle
      modifies this`asked, this`now, this`queue, this`flushing, this`hadIdr, this`frameOffset, this`unlocks, this`log,
               this`dev
      ensures Valid() && Idled() && dev == found
      ensures LastAnswer(log.history) == Some(found)
      ensures !found ==> deadline == 0 || flushing || now >= deadline
      ensures Worked(Misses(missed) + if found then [Enumerate(true)] else []) && Asked(Polls(polls))
      ensures if found then polls == missed else missed >= 1 && polls <= missed <= polls + 1
      ensures deadline == 0 ==> polls == 0 && missed == (if found then 0 else 1)
      ensures LadderKept()
    {
      missed, polls := 0, 0;
      var intervalMs := RESET_POLL_INITIAL_MS;
      while true
        invariant Valid() && Idled() && ctx && !dev && !handle && LadderKept()
        invariant Worked(Misses(missed)) && Asked(Polls(polls)) && intervalMs == RetryMs(polls) && polls == missed
        invariant deadline == 0 ==> missed == 0
        decreases if deadline > now then deadline - now else 0
      {
        var look;
        ghost var waited;
        look, waited := Look(deadline, intervalMs);
        if look.Some? && look.value { return true, missed, polls; }
        missed, polls := missed + 1, if waited then polls + 1 else polls;
        if look.Some? { return false, missed, polls; }
        assert waited;
        intervalMs := Min(intervalMs * 2, RESET_POLL_MAX_MS);
      }
    }

    /** uvc_close() and uvc_unref_device(), in this order. */
    method CloseAndUnref()
      requires Core() && handle && !streaming
      modifies this`log, this`handle, this`dev
      ensures Core() && !handle && !dev
      ensures log.history == After(After(old(log.history), Close), Unref)
      ensures LadderKept()
      ensures Worked([Close, Unref])
    {
      CloseHandle();
      UnrefDevice();
    }

    /** uvc_stop_streaming(), which joins the feeder, and uvc_close(). */
    method StopAndClose()
      requires Core() && handle
      modifies this`now, this`queue, this`flushing, this`hadIdr, this`frameOffset, this`unlocks, this`log,
               this`handle, this`streaming, this`feeding
      ensures Core() && !handle && !streaming && !feeding
      ensures now >= old(now) && (old(flushing) ==> flushing)
      ensures log.history == After(After(old(log.history), StopStream), Close)
      ensures LadderKept()
      ensures Worked([StopStream, Close])
    {
      StopFeeder();
      CloseHandle();
    }

    /** teardown_handle(): stop, close, unref. */
    method TeardownHandle()
      requires Core()
      modifies this`now, this`queue, this`flushing, this`hadIdr, this`frameOffset, this`unlocks, this`log,
               this`handle, this`dev, this`streaming, this`feeding
      ensures Core() && !handle && !dev && !streaming && !feeding
      ensures now >= old(now) && (old(flushing) ==> flushing)
      ensures log.history == var h := if old(handle) then After(After(old(log.history), StopStream), Close)
              else old(log.history);
                         if old(dev) then After(h, Unref) else h
      ensures LadderKept()
      ensures Worked(TornDown(old(handle), old(dev)))
    {
      ghost var had, before := handle, log.book.work;
      if handle { StopAndClose(); }
      if dev { UnrefDevice(); }
      Assoc(before, if had then [StopStream, Close] else [], if old(dev) then [Unref] else []);
    }

    /** reopen_once(): resolve, open, renegotiate, re-arm the stream state, start. Every failure gives back what was
        taken; success means a started stream. A failure has a reason: the device's latest answer was no, the
        deadline passed, or a flush came. */
    method ReopenOnce(deadline: int) returns (ok: bool, ghost missed: nat, ghost calls: seq<Call>)
      requires Valid() && ctx && !dev && !handle
      modifies this`asked, this`now, this`queue, this`flushing, this`hadIdr, this`frameOffset, this`unlocks, this`log,
               this`handle, this`dev, this`streaming, this`feeding, this`stream
      ensures Valid() && now >= old(now) && (old(flushing) ==> flushing)
      ensures ok ==> handle && streaming && feeding && stream == old(stream) + 1
      ensures ok ==> LastAnswer(log.history) == Some(true)
      ensures !ok ==> !handle && !dev && !streaming && stream == old(stream)
      ensures !ok ==> LastAnswer(log.history) == Some(false) || (deadline != 0 && (now >= deadline || flushing))
      ensures LadderKept()
      ensures Worked(Misses(missed) + calls) && ReopenedAs(calls, deadline != 0, ok) && (calls == [] ==> missed >= 1)
      ensures deadline == 0 ==> LooksOnce(missed, calls) && Asked([])
      ensures deadline != 0 && old(now) >= deadline ==> calls == [] || calls == [Enumerate(true), Unref]
      ensures AskedWithin(Millis(RESET_POLL_MAX_MS))
    {
      ghost var before := log.book.work;
      ok, missed, calls := ResolveAndOpen(deadline);
      if ok {
        ghost var rest;
        ok, rest := BringUp(deadline);
        Append3(before, Misses(missed), calls, rest);
        calls := calls + rest;
      }
    }

    /** Lines 1715-1756: renegotiate and start on the open handle, or give it back. */
    method BringUp(deadline: int) returns (ok: bool, ghost calls: seq<Call>)
      requires Core() && !log.standing.resuming && handle && !streaming && Frames(queue) == []
      modifies this`now, this`queue, this`flushing, this`hadIdr, this`frameOffset, this`unlocks, this`log,
               this`handle, this`dev, this`streaming, this`feeding, this`stream
      ensures Valid() && now >= old(now) && (old(flushing) ==> flushing)
      ensures ok ==> handle && streaming && feeding && stream == old(stream) + 1
      ensures ok ==> LastAnswer(log.history) == Some(true)
      ensures !ok ==> !handle && !dev && !streaming && stream == old(stream)
      ensures !ok ==> LastAnswer(log.history) == Some(false) || (deadline != 0 && now >= deadline)
      ensures LadderKept()
      ensures Worked(calls) && BroughtUpAs(calls, deadline != 0, ok)
      ensures deadline != 0 && old(now) >= deadline ==> calls == [Close, Unref]
    {
      ghost var before := log.book.work;
      ok := Renegotiate(deadline);
      calls := if log.book.work == before then [] else [Probe(ok)];
      ghost var rest := [Close, Unref];
      if ok {
        ok, rest := StartOrClose(deadline);
      } else {
        CloseAndUnref();
      }
      Assoc(before, calls, rest);
      calls := calls + rest;
    }

    method StartOrClose(deadline: int) returns (ok: bool, ghost calls: seq<Call>)
      requires Core() && !log.standing.resuming && handle && !streaming && Frames(queue) == []
      modifies this`now, this`queue, this`flushing, this`hadIdr, this`frameOffset, this`unlocks, this`log,
               this`handle, this`dev, this`streaming, this`feeding, this`stream
      ensures Valid() && now >= old(now) && (old(flushing) ==> flushing)
      ensures ok ==> handle && streaming && feeding && stream == old(stream) + 1
      ensures ok ==> LastAnswer(log.history) == Some(true)
      ensures !ok ==> !handle && !dev && !streaming && stream == old(stream)
      ensures !ok ==> LastAnswer(log.history) == Some(false) || (deadline != 0 && now >= deadline)
      ensures LadderKept()
      ensures Worked(calls) && BroughtUpAs([Probe(true)] + calls, deadline != 0, ok)
      ensures deadline != 0 && old(now) >= deadline ==> calls == [Close, Unref]
    {
      ghost var before := log.book.work;
      ok := StartFresh(deadline);
      calls := if log.book.work == before then [] else [StartStream(ok)];
      if !ok {
        CloseAndUnref();
        Assoc(before, calls, [Close, Unref]);
        calls := calls + [Close, Unref];
      }
    }

    /** Lines 1733-1755: close the gate, then start. */
    method StartFresh(deadline: int) returns (ok: bool)
      requires Core() && handle && !streaming && Frames(queue) == []
      modifies this`now, this`queue, this`flushing, this`hadIdr, this`frameOffset, this`unlocks, this`log,
               this`streaming, this`feeding, this`stream
      ensures Core() && now >= old(now) && (old(flushing) ==> flushing)
      ensures ok ==> streaming && feeding && stream == old(stream) + 1 && LastAnswer(log.history) == Some(true)
      ensures !ok ==> !streaming && !feeding && stream == old(stream) && Frames(queue) == [] && !hadIdr
      ensures !ok ==> LastAnswer(log.history) == Some(false) || (deadline != 0 && now >= deadline)
      ensures LadderKept()
      ensures Worked([StartStream(ok)]) || (deadline != 0 && !ok && Worked([]))
      ensures deadline != 0 && old(now) >= deadline ==> !ok && Worked([])
    {
      hadIdr := false;
      ok := TryStart(deadline);
    }

    /** Lines 1697-1713: resolve, the deadline, uvc_open(). */
    method ResolveAndOpen(deadline: int) returns (ok: bool, ghost missed: nat, ghost calls: seq<Call>)
      requires Valid() && ctx && !dev && !handle
      modifies this`asked, this`now, this`queue, this`flushing, this`hadIdr, this`frameOffset, this`unlocks, this`log,
               this`handle, this`dev
      ensures Core() && Idled() && handle == dev == ok
      ensures if ok then LastAnswer(log.history) == Some(true)
              else LastAnswer(log.history) == Some(false) || (deadline != 0 && (now >= deadline || flushing))
      ensures LadderKept()
      ensures Worked(Misses(missed) + calls) && OpenedAs(calls, deadline != 0, ok)
      ensures deadline == 0 ==> LooksOnce(missed, calls) && Asked([])
      ensures calls == [] ==> missed >= 1
      ensures deadline != 0 && old(now) >= deadline ==> calls == [] || calls == [Enumerate(true), Unref]
      ensures AskedWithin(Millis(RESET_POLL_MAX_MS))
    {
      ghost var before := log.book.work;
      ghost var polls;
      ok, missed, polls := ResolveDevice(deadline);
      PollsWithin(polls);
      calls := if ok then [Enumerate(true)] else [];
      if ok {
        ghost var rest;
        ok, rest := OpenInTime(deadline);
        Append3(before, Misses(missed), calls, rest);
        calls := calls + rest;
      }
    }

    /** The open, or without time for it or when it fails the reference is given back. */
    method OpenInTime(deadline: int) returns (ok: bool, ghost calls: seq<Call>)
      requires Core() && ctx && dev && !handle
      modifies this`now, this`queue, this`flushing, this`hadIdr, this`frameOffset, this`unlocks, this`log,
               this`handle, this`dev
      ensures Core() && Idled() && handle == dev == ok
      ensures if ok then LastAnswer(log.history) == Some(true)
              else LastAnswer(log.history) == Some(false) || (deadline != 0 && now >= deadline)
      ensures LadderKept()
      ensures Worked(calls) && OpenedAs([Enumerate(true)] + calls, deadline != 0, ok)
      ensures deadline != 0 && old(now) >= deadline ==> calls == [Unref]
    {
      Elapse(0);
      calls := [];
      if deadline != 0 && now >= deadline {
        ok := false;
      } else {
        ok := OpenHandle();
        calls := [OpenDevice(ok)];
      }
      if !ok {
        UnrefDevice();
        calls := calls + [Unref];
      }
    }

    /** Lines 1715-1718: the deadline, then uvc_get_stream_ctrl_format_size(). */
    method Renegotiate(deadline: int) returns (ok: bool)
      requires Core() && handle && !streaming
      modifies this`now, this`queue, this`flushing, this`hadIdr, this`frameOffset, this`unlocks, this`log
      ensures Core() && Idled() && log.standing == old(log.standing)
      ensures ok ==> LastAnswer(log.history) == Some(true)
      ensures !ok ==> LastAnswer(log.history) == Some(false) || (deadline != 0 && now >= deadline)
      ensures LadderKept() && (Worked([Probe(ok)]) || (deadline != 0 && !ok && Worked([])))
      ensures deadline != 0 && old(now) >= deadline ==> !ok && Worked([])
    {
      Elapse(0);
      if deadline != 0 && now >= deadline { return false; }
      ok := *;
      Log(Probe(ok));
    }

    /** Lines 1745-1755: the deadline, then uvc_start_streaming(); on success the feeder of a new stream exists. */
    method TryStart(deadline: int) returns (ok: bool)
      requires Core() && handle && !streaming && !hadIdr && Frames(queue) == []
      modifies this`now, this`queue, this`flushing, this`hadIdr, this`frameOffset, this`unlocks, this`log,
               this`streaming, this`feeding, this`stream
      ensures Core() && now >= old(now) && (old(flushing) ==> flushing)
      ensures ok ==> streaming && feeding && stream == old(stream) + 1 && LastAnswer(log.history) == Some(true)
      ensures !ok ==> !streaming && !feeding && stream == old(stream) && Frames(queue) == [] && !hadIdr
      ensures !ok ==> LastAnswer(log.history) == Some(false) || (deadline != 0 && now >= deadline)
      ensures LadderKept()
      ensures Worked([StartStream(ok)]) || (deadline != 0 && !ok && Worked([]))
      ensures deadline != 0 && old(now) >= deadline ==> !ok && Worked([])
    {
      Elapse(0);
      if deadline != 0 && now >= deadline { return false; }
      ok := StartAndRun();
    }

    /** uvc_start_streaming() and what the new feeder does before the call returns. */
    method StartAndRun() returns (ok: bool)
      requires Core() && handle && !streaming && !hadIdr && Frames(queue) == []
      modifies this`now, this`queue, this`flushing, this`hadIdr, this`frameOffset, this`unlocks, this`log,
               this`streaming, this`feeding, this`stream
      ensures Core() && now >= old(now) && (old(flushing) ==> flushing)
      ensures streaming == feeding == ok && stream == old(stream) + (if ok then 1 else 0)
      ensures !ok ==> Frames(queue) == [] && !hadIdr
      ensures LastAnswer(log.history) == Some(ok)
      ensures LadderKept()
      ensures Worked([StartStream(ok)])
    {
      ok := StartStreaming();
      if ok { Elapse(0); }
    }

    /** One turn of await_first_frame(): Some(true) leaves a real frame at the head, Some(false) gives up, None has
        dropped a stale sentinel. The feeder and unlock() only append, so taking the head at the moment the flag is
        read is taking it when it was popped. */
    method AwaitTurn(deadline: int) returns (r: Option<bool>)
      requires Valid() && streaming
      modifies this`asked, this`now, this`queue, this`flushing, this`hadIdr, this`frameOffset, this`unlocks, this`log
      ensures Valid() && now >= old(now) && (old(flushing) ==> flushing)
      ensures r == Some(true) ==> queue != [] && queue[0].Buffer?
      ensures r == Some(false) ==> flushing || now >= deadline
      ensures r == Some(false) ==> flushing || old(now) >= deadline || queue == []
      ensures r != Some(false) || !flushing ==>
                log == old(log) && old(Frames(queue)) <= Frames(queue)
      ensures r == None ==> Sentinels(queue) < old(Sentinels(queue))
      ensures LadderKept()
      ensures Worked([])
      ensures AskedWithin(deadline - old(now))
      ensures old(now) >= deadline ==>
                r == Some(false) && asked == old(asked) && queue == old(queue) && log == old(log)
      ensures old(queue) != [] && old(queue)[0].Buffer? && old(now) < deadline ==> r == Some(true) || flushing
    {
      if deadline - now <= 0 { return Some(false); }
      var some := WaitForItem(deadline - now);
      if !some { return Some(false); }
      r := LookAtHead();
    }

    /** What was popped: a flush outranks it, a sentinel is dropped, a frame stays at the head. */
    method LookAtHead() returns (r: Option<bool>)
      requires Valid() && streaming && queue != []
      modifies this`now, this`queue, this`flushing, this`hadIdr, this`frameOffset, this`unlocks, this`log
      ensures Valid() && now >= old(now) && (old(flushing) ==> flushing)
      ensures r == Some(true) ==> queue != [] && queue[0].Buffer?
      ensures r == Some(false) ==> flushing
      ensures r != Some(false) ==> !flushing && log == old(log) && old(Frames(queue)) <= Frames(queue)
      ensures r == None ==> Sentinels(queue) < old(Sentinels(queue))
      ensures LadderKept() && Worked([])
      ensures old(queue)[0].Buffer? ==> r == Some(true) || flushing
    {
      Elapse(0);
      r := if flushing then Some(false) else if queue[0].Buffer? then Some(true) else None;
      if r != Some(true) {
        var item := Release();
      }
    }

    /** await_first_frame(): a delivered frame is the only proof that the device is back. On success the frame is at
        the head of the queue, and unless a flush came no frame is lost or reordered. */
    method AwaitFirstFrame(waitUs: int) returns (ok: bool)
      requires Valid() && streaming
      modifies this`asked, this`now, this`queue, this`flushing, this`hadIdr, this`frameOffset, this`unlocks, this`log
      ensures Valid() && now >= old(now) && (old(flushing) ==> flushing)
      ensures ok ==> queue != [] && queue[0].Buffer?
      ensures !ok ==> flushing || now >= old(now) + waitUs
      ensures ok || !flushing ==> log == old(log) && old(Frames(queue)) <= Frames(queue)
      ensures LadderKept()
      ensures Worked([])
      ensures AskedWithin(waitUs)
      ensures waitUs <= 0 ==> !ok && asked == old(asked) && queue == old(queue) && log == old(log)
      ensures old(queue) != [] && old(queue)[0].Buffer? && waitUs > 0 ==> ok || flushing
      ensures !ok && waitUs > 0 && old(Sentinels(queue)) == 0 ==> flushing || queue == []
    {
      var deadline := now + waitUs;
      var r := None;
      while r == None
        invariant Valid() && now >= old(now) && (old(flushing) ==> flushing)
        invariant r == Some(true) ==> queue != [] && queue[0].Buffer?
        invariant r == Some(false) ==> flushing || now >= deadline
        invariant r != Some(false) || !flushing ==>
                    log == old(log) && old(Frames(queue)) <= Frames(queue)
        invariant LadderKept() && Worked([]) && AskedWithin(waitUs)
        invariant waitUs <= 0 ==> r != Some(true) && asked == old(asked) && queue == old(queue) && log == old(log)
        invariant old(queue) != [] && old(queue)[0].Buffer? && waitUs > 0 ==>
                    (r == None && queue == old(queue) && now == old(now)) || r == Some(true) || flushing
        invariant !flushing && old(Sentinels(queue)) == 0 && waitUs > 0 && r == None ==>
                    now == old(now) && Sentinels(queue) == 0
        invariant !flushing && old(Sentinels(queue)) == 0 && waitUs > 0 && r == Some(false) ==> queue == []
        decreases r == None, Sentinels(queue)
      {
        r := AwaitTurn(deadline);
      }
      ok := r.value;
    }

    // ---------- the wedge recovery ----------

    /** settle_until_frame(): reopen until a delivered frame proves the stream, a flush comes, or the deadline passes.
        With a deadline at most `budgetMs` away the device is bothered a bounded number of times, whatever it does. */
    method SettleUntilFrame(deadline: int, attempts: nat, ghost budgetMs: nat)
      returns (ok: bool, attempts': nat, ghost refused: nat, ghost silent: nat)
      requires Valid() && ctx && !dev && !handle && deadline > 0
      requires deadline <= now + Millis(budgetMs)
      modifies this`asked, this`now, this`queue, this`flushing, this`hadIdr, this`frameOffset, this`unlocks, this`log,
               this`handle, this`dev, this`streaming, this`feeding, this`stream
      ensures Valid() && now >= old(now) && (old(flushing) ==> flushing)
      ensures ok ==> handle && streaming && feeding && stream > old(stream) && queue != [] && queue[0].Buffer?
      ensures ok ==> queue[0].frame.stream == stream
      ensures !ok ==> !handle && !dev && !streaming && (flushing || now >= deadline)
      ensures stream >= old(stream)
      ensures refused <= 4 + budgetMs / 200
      ensures silent <= (budgetMs + 999) / 1000
      ensures attempts' == attempts + silent + (if ok then 1 else 0)
      ensures LadderKept()
      ensures !old(flushing) && old(now) < deadline ==> Looked()
    {
      ok, attempts', refused, silent := SettleLoop(deadline, attempts, Millis(budgetMs));
      BudgetBounds(refused, silent, budgetMs);
    }

    /** The loop of settle_until_frame(), with a budget in microseconds. */
    method SettleLoop(deadline: int, attempts: nat, ghost budget: int)
      returns (ok: bool, attempts': nat, ghost refused: nat, ghost silent: nat)
      requires Valid() && ctx && !dev && !handle && deadline > 0 && deadline <= now + budget
      modifies this`asked, this`now, this`queue, this`flushing, this`hadIdr, this`frameOffset, this`unlocks, this`log,
               this`handle, this`dev, this`streaming, this`feeding, this`stream
      ensures Valid() && now >= old(now) && (old(flushing) ==> flushing) && stream >= old(stream)
      ensures ok ==> Proven() && stream > old(stream)
      ensures !ok ==> !handle && !dev && !streaming && (flushing || now >= deadline)
      ensures WithinBudget(refused, silent, budget) && attempts' == attempts + silent + (if ok then 1 else 0)
      ensures LadderKept()
      ensures !old(flushing) && old(now) < deadline ==> Looked()
    {
      attempts', refused, silent := attempts, 0, 0;
      ghost var before := Looks(log.book.work);
      ghost var looked := false;
      var retryMs := RESET_POLL_INITIAL_MS;
      while !flushing && now < deadline
        invariant Valid() && ctx && !dev && !handle && (old(flushing) ==> flushing)
        invariant retryMs == RetryMs(refused) && attempts' == attempts + silent
        invariant Paced(refused, silent, budget, now - old(now), flushing || now >= deadline)
        invariant stream >= old(stream) && LadderKept()
        invariant now >= old(now) && Looks(log.book.work) >= before
        invariant looked == (Looks(log.book.work) > before)
        invariant !looked ==> flushing == old(flushing) && now == old(now)
        decreases if flushing then 0 else 1, deadline - now
      {
        var turn := PacedStep(deadline, retryMs, refused, silent, budget, old(now));
        looked := true;
        if turn == Refused {
          refused := refused + 1;
          retryMs := Min(retryMs * 2, RESET_POLL_MAX_MS);
        } else {
          attempts' := attempts' + 1;
          if turn == Proved { return true, attempts', refused, silent; }
          silent := silent + 1;
        }
      }
      ok := false;
    }

    /** One more reopen, counted. */
    method PacedStep(deadline: int, retryMs: nat, ghost refused: nat, ghost silent: nat, ghost budget: int,
                     ghost start: int)
      returns (turn: Turn)
      requires Valid() && ctx && !dev && !handle && deadline > 0
      requires now < deadline <= start + budget && retryMs == RetryMs(refused)
      requires Paced(refused, silent, budget, now - start, false)
      modifies this`asked, this`now, this`queue, this`flushing, this`hadIdr, this`frameOffset, this`unlocks, this`log,
               this`handle, this`dev, this`streaming, this`feeding, this`stream
      ensures Valid() && now >= old(now) && (old(flushing) ==> flushing) && stream >= old(stream)
      ensures if turn == Proved then Proven() && stream > old(stream) else !handle && !dev && !streaming
      ensures turn == Proved ==> WithinBudget(refused, silent, budget)
      ensures turn == Refused ==> Paced(refused + 1, silent, budget, now - start, flushing || now >= deadline)
      ensures turn == Silent ==> Paced(refused, silent + 1, budget, now - start, flushing || now >= deadline)
      ensures turn != Proved ==> flushing || now > old(now)
      ensures LadderKept() && Looked()
    {
      turn := SettleOrWait(deadline, retryMs);
      PacedTurn(refused, silent, budget, old(now) - start, now - start, flushing || now >= deadline, turn);
    }

    /** A turn, and behind a refusal the wait; a flush in the wait is what the loop looks at next. */
    method SettleOrWait(deadline: int, retryMs: nat) returns (turn: Turn)
      requires Valid() && ctx && !dev && !handle && deadline > 0
      modifies this`asked, this`now, this`queue, this`flushing, this`hadIdr, this`frameOffset, this`unlocks, this`log,
               this`handle, this`dev, this`streaming, this`feeding, this`stream
      ensures Valid() && now >= old(now) && (old(flushing) ==> flushing) && stream >= old(stream)
      ensures if turn == Proved then Proven() && stream > old(stream) else !handle && !dev && !streaming
      ensures turn == Refused ==> flushing || now >= old(now) + Millis(retryMs)
      ensures turn == Silent ==> flushing || now >= deadline || now >= old(now) + SECOND
      ensures LadderKept()
      ensures Looked()
      ensures turn == Refused && retryMs > 0 ==> asked != [] && asked[|asked| - 1] == Millis(retryMs)
    {
      ghost var missed, calls, before := 0, [], log.book.work;
      turn, missed, calls := SettleTurn(deadline);
      ReopenLooks(before, missed, calls, if turn == Silent then [StopStream, Close, Unref] else []);
      if turn == Refused {
        var goOn := InterruptibleWait(Millis(retryMs));
      }
    }

    /** One turn of the settle loop: reopen and demand a frame within a second or what is left of the budget; a
        stream that starts and stays silent is torn down again. */
    method SettleTurn(deadline: int) returns (turn: Turn, ghost missed: nat, ghost calls: seq<Call>)
      requires Valid() && ctx && !dev && !handle && deadline > 0
      modifies this`asked, this`now, this`queue, this`flushing, this`hadIdr, this`frameOffset, this`unlocks, this`log,
               this`handle, this`dev, this`streaming, this`feeding, this`stream
      ensures Valid() && now >= old(now) && (old(flushing) ==> flushing)
      ensures if turn == Proved then Proven() else !handle && !dev && !streaming
      ensures stream == old(stream) + if turn == Refused then 0 else 1
      ensures turn == Refused ==> LastAnswer(log.history) == Some(false) || now >= deadline || flushing
      ensures turn == Silent ==> flushing || now >= deadline || now >= old(now) + SECOND
      ensures LadderKept()
      ensures ReopenedAs(calls, true, turn != Refused) && (calls == [] ==> missed >= 1)
      ensures Worked(Misses(missed) + calls + if turn == Silent then [StopStream, Close, Unref] else [])
      ensures AskedWithin(Max(Millis(RESET_POLL_MAX_MS), Min(deadline - old(now), TIMEOUT_DURATION)))
    {
      var reopened;
      reopened, missed, calls := ReopenOnce(deadline);
      turn := Refused;
      if !reopened { return; }
      var proved := ProveOrDrop(deadline);
      turn := if proved then Proved else Silent;
    }

    /** The new stream proves itself, or it is given back. */
    method ProveOrDrop(deadline: int) returns (proved: bool)
      requires Valid() && handle && streaming && feeding
      modifies this`asked, this`now, this`queue, this`flushing, this`hadIdr, this`frameOffset, this`unlocks, this`log,
               this`handle, this`dev, this`streaming, this`feeding
      ensures Valid() && now >= old(now) && (old(flushing) ==> flushing)
      ensures if proved then Proven() else !handle && !dev && !streaming
      ensures !proved ==> flushing || now >= deadline || now >= old(now) + SECOND
      ensures LadderKept() && Worked(if proved then [] else [StopStream, Close, Unref])
      ensures AskedWithin(Min(deadline - old(now), TIMEOUT_DURATION))
    {
      proved := AwaitProof(deadline);
      if proved { FramesHead(queue); } else { DropStream(); }
    }

    /** A frame within a second, or within what is left of the budget. */
    method AwaitProof(deadline: int) returns (proved: bool)
      requires Valid() && streaming
      modifies this`asked, this`now, this`queue, this`flushing, this`hadIdr, this`frameOffset, this`unlocks, this`log
      ensures Valid() && now >= old(now) && (old(flushing) ==> flushing)
      ensures proved ==> queue != [] && queue[0].Buffer?
      ensures !proved ==> flushing || now >= deadline || now >= old(now) + SECOND
      ensures LadderKept() && Worked([])
      ensures AskedWithin(Min(deadline - old(now), TIMEOUT_DURATION))
      ensures old(queue) != [] && old(queue)[0].Buffer? && old(now) < deadline ==> proved || flushing
    {
      proved := false;
      var proofUs := Min(deadline - now, TIMEOUT_DURATION);
      if proofUs > 0 { proved := AwaitFirstFrame(proofUs); }
    }

    /** deep_recovery(): the rung below the port reset, opted into and once per start(). What it does to sysfs is
        PortRecovery's; here it has acted or not. */
    method DeepRecovery() returns (acted: bool)
      requires Valid() && !handle && log.standing.phase == SettledDry
      modifies this`now, this`queue, this`flushing, this`hadIdr, this`frameOffset, this`unlocks, this`log,
               this`deepRecoveryUsed
      ensures Valid() && now >= old(now) && (old(flushing) ==> flushing)
      ensures if deepPortRecovery && !old(deepRecoveryUsed) then
                deepRecoveryUsed && log.history == After(old(log.history), Deep(acted))
                && log.standing == old(log.standing).(deepRuns := 1, phase := if acted then Deepened else Idle)
              else
                !acted && deepRecoveryUsed == old(deepRecoveryUsed) && log.history == old(log.history)
                && log.standing == old(log.standing)
      ensures Climbed(if deepPortRecovery && !old(deepRecoveryUsed) then [Deep(acted)] else [])
    {
      if !deepPortRecovery || deepRecoveryUsed { return false; }
      acted := RunDeepRecovery();
      Elapse(0);
    }

    /** The escalation itself, marked as used whatever comes of it. */
    method RunDeepRecovery() returns (acted: bool)
      requires Valid() && !handle && log.standing.phase == SettledDry && !deepRecoveryUsed
      modifies this`log, this`deepRecoveryUsed
      ensures Valid() && deepRecoveryUsed && log.history == After(old(log.history), Deep(acted))
      ensures log.standing == old(log.standing).(deepRuns := 1, phase := if acted then Deepened else Idle)
    {
      deepRecoveryUsed := true;
      acted := *;
      Log(Deep(acted));
    }

    /** uvc_exit() and uvc_init() across a re-enumeration. */
    method ReinitContext() returns (ok: bool)
      requires Valid() && ctx && !dev && !handle
      modifies this`log, this`ctx
      ensures Valid() && ctx == ok
      ensures log.history == After(After(old(log.history), Exit), Init(ok))
      ensures PhaseKept()
      ensures Climbed([Exit, Init(ok)]) && Worked([])
    {
      Log(Exit);
      ctx := false;
      ok := *;
      Log(Init(ok));
      ctx := ok;
    }

    /** A settle pass with its verdict on record. */
    method SettlePass(budgetMs: nat, deadline: int, attempts: nat) returns (ok: bool, attempts': nat)
      requires Valid() && ctx && !dev && !handle && 0 < deadline <= now + Millis(budgetMs)
      requires log.standing.phase == WasReset || log.standing.phase == Deepened
      modifies this`asked, this`now, this`queue, this`flushing, this`hadIdr, this`frameOffset, this`unlocks, this`log,
               this`handle, this`dev, this`streaming, this`feeding, this`stream
      ensures Valid() && now >= old(now) && (old(flushing) ==> flushing)
      ensures stream >= old(stream) && (ok ==> Proven() && stream > old(stream))
      ensures !ok ==> !handle && !dev && !streaming && (flushing || now >= deadline)
      ensures attempts <= attempts' <= attempts + (budgetMs + 999) / 1000 + 1
      ensures TalliesKept()
              && log.standing.phase == (if old(log.standing).phase == WasReset && !ok then SettledDry else Idle)
      ensures Climbed([Settle(ok)]) && (!old(flushing) && old(now) < deadline ==> Looked())
    {
      ghost var refused, silent;
      ok, attempts', refused, silent := SettleUntilFrame(deadline, attempts, budgetMs);
      Log(Settle(ok));
    }

    /** A live stream, and a frame of it at the head of the queue. */
    ghost predicate Proven()
      reads this
    {
      handle && streaming && feeding && queue != [] && queue[0].Buffer? && queue[0].frame.stream == stream
    }

    /** reset_silent_device(): the port reset needs a handle. */
    method ResetSilentDevice() returns (ok: bool)
      requires Valid() && log.standing.phase == Attempted
      modifies this`now, this`queue, this`flushing, this`hadIdr, this`frameOffset, this`unlocks, this`log
      ensures Valid() && now >= old(now) && (old(flushing) ==> flushing)
      ensures if handle then log.history == After(old(log.history), PortReset(ok))
                             && log.standing == old(log.standing).(phase := if ok then WasReset else Idle)
              else !ok && log == old(log)
    {
      if !handle { return false; }
      ok := *;
      Log(PortReset(ok));
      Elapse(0);
    }

    /** Lines 1978-2009: drop the handle and the context that straddled the reset, then settle. */
    method SettleAfterReset(budgetMs: nat) returns (ok: bool, attempts: nat)
      requires Valid() && handle && log.standing.phase == WasReset
      modifies this`asked, this`now, this`queue, this`flushing, this`hadIdr, this`frameOffset, this`unlocks, this`log,
               this`handle, this`dev, this`ctx, this`streaming, this`feeding, this`stream
      ensures Valid() && now >= old(now) && (old(flushing) ==> flushing)
      ensures stream >= old(stream) && (ok ==> Proven() && stream > old(stream))
      ensures !ok ==> !handle && !dev && !streaming
      ensures !ok && ctx ==> log.standing.phase == SettledDry
      ensures TalliesKept()
      ensures Climbed(Repass(ctx, ok)) && (ok ==> ctx)
      ensures attempts <= if ctx then (budgetMs + 999) / 1000 + 1 else 0
    {
      attempts := 0;
      var deadline := now + Millis(budgetMs);
      DropStream();
      ok := ReinitContext();
      if ok { ok, attempts := SettlePass(budgetMs, deadline, 0); }
    }

    /** Lines 2011-2038: one escalation, and only if it acted a second pass with a budget of its own. */
    method Escalate(budgetMs: nat, attempts: nat) returns (ok: bool, ghost calls: seq<Call>)
      requires Valid() && ctx && !dev && !handle && log.standing.phase == SettledDry
      modifies this`asked, this`now, this`queue, this`flushing, this`hadIdr, this`frameOffset, this`unlocks, this`log,
               this`handle, this`dev, this`ctx, this`streaming, this`feeding, this`stream, this`deepRecoveryUsed
      ensures Valid() && now >= old(now) && (old(flushing) ==> flushing)
      ensures stream >= old(stream) && (ok ==> Proven() && stream > old(stream))
      ensures !ok ==> !handle && !dev && !streaming
      ensures old(flushing || deepRecoveryUsed) || !deepPortRecovery ==> !ok && log.history == old(log.history)
      ensures CountsKept()
      ensures Climbed(calls) && EscalatedAs(calls, !old(flushing || deepRecoveryUsed) && deepPortRecovery, ok)
    {
      ok, calls := false, [];
      if flushing { return; }
      var acted := DeepRecovery();
      calls := if deepPortRecovery && !old(deepRecoveryUsed) then [Deep(acted)] else [];
      if acted {
        ok := SettleAgain(budgetMs, attempts);
        calls := calls + Repass(ctx, ok);
      }
    }

    /** Lines 2017-2037: a new context and a second pass with a budget of its own. */
    method SettleAgain(budgetMs: nat, attempts: nat) returns (ok: bool)
      requires Valid() && ctx && !dev && !handle && log.standing.phase == Deepened
      modifies this`asked, this`now, this`queue, this`flushing, this`hadIdr, this`frameOffset, this`unlocks, this`log,
               this`handle, this`dev, this`ctx, this`streaming, this`feeding, this`stream
      ensures Valid() && now >= old(now) && (old(flushing) ==> flushing)
      ensures stream >= old(stream) && (ok ==> Proven() && stream > old(stream))
      ensures !ok ==> !handle && !dev && !streaming
      ensures TalliesKept()
      ensures Climbed(Repass(ctx, ok)) && (ok ==> ctx)
    {
      ok := ReinitContext();
      if ok {
        var total;
        ok, total := SettlePass(budgetMs, now + Millis(budgetMs), attempts);
      }
    }

    /** The deep rung is permitted: opted into, unused, and no flush came first. */
    twostate predicate Permits(permitted: bool)
      reads this`deepPortRecovery, this`flushing, this`deepRecoveryUsed
    {
      if !deepPortRecovery || old(deepRecoveryUsed) then !permitted else flushing || permitted
    }

    /** Lines 1978-2038: behind the reset settle, and if that fails escalate. */
    method SettleOrEscalate() returns (ok: bool, ghost calls: seq<Call>, ghost permitted: bool)
      requires Valid() && handle && log.standing.phase == WasReset
      modifies this`asked, this`now, this`queue, this`flushing, this`hadIdr, this`frameOffset, this`unlocks, this`log,
               this`handle, this`dev, this`ctx, this`streaming, this`feeding, this`stream, this`deepRecoveryUsed
      ensures Valid() && now >= old(now) && (old(flushing) ==> flushing)
      ensures stream >= old(stream) && (ok ==> Proven() && stream > old(stream))
      ensures !ok ==> !handle && !dev && !streaming
      ensures CountsKept()
      ensures Climbed(calls) && SettledAs(calls, permitted, ok) && Permits(permitted)
    {
      ghost var before := log.book.ladder;
      permitted := deepPortRecovery && !deepRecoveryUsed;
      var attempts;
      ok, attempts := SettleAfterReset(settleMaxMs);
      calls := Repass(ctx, ok);
      if !ok && ctx {
        ghost var rest;
        permitted := permitted && !flushing;
        ok, rest := Escalate(settleMaxMs, attempts);
        Assoc(before, calls, rest);
        assert (calls + rest)[..3] == calls && (calls + rest)[3..] == rest;
        calls := calls + rest;
      }
    }

    /** recover_wedged_device(): one port reset, then settle; at most one deep escalation, then settle once more.
        TRUE only with a live stream started by this recovery and a frame of it back at the head of the queue. */
    method RecoverWedgedDevice() returns (ok: bool, ghost calls: seq<Call>, ghost permitted: bool)
      requires Valid() && log.standing.phase == Attempted
      modifies this`asked, this`now, this`queue, this`flushing, this`hadIdr, this`frameOffset, this`unlocks, this`log,
               this`handle, this`dev, this`ctx, this`streaming, this`feeding, this`stream, this`deepRecoveryUsed
      ensures Valid() && now >= old(now) && (old(flushing) ==> flushing)
      ensures stream >= old(stream) && (ok ==> Proven() && stream > old(stream))
      ensures !ok ==>
                || (!handle && !dev && !streaming)
                || ((log.history == old(log.history) || log.history == After(old(log.history), PortReset(false)))
                    && handle == old(handle) && dev == old(dev) && ctx == old(ctx) && streaming == old(streaming)
                    && stream == old(stream))
      ensures CountsKept()
      ensures if selectorOk && old(handle) then Climbed(calls) && RecoveredAs(calls, permitted, ok)
              && Permits(permitted)
              else calls == [] && !ok && log.history == old(log.history)
    {
      ok, calls, permitted := false, [], false;
      if !selectorOk { return; }
      ghost var before := log.book.ladder;
      ok := ResetSilentDevice();
      if handle { calls, permitted := [PortReset(ok)], deepPortRecovery && !deepRecoveryUsed; }
      if !ok { return; }
      ghost var rest;
      ok, rest, permitted := SettleOrEscalate();
      Assoc(before, calls, rest);
      assert (calls + rest)[1..] == rest;
      calls := calls + rest;
    }

    // ---------- reconnect ----------

    /** teardown_handle() and drain_queue(): nothing of the old stream is left. */
    method DropStream()
      requires Core() && !log.standing.resuming
      modifies this`now, this`queue, this`flushing, this`hadIdr, this`frameOffset, this`unlocks, this`log,
               this`handle, this`dev, this`streaming, this`feeding
      ensures Valid() && !handle && !dev && !streaming && !feeding && queue == []
      ensures now >= old(now) && (old(flushing) ==> flushing)
      ensures LadderKept()
      ensures Worked(TornDown(old(handle), old(dev)))
    {
      TeardownHandle();
      DrainQueue();
    }

    /** One backoff and one reopen: Some(true) is a new stream, Some(false) a flush, None a refusal. */
    method ReconnectTurn(backoffS: nat) returns (turn: Option<bool>)
      requires Valid() && ctx && !dev && !handle
      modifies this`asked, this`now, this`queue, this`flushing, this`hadIdr, this`frameOffset, this`unlocks, this`log,
               this`handle, this`dev, this`streaming, this`feeding, this`stream
      ensures Valid() && now >= old(now) && (old(flushing) ==> flushing)
      ensures if turn == Some(true) then handle && streaming && feeding && stream == old(stream) + 1
              else !handle && !dev && !streaming && stream == old(stream)
      ensures turn == Some(false) ==> flushing
      ensures turn == None ==> now >= old(now) + Seconds(backoffS) && LastAnswer(log.history) == Some(false)
      ensures LadderKept()
      ensures Looks(log.book.work) == Looks(old(log).book.work) + (if turn == Some(false) then 0 else 1)
      ensures backoffS > 0 ==> Asked([Seconds(backoffS)])
    {
      var goOn := InterruptibleWait(Seconds(backoffS));
      if !goOn { return Some(false); }
      ghost var before := log.book.work;
      var ok;
      ghost var missed, tried;
      ok, missed, tried := ReopenOnce(0);
      OneLook(missed, tried, ok);
      LooksAppend(before, Misses(missed) + tried);
      turn := if ok then Some(true) else None;
    }

    /** reconnect_bounded(): tear down, then up to `maxRetries` reopens behind a doubling backoff. It gives up only on
        a bad selector, on a flush, or after the whole backoff has been waited out. */
    method ReconnectBounded(maxRetries: nat) returns (ok: bool, ghost waits: nat)
      requires Valid() && ctx
      modifies this`asked, this`now, this`queue, this`flushing, this`hadIdr, this`frameOffset, this`unlocks, this`log,
               this`handle, this`dev, this`streaming, this`feeding, this`stream
      ensures Valid() && now >= old(now) && (old(flushing) ==> flushing)
      ensures ok ==> handle && streaming && feeding && stream == old(stream) + 1
      ensures !ok && selectorOk ==> !handle && !dev && !streaming && stream == old(stream)
      ensures !ok && selectorOk ==> flushing || now >= old(now) + Seconds(BackoffS(maxRetries) - 1)
      ensures !selectorOk ==> !ok && log.history == old(log.history)
      ensures LadderKept()
      ensures if selectorOk then Asked(Backoffs(waits)) && waits <= maxRetries else Worked([]) && waits == 0
      ensures var looks := Looks(log.book.work) - Looks(old(log.book).work);
              selectorOk ==> looks == waits || (!ok && flushing && looks == waits - 1)
      ensures selectorOk && !ok ==> flushing || waits == maxRetries
    {
      ok, waits := false, 0;
      if !selectorOk { return; }
      TornDownLooks(log.book.work, handle, dev);
      DropStream();
      ok, waits := ReconnectLoop(maxRetries);
    }

    /** The attempts behind their backoffs: 1, 2, 4, ... seconds. */
    method ReconnectLoop(maxRetries: nat) returns (ok: bool, ghost waits: nat)
      requires Valid() && ctx && !dev && !handle
      modifies this`asked, this`now, this`queue, this`flushing, this`hadIdr, this`frameOffset, this`unlocks, this`log,
               this`handle, this`dev, this`streaming, this`feeding, this`stream
      ensures Valid() && now >= old(now) && (old(flushing) ==> flushing)
      ensures ok ==> handle && streaming && feeding && stream == old(stream) + 1
      ensures !ok ==> !handle && !dev && !streaming && stream == old(stream)
      ensures !ok ==> flushing || now >= old(now) + Seconds(BackoffS(maxRetries) - 1)
      ensures LadderKept()
      ensures Asked(Backoffs(waits)) && waits <= maxRetries
      ensures var looks := Looks(log.book.work) - Looks(old(log).book.work);
              looks == waits || (!ok && flushing && looks + 1 == waits)
      ensures if ok then waits >= 1 else flushing || waits == maxRetries
    {
      var backoffS := RECONNECT_BACKOFF_INITIAL_S;
      var attempt := 0;
      waits := 0;
      while attempt < maxRetries
        invariant 0 <= attempt <= maxRetries
        invariant Valid() && ctx && !dev && !handle && stream == old(stream) && now >= old(now)
                  && (old(flushing) ==> flushing)
        invariant backoffS == BackoffS(attempt)
        invariant now >= old(now) + Seconds(backoffS - 1)
        invariant LadderKept() && Asked(Backoffs(attempt)) && attempt == waits
        invariant Looks(log.book.work) == Looks(old(log).book.work) + attempt
      {
        var turn := ReconnectTurn(backoffS);
        Assoc(old(asked), Backoffs(attempt), [Seconds(backoffS)]);
        waits := attempt + 1;
        if turn.Some? { return turn.value, waits; }
        backoffS := backoffS * 2;
        attempt := attempt + 1;
      }
      ok := false;
    }

    // ---------- create ----------

    /** create() in front of its loop: start the stream if it is not running. `cleanRetry` is the outcome of the
        max-payload fallback: an override was set and the clean renegotiation went through. */
    method CreateBegin(cleanRetry: bool) returns (flow: Flow)
      requires Valid()
      modifies this`now, this`queue, this`flushing, this`hadIdr, this`frameOffset, this`unlocks, this`log,
               this`streaming, this`feeding, this`stream
      ensures Valid() && now >= old(now) && (old(flushing) ==> flushing)
      ensures flow == Again || flow == Error
      ensures flow == Again ==> streaming
      ensures old(streaming) ==> flow == Again && log.history == old(log.history) && queue == old(queue)
      ensures flow == Error ==> !streaming && !feeding && stream == old(stream)
      ensures !old(streaming) && !handle ==> flow == Error && log.history == After(old(log.history), StartWithoutHandle)
      ensures !old(streaming) && handle ==> (flow == Again <==> LastAnswer(log.history) == Some(true))
      ensures LadderKept()
      ensures !old(streaming) && handle ==>
                || Worked([StartStream(flow == Again)])
                || (cleanRetry && Worked([StartStream(false), StartStream(flow == Again)]))
      ensures !old(streaming) && handle && cleanRetry && flow == Error ==>
                Worked([StartStream(false), StartStream(false)])
    {
      if streaming { return Again; }
      if !handle {
        Log(StartWithoutHandle);
        return Error;
      }
      var ok := TryStart(0);
      if !ok && cleanRetry { ok := TryStart(0); }
      flow := if ok then Again else Error;
    }

    /** The head frame goes out. */
    method TakeHead() returns (frame: Frame)
      requires Valid() && Booked() && streaming && queue != [] && queue[0].Buffer?
      modifies this`queue, this`log
      ensures Valid() && frame == old(queue)[0].frame && queue == old(queue)[1..]
      ensures old(Frames(queue)) == [frame] + Frames(queue)
      ensures log.history == After(old(log.history), Out(frame))
      ensures log.standing.attempts == old(log.standing).attempts
      ensures resetRecoveryUsed ==>
                Paid(true, framesSinceReset + 1, lowestRearm, log.standing.attempts, log.standing.returned)
    {
      FramesHead(queue);
      NumberedTail(Frames(queue), stream, frameOffset);
      frame := queue[0].frame;
      assert Frames(queue) == [frame] + Frames(queue[1..]);
      Log(Out(frame));
      queue := queue[1..];
    }

    /** Silence is over, and the one-shot re-arms once enough frames came. */
    method BookFrame()
      requires Valid() && Booked()
      requires resetRecoveryUsed ==>
                 Paid(true, framesSinceReset + 1, lowestRearm, log.standing.attempts, log.standing.returned)
      modifies this`consecutiveTimeouts, this`framesSinceReset, this`resetRecoveryUsed
      ensures Valid() && Booked() && consecutiveTimeouts == 0
      ensures framesSinceReset == old(framesSinceReset) + (if old(resetRecoveryUsed) then 1 else 0)
      ensures resetRecoveryUsed == (old(resetRecoveryUsed) && framesSinceReset < rearmFrames)
    {
      consecutiveTimeouts := 0;
      if resetRecoveryUsed {
        PaidFrame(framesSinceReset, rearmFrames, lowestRearm, log.standing.attempts, log.standing.returned);
        framesSinceReset := framesSinceReset + 1;
        if framesSinceReset >= rearmFrames { resetRecoveryUsed := false; }
      }
    }

    /** A real frame leaves through create(). */
    method ReturnFrame() returns (frame: Frame)
      requires Valid() && Booked() && streaming && queue != [] && queue[0].Buffer?
      modifies this`queue, this`log, this`consecutiveTimeouts, this`framesSinceReset, this`resetRecoveryUsed
      ensures Valid() && Booked() && frame == old(queue)[0].frame && queue == old(queue)[1..]
      ensures old(Frames(queue)) == [frame] + Frames(queue)
      ensures log.history == After(old(log.history), Out(frame)) && log.standing.attempts == old(log.standing).attempts
      ensures consecutiveTimeouts == 0
      ensures framesSinceReset == old(framesSinceReset) + (if old(resetRecoveryUsed) then 1 else 0)
      ensures resetRecoveryUsed == (old(resetRecoveryUsed) && framesSinceReset < rearmFrames)
    {
      frame := TakeHead();
      BookFrame();
    }

    /** A fifth silent second would start a wedge recovery. */
    ghost predicate MayAttempt()
      reads this`reconnectEnabled, this`autoPortReset, this`resetRecoveryUsed
    {
      !reconnectEnabled && autoPortReset && !resetRecoveryUsed
    }

    /** What the ladder's rungs say of a fifth silent second: with reconnect on nothing; otherwise, where it may be, one
        attempt, and on a valid selector and a handle the whole recovery. */
    twostate predicate LadderClimbed(ok: bool, calls: seq<Call>, permitted: bool)
      reads this
    {
      if !old(MayAttempt()) then calls == [] && Climbed([])
      else
        && Climbed([Attempt(false, true)] + calls)
        && if old(selectorOk && handle) then RecoveredAs(calls, permitted, ok) && Permits(permitted)
           else calls == [] && !ok
    }

    /** An error comes only behind all that the ladder offers: five reopens behind their backoffs, or the one
        attempt. */
    twostate predicate LadderSpent()
      reads this
    {
      if old(reconnectEnabled) then old(selectorOk) ==> ReconnectSpent()
      else old(MayAttempt()) ==> log.standing.attempts == old(log.standing).attempts + 1
    }

    /** Lines 2174-2212: the rung that is due, if one is. */
    method Climb() returns (ok: bool, ghost calls: seq<Call>, ghost permitted: bool)
      requires Valid() && Booked() && streaming && ctx
      modifies this`asked, this`now, this`queue, this`flushing, this`hadIdr, this`frameOffset, this`unlocks, this`log,
               this`handle, this`dev, this`ctx, this`streaming, this`feeding, this`stream, this`deepRecoveryUsed,
               this`resetRecoveryUsed, this`framesSinceReset
      ensures Valid() && Booked() && now >= old(now) && (old(flushing) ==> flushing)
      ensures ok ==> handle && streaming && stream > old(stream)
      ensures ok && !reconnectEnabled ==> Proven() && old(MayAttempt()) && resetRecoveryUsed
      ensures !old(reconnectEnabled) && !old(MayAttempt()) ==> !ok && log == old(log)
      ensures old(MayAttempt()) ==> resetRecoveryUsed
      ensures log.standing.attempts == old(log.standing).attempts + (if old(MayAttempt()) then 1 else 0)
      ensures log.standing.returned == old(log.standing).returned
      ensures LadderClimbed(ok, calls, permitted)
      ensures !ok && !flushing ==> LadderSpent()
    {
      ok, calls, permitted := false, [], false;
      if reconnectEnabled {
        ok := ReconnectRung();
      } else if !resetRecoveryUsed && autoPortReset {
        ok, calls, permitted := WedgeRung();
      }
    }

    /** The fifth silent second in a row: reconnect if that is opted into, otherwise one wedge recovery per episode if
        that is not opted out of. Again means a new stream is up. */
    method SilenceLadder() returns (flow: Flow, ghost calls: seq<Call>, ghost permitted: bool)
      requires Valid() && Booked() && streaming && ctx
      modifies this`asked, this`now, this`queue, this`flushing, this`hadIdr, this`frameOffset, this`unlocks, this`log,
               this`handle, this`dev, this`ctx, this`streaming, this`feeding, this`stream, this`deepRecoveryUsed,
               this`resetRecoveryUsed, this`framesSinceReset, this`consecutiveTimeouts
      ensures Valid() && Booked() && now >= old(now) && (old(flushing) ==> flushing)
      ensures flow == Again || flow == Flushing || flow == Error
      ensures flow == Again ==> handle && streaming && stream > old(stream) && consecutiveTimeouts == 0
      ensures flow == Again && !reconnectEnabled ==> Proven() && old(MayAttempt()) && resetRecoveryUsed
      ensures flow == Flushing ==> flushing
      ensures flow == Error ==> !flushing
      ensures !old(reconnectEnabled) && (old(resetRecoveryUsed) || !old(autoPortReset)) ==>
                flow != Again && log.history == old(log.history)
      ensures old(MayAttempt()) ==> resetRecoveryUsed
      ensures log.standing.attempts == old(log.standing).attempts + (if old(MayAttempt()) then 1 else 0)
      ensures log.standing.returned == old(log.standing).returned
      ensures LadderClimbed(flow == Again, calls, permitted)
      ensures flow == Error ==> LadderSpent()
    {
      var ok;
      ok, calls, permitted := Climb();
      if ok {
        consecutiveTimeouts := 0;
        flow := Again;
        return;
      }
      flow := if flushing then Flushing else Error;
    }

    /** The attempt goes on the books before it is made. */
    method BookAttempt()
      requires Valid() && Booked() && streaming && !reconnectEnabled && autoPortReset && !resetRecoveryUsed
      modifies this`log, this`resetRecoveryUsed, this`framesSinceReset
      ensures Valid() && Booked() && resetRecoveryUsed && log.standing.phase == Attempted
      ensures log.standing == old(log.standing).(attempts := old(log.standing).attempts + 1, phase := Attempted)
      ensures Climbed([Attempt(false, true)])
    {
      Log(Attempt(reconnectEnabled, autoPortReset));
      resetRecoveryUsed := true;
      framesSinceReset := 0;
    }

    /** Five reopens behind backoffs of 1, 2, 4, 8 and 16 seconds. */
    twostate predicate ReconnectSpent()
      reads this`log, this`asked
    {
      && EndsWith(asked, [1000000, 2000000, 4000000, 8000000, 16000000])
      && Looks(log.book.work) == Looks(old(log).book.work) + 5
    }

    /** Lines 2174-2178: reconnect; it gives up only behind all it offers, on a flush, or on a bad selector. */
    method ReconnectRung() returns (ok: bool)
      requires Valid() && streaming && ctx
      modifies this`asked, this`now, this`queue, this`flushing, this`hadIdr, this`frameOffset, this`unlocks, this`log,
               this`handle, this`dev, this`streaming, this`feeding, this`stream
      ensures Valid() && now >= old(now) && (old(flushing) ==> flushing)
      ensures ok ==> handle && streaming && feeding && stream == old(stream) + 1
      ensures LadderKept()
      ensures !ok && !flushing && selectorOk ==> ReconnectSpent()
    {
      ghost var waits;
      ok, waits := ReconnectBounded(RECONNECT_MAX_RETRIES);
      BackoffsAre();
    }

    /** Lines 2202-2208: arm the one-shot, then recover. */
    method WedgeRung() returns (ok: bool, ghost calls: seq<Call>, ghost permitted: bool)
      requires Valid() && Booked() && streaming && ctx && !reconnectEnabled && autoPortReset && !resetRecoveryUsed
      modifies this`asked, this`now, this`queue, this`flushing, this`hadIdr, this`frameOffset, this`unlocks, this`log,
               this`handle, this`dev, this`ctx, this`streaming, this`feeding, this`stream, this`deepRecoveryUsed,
               this`resetRecoveryUsed, this`framesSinceReset
      ensures Valid() && Booked() && now >= old(now) && (old(flushing) ==> flushing)
      ensures stream >= old(stream) && (ok ==> Proven() && stream > old(stream))
      ensures resetRecoveryUsed && log.standing.attempts == old(log.standing).attempts + 1
      ensures log.standing.returned == old(log.standing).returned
      ensures LadderClimbed(ok, calls, permitted)
    {
      ghost var before := log.book.ladder;
      BookAttempt();
      ok, calls, permitted := RecoverWedgedDevice();
      Assoc(before, [Attempt(false, true)], calls);
    }

    /** The pop of create()'s loop and what it makes of the item: a flush outranks it, a stale sentinel is dropped, a
        real frame stays at the head for ReturnFrame. */
    method AwaitItem() returns (got: Got)
      requires Valid() && streaming
      modifies this`asked, this`now, this`queue, this`flushing, this`hadIdr, this`frameOffset, this`unlocks, this`log
      ensures Valid() && now >= old(now) && (old(flushing) ==> flushing)
      ensures got == Flush <==> flushing
      ensures got == Nothing ==> now >= old(now) + 1000000 && old(queue) == []
      ensures got == Nothing && queue != [] ==> queue[0].Buffer? && queue[0].at >= old(now) + 1000000
      ensures Asked([TIMEOUT_DURATION]) && Worked([])
      ensures got == Real ==> queue != [] && queue[0].Buffer?
      ensures got != Flush ==> log == old(log) && old(Frames(queue)) <= Frames(queue)
      ensures got != Flush ==> Sentinels(queue) + (if got == Stale then 1 else 0) == old(Sentinels(queue))
      ensures LadderKept()
    {
      var some := WaitForItem(TIMEOUT_DURATION);
      Elapse(0);
      got := if flushing then Flush else if !some then Nothing else if queue[0].Buffer? then Real else Stale;
      if some && got != Real {
        var item := Release();
      }
    }

    /** A pop that timed out: below the fifth in a row only the counter moves, at the fifth the ladder decides. */
    method SilentSecond() returns (flow: Flow, ghost calls: seq<Call>, ghost permitted: bool)
      requires Valid() && Booked() && streaming
      modifies this`asked, this`now, this`queue, this`flushing, this`hadIdr, this`frameOffset, this`unlocks, this`log,
               this`handle, this`dev, this`ctx, this`streaming, this`feeding, this`stream, this`deepRecoveryUsed,
               this`resetRecoveryUsed, this`framesSinceReset, this`consecutiveTimeouts
      ensures Valid() && Booked() && now >= old(now)
      ensures flow == Again || flow == Flushing || flow == Error
      ensures old(consecutiveTimeouts) + 1 < DISCONNECT_TIMEOUT_COUNT ==>
                flow == Again && consecutiveTimeouts == old(consecutiveTimeouts) + 1 && stream == old(stream)
                  && streaming
                && log == old(log) && queue == old(queue)
                && resetRecoveryUsed == old(resetRecoveryUsed)
      ensures old(consecutiveTimeouts) + 1 >= DISCONNECT_TIMEOUT_COUNT && flow == Again ==>
                streaming && stream > old(stream) && consecutiveTimeouts == 0
                && (reconnectEnabled || (old(MayAttempt()) && resetRecoveryUsed))
      ensures flow == Flushing ==> flushing
      ensures log.standing.attempts == old(log.standing).attempts +
                if old(MayAttempt()) && old(consecutiveTimeouts) + 1 >= DISCONNECT_TIMEOUT_COUNT then 1 else 0
      ensures old(consecutiveTimeouts) + 1 >= DISCONNECT_TIMEOUT_COUNT ==>
                LadderClimbed(flow == Again, calls, permitted)
      ensures flow == Error ==> LadderSpent()
    {
      consecutiveTimeouts := consecutiveTimeouts + 1;
      flow, calls, permitted := Again, [], false;
      if consecutiveTimeouts >= DISCONNECT_TIMEOUT_COUNT { flow, calls, permitted := SilenceLadder(); }
    }

    /** One turn of create()'s loop. */
    method CreateTurn() returns (flow: Flow)
      requires Valid() && Booked() && streaming
      modifies this`asked, this`now, this`queue, this`flushing, this`hadIdr, this`frameOffset, this`unlocks, this`log,
               this`handle, this`dev, this`ctx, this`streaming, this`feeding, this`stream, this`deepRecoveryUsed,
               this`resetRecoveryUsed, this`framesSinceReset, this`consecutiveTimeouts
      ensures Valid() && Booked() && now >= old(now)
      ensures flow == Again || flow.Ok? ==> streaming
      ensures flow == Again && stream == old(stream) ==> resetRecoveryUsed == old(resetRecoveryUsed)
      ensures flow == Again && stream != old(stream) && !reconnectEnabled ==>
                old(MayAttempt()) && resetRecoveryUsed && log.standing.attempts == old(log.standing).attempts + 1
      ensures flow.Ok? ==>
                log.history == After(old(log.history), Out(flow.frame))
                  && log.standing.attempts == old(log.standing).attempts
      ensures flow.Ok? ==> old(Frames(queue)) <= [flow.frame] + Frames(queue)
      ensures flow == Again && stream == old(stream) ==>
                log == old(log) && old(Frames(queue)) <= Frames(queue)
      ensures flow == Again && stream == old(stream) ==>
                if Sentinels(queue) == old(Sentinels(queue)) then
                  consecutiveTimeouts == old(consecutiveTimeouts) + 1 < 5 && now >= old(now) + 1000000
                else consecutiveTimeouts == 0 && Sentinels(queue) + 1 == old(Sentinels(queue))
      ensures (flow == Again && stream != old(stream)) || flow.Ok? ==> consecutiveTimeouts == 0
      ensures flow == Flushing ==> flushing
      ensures flow == Error ==>
                old(consecutiveTimeouts) + 1 >= 5 && now >= old(now) + 1000000
      ensures old(log.standing).attempts <= log.standing.attempts <= old(log.standing).attempts + 1
      ensures log.standing.attempts > old(log.standing).attempts ==>
                old(MayAttempt()) && old(consecutiveTimeouts) + 1 >= 5 && now >= old(now) + 1000000
      ensures flow == Error ==> LadderSpent() && old(queue) == []
      ensures old(queue) != [] ==> flow.Ok? || flow == Flushing || (flow == Again && stream == old(stream))
    {
      var got := AwaitItem();
      flow := ActOn(got);
    }

    /** What create() does with what it popped. */
    method ActOn(got: Got) returns (flow: Flow)
      requires Valid() && Booked() && streaming && (got == Flush ==> flushing)
               && (got == Real ==> queue != [] && queue[0].Buffer?)
      modifies this`asked, this`now, this`queue, this`flushing, this`hadIdr, this`frameOffset, this`unlocks, this`log,
               this`handle, this`dev, this`ctx, this`streaming, this`feeding, this`stream, this`deepRecoveryUsed,
               this`resetRecoveryUsed, this`framesSinceReset, this`consecutiveTimeouts
      ensures Valid() && Booked() && now >= old(now)
      ensures got == Flush ==> flow == Flushing && flushing && log.standing == old(log.standing)
      ensures got == Stale || (got == Nothing && old(consecutiveTimeouts) + 1 < DISCONNECT_TIMEOUT_COUNT) ==>
                flow == Again && streaming && stream == old(stream) && log.history == old(log.history)
                  && log.standing == old(log.standing)
                && queue == old(queue) && resetRecoveryUsed == old(resetRecoveryUsed)
                && consecutiveTimeouts == if got == Stale then 0 else old(consecutiveTimeouts) + 1
      ensures got == Real ==>
                flow.Ok? && streaming && log.history == After(old(log.history), Out(flow.frame))
                  && consecutiveTimeouts == 0
                && log.standing.attempts == old(log.standing).attempts
                  && old(Frames(queue)) == [flow.frame] + Frames(queue)
      ensures got == Nothing && old(consecutiveTimeouts) + 1 >= DISCONNECT_TIMEOUT_COUNT ==>
                && (flow == Again || flow == Error || (flow == Flushing && flushing))
                && log.standing.attempts == old(log.standing).attempts + (if old(MayAttempt()) then 1 else 0)
                && (flow == Again ==> streaming && stream > old(stream) && consecutiveTimeouts == 0
                                      && (reconnectEnabled || (old(MayAttempt()) && resetRecoveryUsed)))
      ensures flow == Error ==> got == Nothing && LadderSpent()
    {
      match got {
        case Flush =>
          flow := Flushing;
        case Nothing =>
          ghost var calls, permitted;
          flow, calls, permitted := SilentSecond();
        case Stale =>
          consecutiveTimeouts := 0;
          flow := Again;
        case Real =>
          var frame := ReturnFrame();
          flow := Ok(frame);
      }
    }

    /** create() with reconnect off returns, whatever the device and the other threads do: each turn of its loop
        replaces the stream by the one recovery that is left, drops a sentinel, or counts a silent second. */
    method Create(cleanRetry: bool) returns (flow: Flow)
      requires Valid() && Booked() && !reconnectEnabled
      modifies this`asked, this`now, this`queue, this`flushing, this`hadIdr, this`frameOffset, this`unlocks, this`log,
               this`handle, this`dev, this`ctx, this`streaming, this`feeding, this`stream, this`deepRecoveryUsed,
               this`resetRecoveryUsed, this`framesSinceReset, this`consecutiveTimeouts
      ensures Valid() && Booked() && now >= old(now) && flow != Again
      ensures flow.Ok? ==> log.history.After? && log.history.last == Out(flow.frame) && streaming
      ensures flow == Flushing ==> flushing
      ensures flow == Error ==> (!old(streaming) && !streaming) || now >= old(now) + TIMEOUT_DURATION
      ensures old(log.standing).attempts <= log.standing.attempts
                <= old(log.standing).attempts + (if old(MayAttempt()) then 1 else 0)
      ensures old(streaming) && flow.Ok? && log.standing.attempts == old(log.standing).attempts ==>
                log.history == After(old(log.history), Out(flow.frame))
                  && old(Frames(queue)) <= [flow.frame] + Frames(queue)
      ensures old(!streaming && !handle) ==> flow == Error && log.history == After(old(log.history), StartWithoutHandle)
      ensures old(streaming) && old(Frames(queue)) != [] ==> flow.Ok? || flow == Flushing
      ensures old(streaming) && flow == Error && old(MayAttempt()) ==>
                log.standing.attempts == old(log.standing).attempts + 1
    {
      flow := CreateBegin(cleanRetry);
      if flow == Again { flow := CreateLoop(); }
    }

    method CreateLoop() returns (flow: Flow)
      requires Valid() && Booked() && streaming && !reconnectEnabled
      modifies this`asked, this`now, this`queue, this`flushing, this`hadIdr, this`frameOffset, this`unlocks, this`log,
               this`handle, this`dev, this`ctx, this`streaming, this`feeding, this`stream, this`deepRecoveryUsed,
               this`resetRecoveryUsed, this`framesSinceReset, this`consecutiveTimeouts
      ensures Valid() && Booked() && now >= old(now) && flow != Again
      ensures flow.Ok? ==> log.history.After? && log.history.last == Out(flow.frame) && streaming
      ensures flow == Flushing ==> flushing
      ensures flow == Error ==> now >= old(now) + TIMEOUT_DURATION
      ensures log.standing.attempts == old(log.standing).attempts
              || (old(MayAttempt()) && log.standing.attempts == old(log.standing).attempts + 1)
      ensures flow.Ok? && log.standing.attempts == old(log.standing).attempts ==>
                log.history == After(old(log.history), Out(flow.frame))
                  && old(Frames(queue)) <= [flow.frame] + Frames(queue)
      ensures flow == Error && old(MayAttempt()) ==> log.standing.attempts == old(log.standing).attempts + 1
      ensures old(Frames(queue)) != [] ==> flow.Ok? || flow == Flushing
    {
      while true
        invariant Valid() && Booked() && now >= old(now) && streaming
        invariant if log.standing.attempts == old(log.standing).attempts then
                    && resetRecoveryUsed == old(resetRecoveryUsed) && log.history == old(log.history)
                    && old(Frames(queue)) <= Frames(queue)
                  else
                    && old(MayAttempt()) && log.standing.attempts == old(log.standing).attempts + 1
                    && resetRecoveryUsed && old(Frames(queue)) == []
        decreases if resetRecoveryUsed then 0 else 1, Sentinels(queue), DISCONNECT_TIMEOUT_COUNT - consecutiveTimeouts
      {
        flow := CreateTurn();
        if flow != Again { break; }
      }
    }

    // ---------- start, stop, unlock_stop ----------

    /** stop(): join the feeder, empty the queue, close, unref, exit. The queue is emptied without looking for
        sentinels, so each one still queued is released as if it were a buffer. */
    method Stop()
      requires Valid() && Booked()
      modifies this`now, this`queue, this`flushing, this`hadIdr, this`frameOffset, this`unlocks, this`log,
               this`handle, this`dev, this`ctx, this`streaming, this`feeding, this`misreleased
      ensures Valid() && Booked() && !ctx && !dev && !handle && !streaming && !feeding && queue == []
      ensures now >= old(now) && (old(flushing) ==> flushing)
      ensures unlocks >= old(unlocks)
      ensures misreleased == old(misreleased) + old(Sentinels(queue)) + (unlocks - old(unlocks))
      ensures old(!ctx && queue == []) ==>
                log.history == old(log.history) && misreleased == old(misreleased) && Undisturbed()
      ensures PhaseKept() && Climbed(if old(ctx) then [Exit] else [])
    {
      HaltStream();
      ReleaseAll();
    }

    /** Lines 1522-1552: empty the queue, then give back what is held. */
    method ReleaseAll()
      requires Core() && !log.standing.resuming && !streaming
      modifies this`queue, this`log, this`handle, this`dev, this`ctx, this`misreleased
      ensures Valid() && !ctx && !dev && !handle && queue == []
      ensures misreleased == old(misreleased) + old(Sentinels(queue))
      ensures old(!ctx && queue == []) ==> log.history == old(log.history)
      ensures PhaseKept() && Climbed(if old(ctx) then [Exit] else [])
    {
      EmptyQueue();
      GiveBackAll();
    }

    /** No time has passed and no other thread has run. */
    twostate predicate Undisturbed()
      reads this
    {
      && now == old(now) && flushing == old(flushing) && unlocks == old(unlocks)
      && hadIdr == old(hadIdr) && frameOffset == old(frameOffset)
    }

    /** Lines 1516-1520: stop the stream if there is one. */
    method HaltStream()
      requires Valid()
      modifies this`now, this`queue, this`flushing, this`hadIdr, this`frameOffset, this`unlocks, this`log,
               this`streaming, this`feeding
      ensures Core() && !streaming && !feeding && LadderKept()
      ensures now >= old(now) && (old(flushing) ==> flushing) && unlocks >= old(unlocks)
      ensures Sentinels(queue) == old(Sentinels(queue)) + (unlocks - old(unlocks))
      ensures !old(streaming) ==> log.history == old(log.history) && queue == old(queue) && Undisturbed()
    {
      if streaming && handle { StopFeeder(); }
    }

    /** Lines 1536-1552: close, unref, exit, whatever of it is held. */
    method GiveBackAll()
      requires Core() && !log.standing.resuming && !streaming && queue == []
      modifies this`log, this`handle, this`dev, this`ctx
      ensures Valid() && !ctx && !dev && !handle
      ensures old(!ctx) ==> log.history == old(log.history)
      ensures PhaseKept() && Climbed(if old(ctx) then [Exit] else [])
    {
      if handle { CloseHandle(); }
      if dev { UnrefDevice(); }
      if ctx {
        Log(Exit);
        ctx := false;
      }
    }

    /** uvc_stop_streaming() joins the feeder: until it returns frames may still come. */
    method StopFeeder()
      requires Core() && handle
      modifies this`now, this`queue, this`flushing, this`hadIdr, this`frameOffset, this`unlocks, this`log,
               this`streaming, this`feeding
      ensures Core() && !streaming && !feeding && log.history == After(old(log.history), StopStream)
      ensures LadderKept()
      ensures now >= old(now) && (old(flushing) ==> flushing) && unlocks >= old(unlocks)
      ensures Sentinels(queue) == old(Sentinels(queue)) + (unlocks - old(unlocks))
      ensures Worked([StopStream]) && LadderKept()
    {
      Elapse(0);
      Log(StopStream);
      feeding, streaming := false, false;
    }

    /** stop()'s drain: release whatever comes out. */
    method EmptyQueue()
      requires Core() && !streaming
      modifies this`queue, this`log, this`misreleased
      ensures Core() && queue == []
      ensures misreleased == old(misreleased) + old(Sentinels(queue))
      ensures old(queue) == [] ==> log.history == old(log.history)
      ensures LadderKept()
    {
      while queue != []
        invariant Core()
        invariant misreleased + Sentinels(queue) == old(misreleased) + old(Sentinels(queue))
        invariant old(queue) == [] ==> queue == [] && log.history == old(log.history)
        invariant LadderKept()
        decreases |queue|
      {
        var item := Release();
        if item.Sentinel? { misreleased := misreleased + 1; }
      }
    }

    /** The per-session state is that of a session that has just begun. */
    ghost predicate NewSession()
      reads this
    {
      && log.standing.attempts == log.standing.returned == log.standing.deepRuns == log.standing.next == 0
      && !hadIdr && frameOffset == 0 && consecutiveTimeouts == 0
      && !resetRecoveryUsed && !deepRecoveryUsed && lowestRearm == rearmFrames
    }

    /** start(): clean up a previous session, reset the per-session state, then context, device, handle; a failure
        gives back what was taken. */
    method Start() returns (ok: bool, got: bool, ghost missed: nat, ghost calls: seq<Call>)
      requires Valid() && Booked()
      modifies this`asked, this`now, this`queue, this`flushing, this`hadIdr, this`frameOffset, this`unlocks, this`log,
               this`handle, this`dev, this`ctx, this`streaming, this`feeding, this`misreleased,
               this`consecutiveTimeouts, this`resetRecoveryUsed, this`framesSinceReset, this`deepRecoveryUsed,
               this`lowestRearm
      ensures Valid() && Booked() && !streaming && Frames(queue) == []
      ensures if ok then ctx && dev && handle else !handle && !dev && !ctx
      ensures NewSession()
      ensures ok ==> selectorOk && LastAnswer(log.history) == Some(true)
      ensures EndsWith(log.book.ladder, SessionLadder(selectorOk, got, ok))
      ensures EndsWith(log.book.work, Misses(missed) + calls)
      ensures SessionCalls(got, missed, calls, ok) && (got ==> selectorOk)
      ensures got && !old(ctx) ==> LooksOnce(missed, calls)
      ensures got && old(ctx || handle) && calls == [] ==> flushing || now >= old(now) + Millis(settleMaxMs)
    {
      var forcedCleanup := ctx || handle;
      if forcedCleanup { Stop(); }
      ok, got, missed, calls := BeginSession(forcedCleanup);
    }

    /** Lines 1369-1446: the per-session state, then what the session holds. */
    method BeginSession(forcedCleanup: bool) returns (ok: bool, got: bool, ghost missed: nat, ghost calls: seq<Call>)
      requires Valid() && Booked() && !ctx
      modifies this`asked, this`now, this`queue, this`flushing, this`hadIdr, this`frameOffset, this`unlocks, this`log,
               this`handle, this`dev, this`ctx, this`consecutiveTimeouts, this`resetRecoveryUsed,
               this`framesSinceReset, this`deepRecoveryUsed, this`lowestRearm
      ensures Valid() && Booked() && !streaming && Frames(queue) == []
      ensures ctx == dev == handle == ok
      ensures NewSession()
      ensures ok ==> selectorOk && LastAnswer(log.history) == Some(true)
      ensures Climbed(SessionLadder(selectorOk, got, ok)) && Worked(Misses(missed) + calls)
      ensures SessionCalls(got, missed, calls, ok) && (got ==> selectorOk)
      ensures got && !forcedCleanup ==> LooksOnce(missed, calls)
      ensures got && forcedCleanup && calls == [] ==> flushing || now >= old(now) + Millis(settleMaxMs)
    {
      ghost var before := log.book.ladder;
      ResetSession();
      ok, got, missed, calls := false, false, 0, [];
      if !selectorOk { return; }
      var deadline := if forcedCleanup then now + Millis(settleMaxMs) else 0;
      ok, got, missed, calls := OpenSession(deadline);
      Assoc(before, [Started], [Init(got)] + if got && !ok then [Exit] else []);
    }

    /** Lines 1396-1446: context, device, handle; a failure gives back what was taken. */
    method OpenSession(deadline: int) returns (ok: bool, got: bool, ghost missed: nat, ghost calls: seq<Call>)
      requires Valid() && !ctx && !hadIdr
      modifies this`asked, this`now, this`queue, this`flushing, this`hadIdr, this`frameOffset, this`unlocks, this`log,
               this`handle, this`dev, this`ctx
      ensures Valid() && Idled() && handle == dev == ctx == ok
      ensures LastAnswer(log.history) == Some(true) || !ok
      ensures PhaseKept() && Climbed([Init(got)] + if got && !ok then [Exit] else [])
      ensures Worked(Misses(missed) + calls) && SessionCalls(got, missed, calls, ok)
      ensures got && deadline == 0 ==> LooksOnce(missed, calls)
      ensures got && calls == [] ==> deadline == 0 || flushing || now >= deadline
      ensures old(NewSession()) ==> NewSession()
      ensures old(Booked()) ==> Booked()
    {
      got := *;
      Log(Init(got));
      ctx := got;
      ok, missed, calls := false, 0, [];
      if !got { return; }
      ok, missed, calls := AcquireOrExit(deadline);
    }

    /** Device and handle on the new context, or without them no context either. */
    method AcquireOrExit(deadline: int) returns (ok: bool, ghost missed: nat, ghost calls: seq<Call>)
      requires Valid() && ctx && !dev && !handle && !hadIdr
      modifies this`asked, this`now, this`queue, this`flushing, this`hadIdr, this`frameOffset, this`unlocks, this`log,
               this`handle, this`dev, this`ctx
      ensures Valid() && Idled() && handle == dev == ctx == ok
      ensures LastAnswer(log.history) == Some(true) || !ok
      ensures PhaseKept() && Climbed(if ok then [] else [Exit])
      ensures Worked(Misses(missed) + calls) && SessionCalls(true, missed, calls, ok)
      ensures deadline == 0 ==> LooksOnce(missed, calls)
      ensures calls == [] ==> deadline == 0 || flushing || now >= deadline
    {
      ok, missed, calls := Acquire(deadline);
      if !ok {
        Log(Exit);
        ctx := false;
      }
    }

    /** Lines 1373-1381: the per-session state. */
    method ResetSession()
      requires Valid() && Booked() && !ctx
      modifies this`log, this`hadIdr, this`frameOffset, this`consecutiveTimeouts, this`resetRecoveryUsed,
               this`framesSinceReset, this`deepRecoveryUsed, this`lowestRearm
      ensures Valid() && Booked() && log.history == After(old(log.history), Started)
      ensures Climbed([Started]) && Worked([])
      ensures NewSession() && framesSinceReset == 0
    {
      var rearm := rearmFrames;
      assert rearm >= 1;
      ResetStream();
      ResetBooks();
    }

    method ResetStream()
      requires Valid() && !ctx
      modifies this`log, this`hadIdr, this`frameOffset, this`deepRecoveryUsed
      ensures Valid() && log == Logged(old(log), Started) && !hadIdr && frameOffset == 0
      ensures !deepRecoveryUsed
    {
      Log(Started);
      hadIdr, frameOffset, deepRecoveryUsed := false, 0, false;
    }

    method ResetBooks()
      requires rearmFrames >= 1
      requires log.standing.attempts == log.standing.returned == 0
      modifies this`consecutiveTimeouts, this`resetRecoveryUsed, this`framesSinceReset, this`lowestRearm
      ensures Booked() && consecutiveTimeouts == 0 && framesSinceReset == 0
      ensures !resetRecoveryUsed && lowestRearm == rearmFrames
    {
      consecutiveTimeouts, resetRecoveryUsed, framesSinceReset := 0, false, 0;
      lowestRearm := rearmFrames;
    }

    /** Lines 1418-1446: resolve, polling only after a forced cleanup, and open. */
    method Acquire(deadline: int) returns (ok: bool, ghost missed: nat, ghost calls: seq<Call>)
      requires Valid() && ctx && !dev && !handle && !hadIdr
      modifies this`asked, this`now, this`queue, this`flushing, this`hadIdr, this`frameOffset, this`unlocks, this`log,
               this`handle, this`dev
      ensures Valid() && Idled() && handle == dev == ok
      ensures LastAnswer(log.history) == Some(ok)
      ensures LadderKept()
      ensures Worked(Misses(missed) + calls) && OpenedAs(calls, false, ok) && (calls == [] ==> missed >= 1)
      ensures deadline == 0 ==> LooksOnce(missed, calls)
      ensures calls == [] ==> deadline == 0 || flushing || now >= deadline
    {
      ghost var before := log.book.work;
      ghost var polls;
      ok, missed, polls := ResolveDevice(deadline);
      calls := if ok then [Enumerate(true)] else [];
      if ok {
        ghost var rest;
        ok, rest := OpenInTime(0);
        Append3(before, Misses(missed), calls, rest);
        calls := calls + rest;
      }
    }

    /** unlock_stop(): clear the flag, then drop sentinels and frames alike. */
    method UnlockStop()
      requires Valid() && Booked()
      modifies this`flushing, this`queue, this`log
      ensures Valid() && Booked() && !flushing && queue == []
      ensures log.history == After(Drops(After(old(log.history), Resume), Frames(old(queue)), false), Resumed)
      ensures LadderKept()
    {
      BeginResume();
      DrainQueue();
      EndResume();
    }

    method BeginResume()
      requires Valid()
      modifies this`flushing, this`log
      ensures Core() && log.standing == old(log.standing).(resuming := true)
              && log.history == After(old(log.history), Resume)
      ensures !flushing
    {
      flushing := false;
      Log(Resume);
    }

    method EndResume()
      requires Core()
      modifies this`log
      ensures Core() && log.standing == old(log.standing).(resuming := false)
              && log.history == After(old(log.history), Resumed)
    {
      Log(Resumed);
    }

    /** set_property() for the properties the ladder reads; reset-rearm-frames is at least 1. */
    method SetProperties(selectorOk': bool, reconnect: bool, portReset: bool, deep: bool, settleMs: nat, rearm: nat)
      requires Valid() && Booked() && rearm >= 1
      modifies this`selectorOk, this`reconnectEnabled, this`autoPortReset, this`deepPortRecovery, this`settleMaxMs,
               this`rearmFrames, this`lowestRearm
      ensures Valid() && Booked() && rearmFrames == rearm && lowestRearm == Min(old(lowestRearm), rearm)
      ensures reconnectEnabled == reconnect && autoPortReset == portReset && deepPortRecovery == deep
      ensures selectorOk == selectorOk' && settleMaxMs == settleMs
    {
      SetSwitches(selectorOk', reconnect, portReset, deep, settleMs);
      SetRearmFrames(rearm);
    }

    method SetSwitches(selectorOk': bool, reconnect: bool, portReset: bool, deep: bool, settleMs: nat)
      modifies this`selectorOk, this`reconnectEnabled, this`autoPortReset, this`deepPortRecovery, this`settleMaxMs
      ensures selectorOk == selectorOk' && reconnectEnabled == reconnect && autoPortReset == portReset
      ensures deepPortRecovery == deep && settleMaxMs == settleMs
    {
      selectorOk, reconnectEnabled, autoPortReset, deepPortRecovery := selectorOk', reconnect, portReset, deep;
      settleMaxMs := settleMs;
    }

    method SetRearmFrames(rearm: nat)
      requires Valid() && Booked() && rearm >= 1
      modifies this`rearmFrames, this`lowestRearm
      ensures Valid() && Booked() && rearmFrames == rearm && lowestRearm == Min(old(lowestRearm), rearm)
    {
      rearmFrames := rearm;
      PaidLower(resetRecoveryUsed, framesSinceReset, Min(lowestRearm, rearm), lowestRearm,
                log.standing.attempts, log.standing.returned);
      lowestRearm := Min(lowestRearm, rearm);
    }

    /** Every frame that was pushed since start() has left the queue on record or is still in it. */
    lemma {:induction false} NoFrameVanishes()
      requires Valid()
      ensures frameOffset == CountGone(SinceStart(log.history)) + |Frames(queue)|
    {
      NextIsGone(log.history);
    }

    /** Since start(), at most 1 + F/r wedge recoveries were attempted for F frames returned, r the smallest re-arm
        threshold in force since then. */
    lemma {:induction false} AttemptsAreAmortised()
      requires Valid() && Booked()
      ensures CountAttempts(SinceStart(log.history)) <= 1 + CountOut(SinceStart(log.history)) / lowestRearm
    {
      TalliesCount(log.history);
      PaidBound(resetRecoveryUsed, framesSinceReset, lowestRearm, log.standing.attempts, log.standing.returned);
    }
  }

  /** A flush before stop(): its sentinel is released as if it were a buffer. */
  method StopReleasesSentinel() returns (source: Source)
    ensures fresh(source) && source.Valid() && source.Booked() && source.misreleased >= 1
  {
    source := new Source();
    source.Unlock();
    source.Stop();
  }
}
