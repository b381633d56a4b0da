/**
 A response body with one reader and any number of closers, as a transition system: the read
 mutex, the close-once, the context's cancellation cause, and one idle timer for each raw read.
 */
module StreamBody {
  import opened Wrappers

  type Byte = bv8

  /** Why the context was cancelled: by cleanup, by the caller, or by the idle timer of a read. */
  datatype Cause = CleanedUp | External | IdleTimeout(timer: nat)

  datatype ReadError = Raw(code: int) | Cancelled(cause: Cause) | ReadAfterClose

  datatype Owner = Free | TheReader | TheCloser(i: nat)

  /** A timer fires by starting its callback, which cancels the context. */
  datatype Timer = Armed | Firing | Finished | Halted

  /** The reader; comments say what it does next. */
  datatype ReaderPc =
    | Idle                                                // between calls of Read
    | WantsMu(want: nat)                                  // lock readMu
    | Looks(want: nat)                                    // check for reasons not to read
    | InRaw(want: nat)                                    // inside raw.Read
    | StopsTimer(n: nat, error: Option<ReadError>)        // stop the timer
    | JoinsTimer(n: nat, error: Option<ReadError>)        // wait for its callback
    | ChecksCause(n: nat, error: Option<ReadError>)       // the context's cause replaces the error
    | Unlocks(n: nat, error: Option<ReadError>)           // unlock readMu
    | InClose(i: nat, n: nat, final: ReadError)           // inside its own call of Close

  /** A call of Close. */
  datatype CloserPc =
    | WantsOnce     // enter once
    | CleansUp      // cancel the context
    | WantsReadMu   // lock readMu
    | ClosesRaw     // set closed, close the raw body
    | UnlocksMu     // unlock readMu
    | LeavesOnce    // leave once
    | Closed

  datatype Once = Fresh | RunBy(i: nat) | Over

  datatype State = State(
    idle: bool,                       // an idle timeout is set
    cause: Option<Cause>, mu: Owner, once: Once, closed: bool, terminal: Option<ReadError>,
    reader: ReaderPc, closers: seq<CloserPc>, timers: seq<Timer>,
    raw: seq<Byte>, pos: nat,         // the raw stream and how much of it was read
    delivered: seq<Byte>,             // what Read calls have returned
    failed: bool,                     // some Read has returned an error
    cleanups: nat, rawCloses: nat)

  datatype Step =
    | CancelContext
    | ReadCall(want: nat) | ReaderMove | RawReturns(n: nat, error: Option<int>)
    | FireTimer(k: nat) | TimerCancels(k: nat)
    | CloseCall | CloserMove(i: nat)

  function New(raw: seq<Byte>, idle: bool): State {
    State(idle, None, Free, Fresh, false, None, Idle, [], [], raw, 0, [], false, 0, 0)
  }

  predicate Enabled(s: State, step: Step) {
    match step
    case CancelContext => true
    case ReadCall(_) => s.reader.Idle?
    case ReaderMove =>
      && !s.reader.Idle? && !s.reader.InRaw?
      && (s.reader.WantsMu? ==> s.mu == Free)
      && (s.reader.JoinsTimer? ==> s.timers != [] && s.timers[|s.timers| - 1] == Finished)
      && (s.reader.InClose? ==> s.reader.i < |s.closers| && s.closers[s.reader.i] == Closed)
    case RawReturns(n, _) => s.reader.InRaw? && n <= s.reader.want && s.pos + n <= |s.raw|
    case FireTimer(k) => k < |s.timers| && s.timers[k] == Armed
    case TimerCancels(k) => k < |s.timers| && s.timers[k] == Firing
    case CloseCall => true
    case CloserMove(i) =>
      && i < |s.closers| && s.closers[i] != Closed
      && (s.closers[i] == WantsOnce ==> !s.once.RunBy?)
      && (s.closers[i] == WantsReadMu ==> s.mu == Free)
  }

  /** The first cancellation is the one that counts. */
  function Cancel(s: State, cause: Cause): State {
    if s.cause == None then s.(cause := Some(cause)) else s
  }

  function LastTimer(s: State): Timer
    requires s.timers != []
  {
    s.timers[|s.timers| - 1]
  }

  function LookApply(s: State, want: nat): State {
    if want == 0 then s.(reader := Unlocks(0, None))
    else if s.terminal.Some? then s.(reader := Unlocks(0, s.terminal))
    else if s.closed then s.(reader := Unlocks(0, Some(ReadAfterClose)))
    else if s.cause.Some? then s.(reader := Unlocks(0, Some(Cancelled(s.cause.value))))
    else s.(reader := InRaw(want), timers := if s.idle then s.timers + [Armed] else s.timers)
  }

  function StopTimer(s: State, n: nat, error: Option<ReadError>): State {
    if !s.idle || s.timers == [] then s.(reader := ChecksCause(n, error))
    else if LastTimer(s) == Armed
    then s.(reader := ChecksCause(n, error), timers := s.timers[|s.timers| - 1 := Halted])
    else s.(reader := JoinsTimer(n, error))
  }

  /** What Read does under the mutex before, between and after the raw read. */
  function ReaderApply(s: State): State
    requires Enabled(s, ReaderMove)
  {
    match s.reader
    case WantsMu(want) => s.(reader := Looks(want), mu := TheReader)
    case Looks(want) => LookApply(s, want)
    case StopsTimer(n, error) => StopTimer(s, n, error)
    case JoinsTimer(n, error) => s.(reader := ChecksCause(n, error))
    case ChecksCause(n, error) =>
      var final := if s.cause.Some? then Some(Cancelled(s.cause.value)) else error;
      s.(reader := Unlocks(n, final), terminal := if final.Some? then final else s.terminal)
    case Unlocks(n, error) =>
      if error.Some? then s.(reader := InClose(|s.closers|, n, error.value), mu := Free, closers := s.closers + [WantsOnce])
      else Deliver(s, n).(mu := Free)
    case InClose(_, n, error) => Deliver(s, n).(failed := true)
    case _ => s
  }

  /** Read returns its last n bytes. */
  function Deliver(s: State, n: nat): State {
    s.(reader := Idle, delivered := s.delivered + if n <= s.pos <= |s.raw| then s.raw[s.pos - n..s.pos] else [])
  }

  function CloserApply(s: State, i: nat): State
    requires Enabled(s, CloserMove(i))
  {
    match s.closers[i]
    case WantsOnce =>
      if s.once == Over then s.(closers := s.closers[i := Closed])
      else s.(closers := s.closers[i := CleansUp], once := RunBy(i))
    case CleansUp => Cancel(s, CleanedUp).(closers := s.closers[i := WantsReadMu], cleanups := s.cleanups + 1)
    case WantsReadMu => s.(closers := s.closers[i := ClosesRaw], mu := TheCloser(i))
    case ClosesRaw => s.(closers := s.closers[i := UnlocksMu], closed := true, rawCloses := s.rawCloses + 1)
    case UnlocksMu => s.(closers := s.closers[i := LeavesOnce], mu := Free)
    case LeavesOnce => s.(closers := s.closers[i := Closed], once := Over)
    case Closed => s
  }

  function Apply(s: State, step: Step): State
    requires Enabled(s, step)
  {
    match step
    case CancelContext => Cancel(s, External)
    case ReadCall(want) => s.(reader := WantsMu(want))
    case ReaderMove => ReaderApply(s)
    case RawReturns(n, error) =>
      s.(reader := StopsTimer(n, if error.Some? then Some(Raw(error.value)) else None), pos := s.pos + n)
    case FireTimer(k) => s.(timers := s.timers[k := Firing])
    case TimerCancels(k) => Cancel(s.(timers := s.timers[k := Finished]), IdleTimeout(k))
    case CloseCall => s.(closers := s.closers + [WantsOnce])
    case CloserMove(i) => CloserApply(s, i)
  }

  // ---------- invariants ----------

  predicate ReaderHolds(pc: ReaderPc) {
    pc.Looks? || pc.InRaw? || pc.StopsTimer? || pc.JoinsTimer? || pc.ChecksCause? || pc.Unlocks?
  }

  predicate CloserHolds(pc: CloserPc) {
    pc.ClosesRaw? || pc.UnlocksMu?
  }

  predicate InOnce(pc: CloserPc) {
    !pc.WantsOnce? && !pc.Closed?
  }

  ghost predicate MuInv(s: State) {
    && (s.mu == TheReader <==> ReaderHolds(s.reader))
    && (s.mu.TheCloser? ==> s.mu.i < |s.closers|)
    && (s.once.RunBy? ==> s.once.i < |s.closers|)
    && forall i: nat {:trigger s.closers[i]} {:trigger Owns(s, i)} :: i < |s.closers| ==> Owns(s, i)
  }

  /** A closer holds the mutex and the once exactly where its position says so. */
  ghost predicate Owns(s: State, i: nat)
    requires i < |s.closers|
  {
    && (s.mu == TheCloser(i) <==> CloserHolds(s.closers[i]))
    && (s.once == RunBy(i) <==> InOnce(s.closers[i]))
  }

  /** How far the one closing has come. */
  ghost predicate CloseInv(s: State) {
    && s.cleanups <= 1 && s.rawCloses <= 1 && (s.closed <==> s.rawCloses == 1)
    && (s.once == Fresh ==> s.cleanups == 0 && s.rawCloses == 0)
    && (s.once == Over ==> s.cleanups == 1 && s.rawCloses == 1)
    && (s.cleanups == 1 ==> s.cause.Some?)
    && (s.once.RunBy? && s.once.i < |s.closers| ==>
         var pc := s.closers[s.once.i];
         && s.cleanups == (if pc.CleansUp? then 0 else 1)
         && s.rawCloses == (if pc.UnlocksMu? || pc.LeavesOnce? then 1 else 0))
    && (forall i: nat :: i < |s.closers| && s.closers[i] == Closed ==> s.once == Over)
    && (s.reader.InClose? ==> s.reader.i < |s.closers|)
  }

  predicate Timed(pc: ReaderPc) {
    pc.InRaw? || pc.StopsTimer? || pc.JoinsTimer?
  }

  predicate Live(t: Timer) {
    t == Armed || t == Firing
  }

  /** A timer lives only during the read that armed it. */
  ghost predicate TimerInv(s: State) {
    && (!s.idle ==> s.timers == [])
    && (forall k: nat :: k < |s.timers| && Live(s.timers[k]) ==> k == |s.timers| - 1 && Timed(s.reader))
    && (s.idle && Timed(s.reader) ==> s.timers != [] && LastTimer(s) != Halted)
    && (s.reader.JoinsTimer? ==> s.timers != [] && LastTimer(s) != Armed)
  }

  /** Bytes read and not yet returned. */
  function InFlight(pc: ReaderPc): nat {
    match pc
    case StopsTimer(n, _) => n
    case JoinsTimer(n, _) => n
    case ChecksCause(n, _) => n
    case Unlocks(n, _) => n
    case InClose(_, n, _) => n
    case _ => 0
  }

  predicate PendingError(pc: ReaderPc) {
    (pc.Unlocks? && pc.error.Some?) || pc.InClose?
  }

  ghost predicate DataInv(s: State) {
    && s.pos <= |s.raw| && InFlight(s.reader) <= s.pos
    && s.delivered == s.raw[..s.pos - InFlight(s.reader)]
    && (s.failed || PendingError(s.reader) ==> s.terminal.Some? || s.closed || s.cause.Some?)
    && (s.reader.InRaw? ==> s.terminal == None && !s.closed && !s.failed)
  }

  ghost predicate Inv(s: State) {
    MuInv(s) && CloseInv(s) && TimerInv(s) && DataInv(s)
  }

  /** What a reader's move does to the state it shares with the closers. */
  ghost predicate ReaderEffect(s: State, t: State) {
    && t.once == s.once && t.closed == s.closed && t.cleanups == s.cleanups && t.rawCloses == s.rawCloses && t.cause == s.cause
    && (t.closers == s.closers || t.closers == s.closers + [WantsOnce])
    && (t.reader.InClose? ==> t.reader.i < |t.closers|)
    && (if ReaderHolds(t.reader) then t.mu == TheReader else if ReaderHolds(s.reader) then t.mu == Free else t.mu == s.mu)
    && (ReaderHolds(t.reader) && !ReaderHolds(s.reader) ==> s.mu == Free)
  }

  lemma LookEffect(s: State)
    requires s.reader.Looks? && s.mu == TheReader
    ensures ReaderEffect(s, LookApply(s, s.reader.want))
  {
  }

  lemma StopEffect(s: State)
    requires s.reader.StopsTimer? && s.mu == TheReader
    ensures ReaderEffect(s, StopTimer(s, s.reader.n, s.reader.error))
  {
  }

  lemma ReaderEffectHolds(s: State)
    requires s.mu == TheReader <==> ReaderHolds(s.reader)
    requires Enabled(s, ReaderMove)
    ensures ReaderEffect(s, ReaderApply(s))
  {
    hide LookApply, StopTimer;
    match s.reader
    case Looks(_) => LookEffect(s);
    case StopsTimer(_, _) => StopEffect(s);
    case _ =>
  }

  lemma ReaderMuKept(s: State)
    requires MuInv(s) && Enabled(s, ReaderMove)
    ensures MuInv(ReaderApply(s))
  {
    ReaderEffectHolds(s);
    var t := ReaderApply(s);
    hide ReaderApply, Enabled;
  }

  lemma MoverOwns(s: State, i: nat)
    requires Enabled(s, CloserMove(i)) && Owns(s, i)
    ensures |CloserApply(s, i).closers| == |s.closers| && Owns(CloserApply(s, i), i)
    ensures CloserApply(s, i).mu in {s.mu, Free, TheCloser(i)} && CloserApply(s, i).once in {s.once, Over, RunBy(i)}
    ensures (CloserApply(s, i).mu == TheReader <==> s.mu == TheReader)
    ensures CloserApply(s, i).reader == s.reader
  {
  }

  lemma OthersOwn(s: State, i: nat, j: nat)
    requires Enabled(s, CloserMove(i)) && Owns(s, i) && j < |s.closers| && j != i && Owns(s, j)
    ensures |CloserApply(s, i).closers| == |s.closers| && Owns(CloserApply(s, i), j)
  {
  }

  lemma CloserMuKept(s: State, i: nat)
    requires MuInv(s) && Enabled(s, CloserMove(i))
    ensures MuInv(CloserApply(s, i))
  {
    assert i < |s.closers|;
    hide Owns, CloserApply, Enabled;
    MoverOwns(s, i);
    forall j: nat | j < |s.closers|
      ensures |CloserApply(s, i).closers| == |s.closers| && Owns(CloserApply(s, i), j)
    {
      if j != i {
        OthersOwn(s, i, j);
      }
    }
  }

  lemma OtherMuKept(s: State, step: Step)
    requires MuInv(s) && Enabled(s, step) && !step.ReaderMove? && !step.CloserMove?
    ensures MuInv(Apply(s, step))
  {
  }

  lemma ReaderCloseKept(s: State)
    requires MuInv(s) && CloseInv(s) && Enabled(s, ReaderMove)
    ensures CloseInv(ReaderApply(s))
  {
    ReaderEffectHolds(s);
    hide ReaderApply, Enabled, MuInv;
  }

  lemma CloserCloseKept(s: State, i: nat)
    requires MuInv(s) && CloseInv(s) && Enabled(s, CloserMove(i))
    ensures CloseInv(CloserApply(s, i))
  {
  }

  lemma OtherCloseKept(s: State, step: Step)
    requires MuInv(s) && CloseInv(s) && Enabled(s, step) && !step.ReaderMove? && !step.CloserMove?
    ensures CloseInv(Apply(s, step))
  {
  }

  lemma LookTimerKept(s: State)
    requires TimerInv(s) && s.reader.Looks?
    ensures TimerInv(LookApply(s, s.reader.want))
  {
  }

  lemma StopTimerKept(s: State)
    requires TimerInv(s) && s.reader.StopsTimer?
    ensures TimerInv(StopTimer(s, s.reader.n, s.reader.error))
  {
  }

  lemma ReaderTimerKept(s: State)
    requires TimerInv(s) && Enabled(s, ReaderMove)
    ensures TimerInv(ReaderApply(s))
  {
    hide LookApply, StopTimer;
    match s.reader
    case Looks(_) => LookTimerKept(s);
    case StopsTimer(_, _) => StopTimerKept(s);
    case _ =>
  }

  lemma CloserTimerKept(s: State, i: nat)
    requires TimerInv(s) && Enabled(s, CloserMove(i))
    ensures TimerInv(CloserApply(s, i))
  {
  }

  lemma OtherTimerKept(s: State, step: Step)
    requires TimerInv(s) && Enabled(s, step) && !step.ReaderMove? && !step.CloserMove?
    ensures TimerInv(Apply(s, step))
  {
  }

  lemma LookDataKept(s: State)
    requires DataInv(s) && s.reader.Looks?
    ensures DataInv(LookApply(s, s.reader.want))
  {
  }

  lemma DeliverDataKept(s: State, n: nat)
    requires DataInv(s) && n == InFlight(s.reader)
    requires s.failed ==> s.terminal.Some? || s.closed || s.cause.Some?
    ensures DataInv(Deliver(s, n))
  {
    assert s.raw[..s.pos - n] + s.raw[s.pos - n..s.pos] == s.raw[..s.pos];
    assert s.raw[..s.pos - 0] == s.raw[..s.pos];
  }

  lemma ReaderDataKept(s: State)
    requires DataInv(s) && Enabled(s, ReaderMove)
    ensures DataInv(ReaderApply(s))
  {
    hide LookApply, Deliver;
    match s.reader
    case Looks(want) => LookDataKept(s);
    case Unlocks(n, error) =>
      DeliverDataKept(s, n);
      DataAnyway(Deliver(s, n), Deliver(s, n).(mu := Free));
    case InClose(i, n, final) =>
      DeliverDataKept(s, n);
      DataFailed(s, n);
    case _ =>
  }

  lemma DataAnyway(s: State, t: State)
    requires DataInv(s) && t == s.(mu := t.mu)
    ensures DataInv(t)
  {
  }

  lemma DataFailed(s: State, n: nat)
    requires DataInv(s) && s.reader.InClose? && DataInv(Deliver(s, n))
    ensures DataInv(Deliver(s, n).(failed := true))
  {
  }

  lemma CloserDataKept(s: State, i: nat)
    requires MuInv(s) && CloseInv(s) && DataInv(s) && Enabled(s, CloserMove(i))
    ensures DataInv(CloserApply(s, i))
  {
  }

  lemma OtherDataKept(s: State, step: Step)
    requires MuInv(s) && CloseInv(s) && DataInv(s) && Enabled(s, step) && !step.ReaderMove? && !step.CloserMove?
    ensures DataInv(Apply(s, step))
  {
  }

  lemma InvKept(s: State, step: Step)
    requires Inv(s) && Enabled(s, step)
    ensures Inv(Apply(s, step))
  {
    hide MuInv, CloseInv, TimerInv, DataInv, ReaderApply, CloserApply;
    match step
    case ReaderMove => ReaderMuKept(s); ReaderCloseKept(s); ReaderTimerKept(s); ReaderDataKept(s);
    case CloserMove(i) => CloserMuKept(s, i); CloserCloseKept(s, i); CloserTimerKept(s, i); CloserDataKept(s, i);
    case _ => OtherMuKept(s, step); OtherCloseKept(s, step); OtherTimerKept(s, step); OtherDataKept(s, step);
  }

  // ---------- every reachable state ----------

  ghost predicate Leads(s: State, steps: seq<Step>, t: State)
    decreases |steps|
  {
    if steps == [] then s == t
    else Enabled(s, steps[0]) && Leads(Apply(s, steps[0]), steps[1..], t)
  }

  lemma {:induction false} InvHolds(s: State, steps: seq<Step>, t: State)
    requires Inv(s) && Leads(s, steps, t)
    ensures Inv(t)
    decreases |steps|
  {
    hide Inv, Enabled, Apply;
    if steps != [] {
      InvKept(s, steps[0]);
      InvHolds(Apply(s, steps[0]), steps[1..], t);
    }
  }

  ghost predicate Reachable(s: State) {
    exists raw, idle, steps :: Leads(New(raw, idle), steps, s)
  }

  lemma ReachableInv(s: State)
    requires Reachable(s)
    ensures Inv(s)
  {
    var raw, idle, steps :| Leads(New(raw, idle), steps, s);
    assert Inv(New(raw, idle));
    InvHolds(New(raw, idle), steps, s);
  }

  /** Cleanup and the raw close each happen at most once, and both before any Close returns. */
  lemma ClosedOnce(s: State)
    requires Reachable(s)
    ensures s.cleanups <= 1 && s.rawCloses <= 1
    ensures forall i :: 0 <= i < |s.closers| && s.closers[i] == Closed ==> s.rawCloses == 1 && s.closed && s.cause.Some?
  {
    ReachableInv(s);
    hide TimerInv;
  }

  /** A raw read never overlaps a raw close, never follows one, and never follows an error a Read returned. */
  lemma RawReadExclusive(s: State)
    requires Reachable(s) && s.reader.InRaw?
    ensures s.rawCloses == 0 && !s.closed && !s.failed && s.terminal == None
    ensures forall i :: 0 <= i < |s.closers| ==> !s.closers[i].ClosesRaw? && !s.closers[i].UnlocksMu?
  {
    ReachableInv(s);
    forall i: nat | i < |s.closers|
      ensures !s.closers[i].ClosesRaw? && !s.closers[i].UnlocksMu?
    {
      assert Owns(s, i);
    }
  }

  /** Between reads the bytes delivered are exactly those read from the raw stream, in order. */
  lemma DeliveredPrefix(s: State)
    requires Reachable(s)
    ensures s.pos <= |s.raw| && s.delivered <= s.raw[..s.pos]
    ensures s.reader.Idle? ==> s.delivered == s.raw[..s.pos]
  {
    ReachableInv(s);
    hide MuInv, CloseInv, TimerInv;
    assert s.raw[..s.pos] == s.raw[..s.pos - InFlight(s.reader)] + s.raw[s.pos - InFlight(s.reader)..s.pos];
  }

  /** A timer can fire or cancel only during the read it was armed for, which is the latest one. */
  lemma TimerBelongsToRead(s: State, k: nat)
    requires Reachable(s) && (Enabled(s, FireTimer(k)) || Enabled(s, TimerCancels(k)))
    ensures k == |s.timers| - 1 && Timed(s.reader)
  {
    ReachableInv(s);
    hide MuInv, CloseInv, DataInv;
    assert Live(s.timers[k]);
  }

  /** What Read returns once it has failed: an error again, without touching the raw stream, unless nothing was asked for. */
  lemma FailureSticks(s: State)
    requires Reachable(s) && s.failed && s.reader.Looks? && s.reader.want > 0
    ensures ReaderApply(s).reader.Unlocks? && ReaderApply(s).reader.error.Some? && ReaderApply(s).pos == s.pos
  {
    ReachableInv(s);
    hide MuInv, CloseInv, TimerInv;
  }

  /**
   What a Read that has looked around does. A read of nothing returns nothing. After a failure it
   returns that failure, on a closed body a read-after-close, under a cancelled context the cause;
   only otherwise it reads.
   */
  lemma ReadLooks(s: State)
    requires Reachable(s) && s.reader.Looks?
    ensures var t := ReaderApply(s).reader;
      if s.reader.want == 0 then t == Unlocks(0, None)
      else if s.terminal.Some? then t == Unlocks(0, s.terminal)
      else if s.closed then t == Unlocks(0, Some(ReadAfterClose))
      else if s.cause.Some? then t == Unlocks(0, Some(Cancelled(s.cause.value)))
      else t == InRaw(s.reader.want)
  {
  }

  /** The cause of a cancellation counts before the raw stream's error, and what fails the read is kept. */
  lemma CauseComesFirst(s: State)
    requires Reachable(s) && s.reader.ChecksCause?
    ensures var t := ReaderApply(s);
      && t.reader == Unlocks(s.reader.n, if s.cause.Some? then Some(Cancelled(s.cause.value)) else s.reader.error)
      && (t.reader.error.Some? ==> t.terminal == t.reader.error)
      && (t.reader.error == None ==> t.terminal == None)
  {
    ReachableMarks(s);
  }

  /** A raw read's bytes and error, and how it was timed. */
  lemma RawOutcome(s: State, n: nat, error: Option<int>)
    requires Reachable(s) && Enabled(s, RawReturns(n, error))
    ensures var t := Apply(s, RawReturns(n, error));
      && t.reader == StopsTimer(n, if error == None then None else Some(Raw(error.value)))
      && t.pos == s.pos + n && n <= s.reader.want
    ensures s.idle ==> s.timers != [] && LastTimer(s) != Halted
  {
    ReachableInv(s);
    hide MuInv, CloseInv, DataInv;
  }

  /** The first cause and the first failure stay. */
  ghost predicate Marks(s: State) {
    && (s.reader.InRaw? || s.reader.StopsTimer? || s.reader.JoinsTimer? || s.reader.ChecksCause? ==> s.terminal == None)
    && (forall k: nat :: s.cause == Some(IdleTimeout(k)) ==> k < |s.timers| && s.timers[k] == Finished)
  }

  ghost predicate MarksStay(s: State, t: State) {
    && Marks(t)
    && (s.cause.Some? ==> t.cause == s.cause)
    && (s.terminal.Some? ==> t.terminal == s.terminal)
  }

  lemma LookMarks(s: State)
    requires Marks(s) && s.reader.Looks?
    ensures MarksStay(s, LookApply(s, s.reader.want))
  {
  }

  lemma StopMarks(s: State)
    requires Marks(s) && s.reader.StopsTimer?
    ensures MarksStay(s, StopTimer(s, s.reader.n, s.reader.error))
  {
  }

  lemma ReaderMarks(s: State)
    requires Marks(s) && Enabled(s, ReaderMove)
    ensures MarksStay(s, ReaderApply(s))
  {
    match s.reader
    case Looks(_) => hide LookApply; LookMarks(s);
    case StopsTimer(_, _) => hide StopTimer; StopMarks(s);
    case _ =>
  }

  lemma CloserMarks(s: State, i: nat)
    requires Marks(s) && Enabled(s, CloserMove(i))
    ensures MarksStay(s, CloserApply(s, i))
  {
  }

  lemma OtherMarks(s: State, step: Step)
    requires Marks(s) && Enabled(s, step) && !step.ReaderMove? && !step.CloserMove?
    ensures MarksStay(s, Apply(s, step))
  {
  }

  lemma MarksKept(s: State, step: Step)
    requires Marks(s) && Enabled(s, step)
    ensures MarksStay(s, Apply(s, step))
  {
    hide Marks, MarksStay, ReaderApply, CloserApply;
    match step
    case ReaderMove => ReaderMarks(s);
    case CloserMove(i) => CloserMarks(s, i);
    case _ => OtherMarks(s, step);
  }

  lemma {:induction false} MarksHold(s: State, steps: seq<Step>, t: State)
    requires Marks(s) && Leads(s, steps, t)
    ensures Marks(t)
    ensures s.cause.Some? ==> t.cause == s.cause
    ensures s.terminal.Some? ==> t.terminal == s.terminal
    decreases |steps|
  {
    hide Marks, Enabled, Apply;
    if steps != [] {
      MarksKept(s, steps[0]);
      MarksHold(Apply(s, steps[0]), steps[1..], t);
    }
  }

  lemma ReachableMarks(s: State)
    requires Reachable(s)
    ensures Marks(s)
  {
    var raw, idle, steps :| Leads(New(raw, idle), steps, s);
    MarksHold(New(raw, idle), steps, s);
  }

  /**
   Once the context is cancelled its cause stays, once a read has failed its error stays, and an
   idle timeout is a cause only if its timer's callback has run to its end.
   */
  lemma CauseAndFailureStay(s: State, steps: seq<Step>, t: State)
    requires Reachable(s) && Leads(s, steps, t)
    ensures s.cause.Some? ==> t.cause == s.cause
    ensures s.terminal.Some? ==> t.terminal == s.terminal
    ensures t.cause.Some? && t.cause.value.IdleTimeout? ==>
      t.cause.value.timer < |t.timers| && t.timers[t.cause.value.timer] == Finished
  {
    ReachableMarks(s);
    MarksHold(s, steps, t);
  }

  /** While a Read or Close call is unfinished some thread can move; a raw read is taken to return. */
  lemma Progress(s: State)
    requires Reachable(s)
    requires !s.reader.Idle? || exists i :: 0 <= i < |s.closers| && s.closers[i] != Closed
    ensures exists step ::
      Enabled(s, step) && (step.ReaderMove? || step.RawReturns? || step.FireTimer? || step.TimerCancels? || step.CloserMove?)
  {
    ReachableInv(s);
    if ReaderHolds(s.reader) {
      ReaderProgress(s);
    } else if s.mu.TheCloser? {
      assert Owns(s, s.mu.i);
      assert Enabled(s, CloserMove(s.mu.i));
    } else if s.once.RunBy? {
      assert Owns(s, s.once.i);
      assert Enabled(s, CloserMove(s.once.i));
    } else {
      var i := if s.reader.InClose? then s.reader.i else if s.reader.Idle? then OpenCloser(s) else 0;
      assert s.reader.WantsMu? ==> Enabled(s, ReaderMove);
      assert s.reader.InClose? && s.closers[i] == Closed ==> Enabled(s, ReaderMove);
      assert !s.reader.WantsMu? && s.closers[i] != Closed ==> Enabled(s, CloserMove(i)) by {
        assert i < |s.closers| ==> Owns(s, i);
      }
    }
  }

  ghost function OpenCloser(s: State): (i: nat)
    requires exists i :: 0 <= i < |s.closers| && s.closers[i] != Closed
    ensures i < |s.closers| && s.closers[i] != Closed
  {
    var i :| 0 <= i < |s.closers| && s.closers[i] != Closed; i
  }

  lemma ReaderProgress(s: State)
    requires Inv(s) && ReaderHolds(s.reader)
    ensures exists step :: Enabled(s, step) && (step.ReaderMove? || step.RawReturns? || step.FireTimer? || step.TimerCancels?)
  {
    hide MuInv, CloseInv;
    if s.reader.InRaw? {
      assert Enabled(s, RawReturns(0, None));
    } else if s.reader.JoinsTimer? && LastTimer(s) != Finished {
      var k := |s.timers| - 1;
      assert Enabled(s, FireTimer(k)) || Enabled(s, TimerCancels(k));
    } else {
      assert Enabled(s, ReaderMove);
    }
  }

  /**
   How a Read comes back: without an error and with the bytes of its raw read; or with an error, and
   then only after its own call of Close has returned, the body being closed.
   */
  lemma ReadReturns(s: State)
    requires Reachable(s) && Enabled(s, ReaderMove) && ReaderApply(s).reader.Idle?
    ensures var t, n := ReaderApply(s), InFlight(s.reader);
      && (if s.reader.Unlocks? then s.reader.error == None && t.failed == s.failed
          else s.reader.InClose? && t.failed && t.closed && t.rawCloses == 1)
      && n <= s.pos <= |s.raw| && t.delivered == s.delivered + s.raw[s.pos - n..s.pos]
  {
    hide MuInv, TimerInv, LookApply, StopTimer;
    ReachableInv(s);
    match s.reader
    case Looks(want) => LookStays(s, want);
    case StopsTimer(n, error) => StopStays(s, n, error);
    case Unlocks(n, error) =>
    case InClose(i, n, error) =>
    case _ =>
  }

  /** From step to step a Read keeps what it was asked for, and then the bytes and the error of its raw read. */
  lemma ReadGoesOn(s: State, want: nat)
    ensures Enabled(s, ReadCall(want)) ==> Apply(s, ReadCall(want)).reader == WantsMu(want)
    ensures Enabled(s, ReaderMove) ==>
      var next := ReaderApply(s).reader;
      match s.reader
      case WantsMu(w) => next == Looks(w)
      case StopsTimer(n, e) => next == JoinsTimer(n, e) || next == ChecksCause(n, e)
      case JoinsTimer(n, e) => next == ChecksCause(n, e)
      case Unlocks(n, Some(e)) => next == InClose(|s.closers|, n, e) && ReaderApply(s).closers == s.closers + [WantsOnce]
      case Unlocks(n, None) => next == Idle
      case InClose(_, _, _) => next == Idle
      case _ => true
  {
    hide LookApply;
  }

  lemma LookStays(s: State, want: nat)
    ensures !LookApply(s, want).reader.Idle?
  {
  }

  lemma StopStays(s: State, n: nat, error: Option<ReadError>)
    ensures !StopTimer(s, n, error).reader.Idle?
  {
  }

  // ---------- every call ends ----------

  function CloserSteps(pc: CloserPc): nat {
    match pc
    case WantsOnce => 6
    case CleansUp => 5
    case WantsReadMu => 4
    case ClosesRaw => 3
    case UnlocksMu => 2
    case LeavesOnce => 1
    case Closed => 0
  }

  function TimerSteps(t: Timer): nat {
    if t == Armed then 2 else if t == Firing then 1 else 0
  }

  /** A Read may arm a timer and call Close on its way. */
  function ReaderSteps(pc: ReaderPc): nat {
    match pc
    case WantsMu(_) => 80
    case Looks(_) => 70
    case InRaw(_) => 60
    case StopsTimer(_, _) => 50
    case JoinsTimer(_, _) => 40
    case ChecksCause(_, _) => 30
    case Unlocks(_, _) => 20
    case InClose(_, _, _) => 10
    case Idle => 0
  }

  function CloserTotal(closers: seq<CloserPc>): nat {
    if closers == [] then 0 else CloserTotal(closers[..|closers| - 1]) + CloserSteps(closers[|closers| - 1])
  }

  function TimerTotal(timers: seq<Timer>): nat {
    if timers == [] then 0 else TimerTotal(timers[..|timers| - 1]) + TimerSteps(timers[|timers| - 1])
  }

  /** A bound on the steps that the calls and timers there are can still take. */
  function StepsLeft(s: State): nat {
    ReaderSteps(s.reader) + CloserTotal(s.closers) + TimerTotal(s.timers)
  }

  lemma {:induction false} CloserTotalMoves(closers: seq<CloserPc>, i: nat, pc: CloserPc)
    requires i < |closers|
    ensures CloserTotal(closers[i := pc]) == CloserTotal(closers) - CloserSteps(closers[i]) + CloserSteps(pc)
  {
    var last := |closers| - 1;
    if i < last {
      CloserTotalMoves(closers[..last], i, pc);
      assert closers[i := pc][..last] == closers[..last][i := pc];
    } else {
      assert closers[i := pc][..last] == closers[..last];
    }
  }

  lemma {:induction false} TimerTotalMoves(timers: seq<Timer>, i: nat, t: Timer)
    requires i < |timers|
    ensures TimerTotal(timers[i := t]) == TimerTotal(timers) - TimerSteps(timers[i]) + TimerSteps(t)
  {
    var last := |timers| - 1;
    if i < last {
      TimerTotalMoves(timers[..last], i, t);
      assert timers[i := t][..last] == timers[..last][i := t];
    } else {
      assert timers[i := t][..last] == timers[..last];
    }
  }

  lemma CloserTotalGrows(closers: seq<CloserPc>)
    ensures CloserTotal(closers + [WantsOnce]) == CloserTotal(closers) + 6
  {
    assert (closers + [WantsOnce])[..|closers|] == closers;
  }

  lemma TimerTotalGrows(timers: seq<Timer>)
    ensures TimerTotal(timers + [Armed]) == TimerTotal(timers) + 2
  {
    assert (timers + [Armed])[..|timers|] == timers;
  }

  /**
   Every step of a call or a timer uses up some of what is left; only new calls add to it, and those
   are always possible. Together with Progress: every Read and Close call returns.
   */
  lemma StepsRunOut(s: State, step: Step)
    requires Enabled(s, step)
    ensures Enabled(s, CancelContext) && Enabled(s, CloseCall) && (s.reader.Idle? ==> Enabled(s, ReadCall(1)))
    ensures match step
      case CancelContext => StepsLeft(Apply(s, step)) == StepsLeft(s)
      case ReadCall(_) => StepsLeft(Apply(s, step)) == StepsLeft(s) + 80
      case CloseCall => StepsLeft(Apply(s, step)) == StepsLeft(s) + 6
      case _ => StepsLeft(Apply(s, step)) < StepsLeft(s)
  {
    hide CloserTotal, TimerTotal;
    match step
    case CloseCall => CloserTotalGrows(s.closers);
    case ReaderMove => ReaderUses(s);
    case CloserMove(i) => CloserUses(s, i);
    case FireTimer(k) => TimerTotalMoves(s.timers, k, Firing);
    case TimerCancels(k) => TimerTotalMoves(s.timers, k, Finished);
    case _ =>
  }

  lemma ReaderUses(s: State)
    requires Enabled(s, ReaderMove)
    ensures StepsLeft(ReaderApply(s)) < StepsLeft(s)
  {
    hide CloserTotal, TimerTotal, LookApply, StopTimer;
    match s.reader
    case Looks(want) => LookUses(s, want);
    case StopsTimer(n, error) => StopUses(s, n, error);
    case Unlocks(_, _) => CloserTotalGrows(s.closers);
    case _ =>
  }

  lemma LookUses(s: State, want: nat)
    requires s.reader == Looks(want)
    ensures StepsLeft(LookApply(s, want)) < StepsLeft(s)
  {
    hide CloserTotal, TimerTotal;
    TimerTotalGrows(s.timers);
  }

  lemma StopUses(s: State, n: nat, error: Option<ReadError>)
    requires s.reader == StopsTimer(n, error)
    ensures StepsLeft(StopTimer(s, n, error)) < StepsLeft(s)
  {
    hide CloserTotal, TimerTotal;
    if s.timers != [] {
      TimerTotalMoves(s.timers, |s.timers| - 1, Halted);
    }
  }

  lemma CloserUses(s: State, i: nat)
    requires Enabled(s, CloserMove(i))
    ensures StepsLeft(CloserApply(s, i)) < StepsLeft(s)
  {
    CloserGoes(s, i);
    hide CloserTotal, TimerTotal, CloserApply, CloserSteps;
    CloserTotalMoves(s.closers, i, CloserApply(s, i).closers[i]);
  }

  lemma CloserGoes(s: State, i: nat)
    requires Enabled(s, CloserMove(i))
    ensures var t := CloserApply(s, i);
      && |t.closers| == |s.closers| && t.closers == s.closers[i := t.closers[i]]
      && CloserSteps(t.closers[i]) < CloserSteps(s.closers[i])
      && t.reader == s.reader && t.timers == s.timers
  {
  }

  // ---------- a run ----------

  lemma {:induction false} LeadsOn(s: State, steps: seq<Step>, t: State, step: Step)
    requires Leads(s, steps, t) && Enabled(t, step)
    ensures Leads(s, steps + [step], Apply(t, step))
    decreases |steps|
  {
    hide Enabled, Apply;
    if steps == [] {
      assert [] + [step] == [step] && [step][1..] == [];
    } else {
      LeadsOn(Apply(s, steps[0]), steps[1..], t, step);
      assert (steps + [step])[1..] == steps[1..] + [step];
    }
  }

  lemma ReachableOn(s: State, step: Step)
    requires Reachable(s) && Enabled(s, step)
    ensures Reachable(Apply(s, step))
  {
    hide Enabled, Apply, Leads;
    var raw, idle, steps :| Leads(New(raw, idle), steps, s);
    LeadsOn(New(raw, idle), steps, s, step);
  }

  lemma ReachableNew(raw: seq<Byte>, idle: bool)
    ensures Reachable(New(raw, idle))
  {
    assert Leads(New(raw, idle), [], New(raw, idle));
  }

  /** A Read into an idle timeout, up to where its raw read has failed. */
  lemma TimesOut(raw: seq<Byte>, code: int) returns (s: State)
    ensures Reachable(s)
    ensures s == New(raw, true).(cause := Some(IdleTimeout(0)), mu := TheReader, timers := [Finished],
                                 reader := StopsTimer(0, Some(Raw(code))))
  {
    hide Reachable;
    s := New(raw, true);
    ReachableNew(raw, true);
    ReachableOn(s, ReadCall(1));
    s := Apply(s, ReadCall(1));
    ReachableOn(s, ReaderMove);
    s := Apply(s, ReaderMove);
    ReachableOn(s, ReaderMove);
    s := Apply(s, ReaderMove);
    assert s.timers == [Armed];
    ReachableOn(s, FireTimer(0));
    s := Apply(s, FireTimer(0));
    ReachableOn(s, TimerCancels(0));
    s := Apply(s, TimerCancels(0));
    assert s.timers == [Finished];
    ReachableOn(s, RawReturns(0, Some(code)));
    s := Apply(s, RawReturns(0, Some(code)));
  }

  /** The only call of Close, from its start to its end. */
  lemma ClosesAlone(s: State) returns (t: State)
    requires Reachable(s) && s.closers == [WantsOnce] && s.once == Fresh && s.mu == Free
    ensures Reachable(t)
    ensures t == s.(closers := [Closed], once := Over, closed := true, cleanups := s.cleanups + 1, rawCloses := s.rawCloses + 1,
                    cause := if s.cause.Some? then s.cause else Some(CleanedUp))
  {
    hide Reachable;
    t := s;
    for k := 0 to 6
      invariant Reachable(t)
      invariant t == s.(once := t.once, mu := t.mu, closed := t.closed, cleanups := t.cleanups, rawCloses := t.rawCloses,
                        cause := t.cause,
                        closers := [[WantsOnce, CleansUp, WantsReadMu, ClosesRaw, UnlocksMu, LeavesOnce, Closed][k]])
      invariant t.once == (if k == 0 then Fresh else if k == 6 then Over else RunBy(0))
      invariant t.mu == if 3 <= k <= 4 then TheCloser(0) else Free
      invariant t.closed == (if k >= 4 then true else s.closed)
      invariant t.cause == if k >= 2 && s.cause == None then Some(CleanedUp) else s.cause
      invariant t.cleanups == s.cleanups + if k >= 2 then 1 else 0
      invariant t.rawCloses == s.rawCloses + if k >= 4 then 1 else 0
    {
      ReachableOn(t, CloserMove(0));
      t := Apply(t, CloserMove(0));
    }
  }

  /** The Read then waits for the timer's callback, fails with the timeout, and closes the body. */
  lemma IdleTimeoutRun(raw: seq<Byte>, code: int) returns (s: State)
    ensures Reachable(s)
    ensures s == New(raw, true).(cause := Some(IdleTimeout(0)), timers := [Finished], terminal := Some(Cancelled(IdleTimeout(0))),
                                 failed := true, once := Over, closed := true, closers := [Closed], cleanups := 1, rawCloses := 1)
  {
    hide Reachable;
    s := TimesOut(raw, code);
    ReachableOn(s, ReaderMove);
    s := Apply(s, ReaderMove);
    ReachableOn(s, ReaderMove);
    s := Apply(s, ReaderMove);
    ReachableOn(s, ReaderMove);
    s := Apply(s, ReaderMove);
    ReachableOn(s, ReaderMove);
    s := Apply(s, ReaderMove);
    assert s.closers == [WantsOnce] && s.reader == InClose(0, 0, Cancelled(IdleTimeout(0)));
    s := ClosesAlone(s);
    ReachableOn(s, ReaderMove);
    s := Apply(s, ReaderMove);
  }

  /** A Read that nobody interferes with, up to its raw read. */
  lemma StartsReading(raw: seq<Byte>, idle: bool, want: nat) returns (s: State)
    requires want > 0
    ensures Reachable(s)
    ensures s == New(raw, idle).(mu := TheReader, reader := InRaw(want), timers := if idle then [Armed] else [])
  {
    hide Reachable;
    s := New(raw, idle);
    ReachableNew(raw, idle);
    ReachableOn(s, ReadCall(want));
    s := Apply(s, ReadCall(want));
    ReachableOn(s, ReaderMove);
    s := Apply(s, ReaderMove);
    ReachableOn(s, ReaderMove);
    s := Apply(s, ReaderMove);
  }

  /** It stops its timer, and gives out the bytes that came. */
  lemma ReadAlone(raw: seq<Byte>, idle: bool, want: nat, n: nat) returns (s: State)
    requires 0 < want && n <= want && n <= |raw|
    ensures Reachable(s)
    ensures s == New(raw, idle).(pos := n, delivered := raw[..n], timers := if idle then [Halted] else [])
  {
    hide Reachable;
    s := StartsReading(raw, idle, want);
    ReachableOn(s, RawReturns(n, None));
    s := Apply(s, RawReturns(n, None));
    ReachableOn(s, ReaderMove);
    s := Apply(s, ReaderMove);
    assert s.timers == if idle then [Halted] else [];
    ReachableOn(s, ReaderMove);
    s := Apply(s, ReaderMove);
    ReachableOn(s, ReaderMove);
    s := Apply(s, ReaderMove);
    assert raw[n - n..n] == raw[..n];
  }

  /** If the raw stream fails, so does the Read, with that error; it keeps it and closes the body. */
  lemma FailsAlone(raw: seq<Byte>, idle: bool, want: nat, n: nat, code: int) returns (s: State)
    requires 0 < want && n <= want && n <= |raw|
    ensures Reachable(s)
    ensures s == New(raw, idle).(pos := n, delivered := raw[..n], timers := if idle then [Halted] else [],
                                 cause := Some(CleanedUp), terminal := Some(Raw(code)), failed := true,
                                 once := Over, closed := true, closers := [Closed], cleanups := 1, rawCloses := 1)
  {
    hide Reachable;
    s := StartsReading(raw, idle, want);
    ReachableOn(s, RawReturns(n, Some(code)));
    s := Apply(s, RawReturns(n, Some(code)));
    ReachableOn(s, ReaderMove);
    s := Apply(s, ReaderMove);
    assert s.timers == if idle then [Halted] else [];
    ReachableOn(s, ReaderMove);
    s := Apply(s, ReaderMove);
    ReachableOn(s, ReaderMove);
    s := Apply(s, ReaderMove);
    assert s.closers == [WantsOnce] && s.reader == InClose(0, n, Raw(code));
    s := ClosesAlone(s);
    ReachableOn(s, ReaderMove);
    s := Apply(s, ReaderMove);
    assert raw[n - n..n] == raw[..n];
  }
}
