/**
 The upload body of a request: its length check, and the protocol by which a cancelled context and
 any number of Close calls close the raw body.
 */
module UploadLength {

  datatype ReadError = NoError | EOF | UnexpectedEOF | ExceedsLength | Failed(code: int)

  /** What one read of the raw body gives. */
  datatype RawRead = RawRead(n: nat, error: ReadError)

  class UploadReader {
    var remaining: int
    var checked: bool

    constructor (length: int)
      ensures checked == (length > 0) && remaining == length
    {
      remaining := length;
      checked := length > 0;
    }

    /** One Read, given what the raw body returned. */
    method Read(raw: RawRead) returns (n: nat, error: ReadError)
      modifies this
      ensures n == raw.n && checked == old(checked)
      ensures error == CheckedError(old(checked), old(remaining), raw)
      ensures remaining == RemainingAfter(old(checked), old(remaining), raw)
    {
      n, error := raw.n, raw.error;
      if checked {
        if n > remaining {
          return n, ExceedsLength;
        }
        remaining := remaining - n;
        if error == EOF && remaining > 0 {
          error := UnexpectedEOF;
        }
      }
    }
  }

  function CheckedError(checked: bool, remaining: int, raw: RawRead): ReadError {
    if checked && raw.n > remaining then ExceedsLength
    else if checked && raw.error == EOF && raw.n < remaining then UnexpectedEOF
    else raw.error
  }

  function RemainingAfter(checked: bool, remaining: int, raw: RawRead): int {
    if checked && raw.n <= remaining then remaining - raw.n else remaining
  }

  function Sum(chunks: seq<RawRead>): nat {
    if chunks == [] then 0 else chunks[0].n + Sum(chunks[1..])
  }

  /** The first error when reading on until one comes. */
  function FirstError(checked: bool, remaining: int, chunks: seq<RawRead>): ReadError {
    if chunks == [] then NoError
    else
      var error := CheckedError(checked, remaining, chunks[0]);
      if error != NoError then error
      else FirstError(checked, RemainingAfter(checked, remaining, chunks[0]), chunks[1..])
  }

  /** A raw body: reads without error, then one that reports the end or a failure. */
  predicate WholeBody(chunks: seq<RawRead>) {
    && chunks != []
    && chunks[|chunks| - 1].error != NoError
    && forall i :: 0 <= i < |chunks| - 1 ==> chunks[i].error == NoError
  }

  /**
   With a positive Content-Length more bytes than announced are an error, the end before all of them
   is an unexpected one, and anything else is what the raw body said.
   */
  lemma {:induction false} LengthEnforced(length: int, chunks: seq<RawRead>)
    requires length >= 0 && WholeBody(chunks)
    ensures FirstError(true, length, chunks) ==
      if Sum(chunks) > length then ExceedsLength
      else if Sum(chunks) < length && chunks[|chunks| - 1].error == EOF then UnexpectedEOF
      else chunks[|chunks| - 1].error
  {
    if |chunks| > 1 && chunks[0].n <= length {
      LengthEnforced(length - chunks[0].n, chunks[1..]);
    } else if |chunks| == 1 {
      assert Sum(chunks[1..]) == 0;
    }
  }

  /** Without one the reader passes on what the raw body says, whatever was announced. */
  lemma {:induction false} LengthUnchecked(length: int, chunks: seq<RawRead>)
    requires WholeBody(chunks)
    ensures FirstError(false, length, chunks) == chunks[|chunks| - 1].error
  {
    if |chunks| > 1 {
      LengthUnchecked(length, chunks[1..]);
    }
  }
}

module UploadClose {
  import opened Wrappers

  /** sync.Once: the first caller runs the function, others wait for it to finish. */
  datatype Once = Fresh | RunBy(who: Who) | Over

  datatype Who = TheCallback | TheCloser(i: nat)

  /** context.AfterFunc: either the callback is started or it is stopped. */
  datatype AfterFunc = Registered | Halted | Started

  datatype CallbackPc = NotRunning | WantsRaw | ClosesRaw | ClosesDone | Ended

  /** A Close call; comments say what it does next. */
  datatype CloserPc =
    | WantsOnce             // enter closeOnce
    | CallsStop             // stop the callback
    | WaitsDone             // receive from done
    | WantsRawOnce          // enter rawOnce
    | InRawClose            // close the raw body
    | LeavesOnce            // leave closeOnce
    | ReadsResult           // return closeErr
    | Returned(result: int)

  datatype State = State(
    contextDone: bool, after: AfterFunc, callback: CallbackPc, done: bool,
    rawOnce: Once, closeOnce: Once, closeErr: Option<int>, closers: seq<CloserPc>,
    rawCloses: nat)     // calls of raw.Close

  datatype Step = ContextEnds | StartCallback | CallbackMove(result: int) | Arrive | CloserMove(i: nat, result: int)

  function New(): State {
    State(false, Registered, NotRunning, false, Fresh, Fresh, None, [], 0)
  }

  predicate Enabled(s: State, step: Step) {
    match step
    case ContextEnds => true
    case StartCallback => s.contextDone && s.after == Registered
    case CallbackMove(_) =>
      (s.callback.WantsRaw? && !s.rawOnce.RunBy?) || s.callback.ClosesRaw? || s.callback.ClosesDone?
    case Arrive => true
    case CloserMove(i, _) =>
      && i < |s.closers|
      && match s.closers[i]
         case WantsOnce => !s.closeOnce.RunBy?
         case WaitsDone => s.done
         case WantsRawOnce => !s.rawOnce.RunBy?
         case Returned(_) => false
         case _ => true
  }

  function MoveTo(s: State, i: nat, pc: CloserPc): State
    requires i < |s.closers|
  {
    s.(closers := s.closers[i := pc])
  }

  function Apply(s: State, step: Step): State
    requires Enabled(s, step)
  {
    match step
    case ContextEnds => s.(contextDone := true)
    case StartCallback => s.(after := Started, callback := WantsRaw)
    case CallbackMove(result) => (
      match s.callback
      case WantsRaw =>
        if s.rawOnce == Over then s.(callback := ClosesDone)
        else s.(callback := ClosesRaw, rawOnce := RunBy(TheCallback), rawCloses := s.rawCloses + 1)
      case ClosesRaw => s.(callback := ClosesDone, rawOnce := Over, closeErr := Some(result))
      case _ => s.(callback := Ended, done := true))
    case Arrive => s.(closers := s.closers + [WantsOnce])
    case CloserMove(i, result) =>
      match s.closers[i]
      case WantsOnce =>
        if s.closeOnce == Over then MoveTo(s, i, ReadsResult)
        else MoveTo(s, i, CallsStop).(closeOnce := RunBy(TheCloser(i)))
      case CallsStop =>
        if s.after == Registered then MoveTo(s, i, WantsRawOnce).(after := Halted) else MoveTo(s, i, WaitsDone)
      case WaitsDone => MoveTo(s, i, WantsRawOnce)
      case WantsRawOnce =>
        if s.rawOnce == Over then MoveTo(s, i, LeavesOnce)
        else MoveTo(s, i, InRawClose).(rawOnce := RunBy(TheCloser(i)), rawCloses := s.rawCloses + 1)
      case InRawClose => MoveTo(s, i, LeavesOnce).(rawOnce := Over, closeErr := Some(result))
      case LeavesOnce => MoveTo(s, i, ReadsResult).(closeOnce := Over)
      case _ => MoveTo(s, i, Returned(if s.closeErr.Some? then s.closeErr.value else 0))
  }

  predicate InOnce(pc: CloserPc) {
    pc.CallsStop? || pc.WaitsDone? || pc.WantsRawOnce? || pc.InRawClose? || pc.LeavesOnce?
  }

  ghost predicate CallbackInv(s: State) {
    && (s.after == Started <==> !s.callback.NotRunning?)
    && (s.done <==> s.callback.Ended?)
    && (s.rawOnce == RunBy(TheCallback) <==> s.callback.ClosesRaw?)
    && (s.callback.ClosesDone? || s.callback.Ended? ==> s.rawOnce == Over)
  }

  ghost predicate OnceInv(s: State) {
    && s.rawCloses == (if s.rawOnce == Fresh then 0 else 1)
    && (s.rawOnce == Over <==> s.closeErr.Some?)
    && (s.rawOnce.RunBy? && s.rawOnce.who.TheCloser? ==> s.rawOnce.who.i < |s.closers|)
    && (s.closeOnce.RunBy? ==> s.closeOnce.who.TheCloser? && s.closeOnce.who.i < |s.closers|)
    && (s.closeOnce == Over ==> s.rawOnce == Over)
    && (s.after == Halted ==> s.closeOnce != Fresh)
  }

  ghost predicate CloserInv(s: State, i: nat)
    requires i < |s.closers|
  {
    var pc := s.closers[i];
    && (s.closeOnce == RunBy(TheCloser(i)) <==> InOnce(pc))
    && (s.rawOnce == RunBy(TheCloser(i)) <==> pc.InRawClose?)
    && (pc.CallsStop? ==> s.after != Halted)
    && (pc.WaitsDone? ==> s.after == Started)
    && (pc.LeavesOnce? ==> s.rawOnce == Over)
    && (pc.ReadsResult? ==> s.closeOnce == Over)
    && (pc.Returned? ==> s.closeOnce == Over && s.closeErr == Some(pc.result))
  }

  ghost predicate Inv(s: State) {
    CallbackInv(s) && OnceInv(s) && forall i: nat :: i < |s.closers| ==> CloserInv(s, i)
  }

  lemma MoverKeeps(s: State, i: nat, result: int)
    requires CallbackInv(s) && OnceInv(s) && Enabled(s, CloserMove(i, result)) && CloserInv(s, i)
    ensures var t := Apply(s, CloserMove(i, result)); CallbackInv(t) && OnceInv(t) && CloserInv(t, i)
  {
  }

  lemma OthersKeep(s: State, i: nat, result: int, j: nat)
    requires OnceInv(s) && Enabled(s, CloserMove(i, result)) && CloserInv(s, i)
    requires j < |s.closers| && j != i && CloserInv(s, j)
    ensures CloserInv(Apply(s, CloserMove(i, result)), j)
  {
  }

  lemma CloserMoveKeeps(s: State, i: nat, result: int)
    requires Inv(s) && Enabled(s, CloserMove(i, result))
    ensures Inv(Apply(s, CloserMove(i, result)))
  {
    var t := Apply(s, CloserMove(i, result));
    assert |t.closers| == |s.closers|;
    assert CloserInv(s, i);
    hide Enabled, Apply, CallbackInv, OnceInv, CloserInv;
    MoverKeeps(s, i, result);
    forall j: nat | j < |t.closers|
      ensures CloserInv(t, j)
    {
      if j != i {
        OthersKeep(s, i, result, j);
      }
    }
  }

  lemma InvKept(s: State, step: Step)
    requires Inv(s) && Enabled(s, step)
    ensures Inv(Apply(s, step))
  {
    if step.CloserMove? {
      CloserMoveKeeps(s, step.i, step.result);
    } else {
      var t := Apply(s, step);
      forall j | 0 <= j < |s.closers|
        ensures CloserInv(t, j)
      {
        assert CloserInv(s, j);
      }
    }
  }

  ghost predicate Leads(s: State, steps: seq<Step>, t: State)
    decreases |steps|
  {
    if steps == [] then s == t
    else Enabled(s, steps[0]) && Leads(Apply(s, steps[0]), steps[1..], t)
  }

  lemma {:induction false} InvHolds(s: State, steps: seq<Step>, t: State)
    requires Inv(s) && Leads(s, steps, t)
    ensures Inv(t)
    decreases |steps|
  {
    hide Inv, Enabled, Apply;
    if steps != [] {
      InvKept(s, steps[0]);
      InvHolds(Apply(s, steps[0]), steps[1..], t);
    }
  }

  /**
   Under any interleaving the raw body is closed at most once; when a Close call has returned it
   has been closed, and every Close returns the result of that one close. So does the callback's
   end mean that it has been closed.
   */
  lemma ClosedOnce(steps: seq<Step>, s: State)
    requires Leads(New(), steps, s)
    ensures s.rawCloses <= 1
    ensures forall i :: 0 <= i < |s.closers| && s.closers[i].Returned? ==>
      s.rawCloses == 1 && s.rawOnce == Over && s.closeErr == Some(s.closers[i].result)
    ensures s.callback.Ended? ==> s.rawCloses == 1 && s.rawOnce == Over
  {
    InvHolds(New(), steps, s);
    forall i | 0 <= i < |s.closers| && s.closers[i].Returned?
      ensures s.rawCloses == 1 && s.rawOnce == Over && s.closeErr == Some(s.closers[i].result)
    {
      assert CloserInv(s, i);
    }
  }

  /** The callback starts only for a context that has ended, and has ended itself before any Close returns. */
  ghost predicate CallbackOver(s: State) {
    && (s.callback != NotRunning ==> s.contextDone)
    && (forall i: nat :: i < |s.closers| && Settled(s.closers[i]) ==> s.after == Halted || s.callback.Ended?)
    && (s.closeOnce == Over ==> s.after == Halted || s.callback.Ended?)
  }

  /** A Close call that has stopped the callback or waited for it. */
  predicate Settled(pc: CloserPc) {
    pc.WantsRawOnce? || pc.InRawClose? || pc.LeavesOnce? || pc.Returned?
  }

  lemma CallbackOverKept(s: State, step: Step)
    requires Inv(s) && CallbackOver(s) && Enabled(s, step)
    ensures CallbackOver(Apply(s, step))
  {
    if step.CloserMove? {
      assert CloserInv(s, step.i);
    }
    hide CloserInv;
  }

  lemma {:induction false} CallbackOverHolds(s: State, steps: seq<Step>, t: State)
    requires Inv(s) && CallbackOver(s) && Leads(s, steps, t)
    ensures CallbackOver(t)
    decreases |steps|
  {
    hide Inv, CallbackOver, Enabled, Apply;
    if steps != [] {
      InvKept(s, steps[0]);
      CallbackOverKept(s, steps[0]);
      CallbackOverHolds(Apply(s, steps[0]), steps[1..], t);
    }
  }

  /** The callback runs only if the context has ended, and no longer once some Close has returned. */
  lemma NoLateCallback(steps: seq<Step>, s: State)
    requires Leads(New(), steps, s)
    ensures s.callback != NotRunning ==> s.contextDone
    ensures forall i: nat :: i < |s.closers| && s.closers[i].Returned? ==> s.after == Halted || s.callback.Ended?
  {
    CallbackOverHolds(New(), steps, s);
  }

  /** The stored error is that of the raw close, and stays. */
  lemma ResultIsRawClose(s: State, step: Step)
    requires Inv(s) && Enabled(s, step)
    ensures s.closeErr.Some? ==> Apply(s, step).closeErr == s.closeErr
    ensures s.closeErr == None && Apply(s, step).closeErr.Some? ==>
      || (s.callback.ClosesRaw? && step.CallbackMove? && Apply(s, step).closeErr.value == step.result)
      || (step.CloserMove? && s.closers[step.i].InRawClose? && Apply(s, step).closeErr.value == step.result)
  {
    if step.CloserMove? {
      assert CloserInv(s, step.i);
    }
  }

  /** While a closer is inside closeOnce and not in the raw close, no other closer is in it. */
  lemma RawCloseIsCallback(s: State, i: nat)
    requires Inv(s) && i < |s.closers| && InOnce(s.closers[i]) && !s.closers[i].InRawClose?
    ensures s.rawOnce.RunBy? ==> s.rawOnce.who == TheCallback
  {
    assert CloserInv(s, i);
    forall j: nat | j < |s.closers|
      ensures s.rawOnce != RunBy(TheCloser(j))
    {
      assert CloserInv(s, j);
    }
    match s.rawOnce
    case RunBy(TheCloser(k)) => assert false;
    case _ =>
  }

  /** Close waits only for a callback that was started, and that still runs or has closed done. */
  lemma WaitIsFounded(steps: seq<Step>, s: State, i: nat)
    requires Leads(New(), steps, s) && i < |s.closers| && s.closers[i] == WaitsDone
    ensures s.done || s.callback.WantsRaw? || s.callback.ClosesRaw? || s.callback.ClosesDone?
    ensures !s.done ==> Enabled(s, CallbackMove(0))
  {
    InvHolds(New(), steps, s);
    assert CloserInv(s, i);
    RawCloseIsCallback(s, i);
  }

  /** As long as a Close call has not returned, some thread can move. */
  lemma CloseProgress(steps: seq<Step>, s: State, i: nat)
    requires Leads(New(), steps, s) && i < |s.closers| && !s.closers[i].Returned?
    ensures exists step :: Enabled(s, step) && (step.CallbackMove? || step.CloserMove?)
  {
    InvHolds(New(), steps, s);
    var j := if s.closeOnce.RunBy? then s.closeOnce.who.i else i;
    assert CloserInv(s, i) && CloserInv(s, j);
    if s.closers[j] == WaitsDone {
      WaitIsFounded(steps, s, j);
      assert Enabled(s, CallbackMove(0)) || Enabled(s, CloserMove(j, 0));
    } else if s.closers[j] == WantsRawOnce && s.rawOnce.RunBy? {
      RawCloseIsCallback(s, j);
      assert Enabled(s, CallbackMove(0));
    } else {
      assert Enabled(s, CloserMove(j, 0));
    }
  }

  // ---------- every call ends ----------

  function CloserSteps(pc: CloserPc): nat {
    match pc
    case WantsOnce => 7
    case CallsStop => 6
    case WaitsDone => 5
    case WantsRawOnce => 4
    case InRawClose => 3
    case LeavesOnce => 2
    case ReadsResult => 1
    case Returned(_) => 0
  }

  function CloserTotal(closers: seq<CloserPc>): nat {
    if closers == [] then 0 else CloserTotal(closers[..|closers| - 1]) + CloserSteps(closers[|closers| - 1])
  }

  /** Steps that the calls there are and the callback can still take. */
  function StepsLeft(s: State): nat {
    CloserTotal(s.closers) +
    if s.after == Registered then 4
    else if s.callback.WantsRaw? then 3 else if s.callback.ClosesRaw? then 2 else if s.callback.ClosesDone? then 1 else 0
  }

  lemma {:induction false} TotalAfterMove(closers: seq<CloserPc>, i: nat, pc: CloserPc)
    requires i < |closers|
    ensures CloserTotal(closers[i := pc]) == CloserTotal(closers) - CloserSteps(closers[i]) + CloserSteps(pc)
  {
    var last := |closers| - 1;
    if i < last {
      TotalAfterMove(closers[..last], i, pc);
      assert closers[i := pc][..last] == closers[..last][i := pc];
    } else {
      assert closers[i := pc][..last] == closers[..last];
    }
  }

  lemma TotalAfterCall(closers: seq<CloserPc>)
    ensures CloserTotal(closers + [WantsOnce]) == CloserTotal(closers) + 7
  {
    assert (closers + [WantsOnce])[..|closers|] == closers;
  }

  /**
   Every step of the callback or of a Close call uses up some of what is left, and only a new call
   adds to it. Together with CloseProgress: every Close call returns.
   */
  lemma StepsRunOut(steps: seq<Step>, s: State, step: Step)
    requires Leads(New(), steps, s) && Enabled(s, step)
    ensures match step
      case ContextEnds => StepsLeft(Apply(s, step)) == StepsLeft(s)
      case Arrive => StepsLeft(Apply(s, step)) == StepsLeft(s) + 7
      case _ => StepsLeft(Apply(s, step)) < StepsLeft(s)
  {
    InvHolds(New(), steps, s);
    match step
    case ContextEnds =>
    case Arrive => TotalAfterCall(s.closers);
    case CloserMove(i, result) => CloserUses(s, i, result);
    case _ => CallbackUses(s, step);
  }

  lemma CloserUses(s: State, i: nat, result: int)
    requires CallbackInv(s) && Enabled(s, CloserMove(i, result))
    ensures StepsLeft(Apply(s, CloserMove(i, result))) < StepsLeft(s)
  {
    CloserGoes(s, i, result);
    InRange(s, i, result);
    hide CloserTotal, CloserSteps, Apply, Enabled;
    TotalAfterMove(s.closers, i, Apply(s, CloserMove(i, result)).closers[i]);
  }

  lemma InRange(s: State, i: nat, result: int)
    requires Enabled(s, CloserMove(i, result))
    ensures i < |s.closers|
  {
  }

  lemma CloserGoes(s: State, i: nat, result: int)
    requires Enabled(s, CloserMove(i, result))
    ensures var t := Apply(s, CloserMove(i, result));
      && |t.closers| == |s.closers| && t.closers == s.closers[i := t.closers[i]]
      && CloserSteps(t.closers[i]) < CloserSteps(s.closers[i])
      && t.callback == s.callback && (t.after == s.after || t.after == Halted)
  {
    match s.closers[i]
    case WantsOnce =>
    case CallsStop =>
    case WaitsDone =>
    case WantsRawOnce =>
    case InRawClose =>
    case LeavesOnce =>
    case ReadsResult =>
    case Returned(_) =>
  }

  lemma CallbackUses(s: State, step: Step)
    requires CallbackInv(s) && Enabled(s, step) && (step.StartCallback? || step.CallbackMove?)
    ensures StepsLeft(Apply(s, step)) < StepsLeft(s)
  {
    hide CloserTotal;
  }

  // ---------- two runs ----------

  lemma LeadsFrom(s: State, step: Step, rest: seq<Step>, t: State)
    requires Enabled(s, step) && Leads(Apply(s, step), rest, t)
    ensures Leads(s, [step] + rest, t)
  {
    assert ([step] + rest)[1..] == rest;
  }

  /** A cancelled context closes the body without any Close; the callback cannot start before. */
  lemma CancelCloses(r: int) returns (steps: seq<Step>, s: State)
    ensures !Enabled(New(), StartCallback)
    ensures Leads(New(), steps, s) && |steps| == 5
    ensures s == New().(contextDone := true, after := Started, callback := Ended, done := true,
                        rawOnce := Over, closeErr := Some(r), rawCloses := 1)
  {
    var s1 := Apply(New(), ContextEnds);
    var s2 := Apply(s1, StartCallback);
    var s3 := Apply(s2, CallbackMove(r));
    var s4 := Apply(s3, CallbackMove(r));
    s := Apply(s4, CallbackMove(0));
    LeadsFrom(s4, CallbackMove(0), [], s);
    steps := [CallbackMove(0)] + [];
    LeadsFrom(s3, CallbackMove(r), steps, s);
    steps := [CallbackMove(r)] + steps;
    LeadsFrom(s2, CallbackMove(r), steps, s);
    steps := [CallbackMove(r)] + steps;
    LeadsFrom(s1, StartCallback, steps, s);
    steps := [StartCallback] + steps;
    LeadsFrom(New(), ContextEnds, steps, s);
    steps := [ContextEnds] + steps;
  }

  /** A Close call alone stops the callback, closes the body and returns the result of that. */
  lemma CloseAlone(r: int) returns (steps: seq<Step>, s: State)
    ensures Leads(New(), steps, s) && |steps| == 7
    ensures s == New().(after := Halted, rawOnce := Over, closeOnce := Over, closeErr := Some(r),
                        closers := [Returned(r)], rawCloses := 1)
  {
    var s1 := Apply(New(), Arrive);
    assert s1.closers == [WantsOnce];
    var s2 := Apply(s1, CloserMove(0, r));
    var s3 := Apply(s2, CloserMove(0, r));
    var s4 := Apply(s3, CloserMove(0, r));
    var s5 := Apply(s4, CloserMove(0, r));
    var s6 := Apply(s5, CloserMove(0, r));
    s := Apply(s6, CloserMove(0, r));
    steps := [CloserMove(0, r)] + [];
    LeadsFrom(s6, CloserMove(0, r), [], s);
    LeadsFrom(s5, CloserMove(0, r), steps, s);
    steps := [CloserMove(0, r)] + steps;
    LeadsFrom(s4, CloserMove(0, r), steps, s);
    steps := [CloserMove(0, r)] + steps;
    LeadsFrom(s3, CloserMove(0, r), steps, s);
    steps := [CloserMove(0, r)] + steps;
    LeadsFrom(s2, CloserMove(0, r), steps, s);
    steps := [CloserMove(0, r)] + steps;
    LeadsFrom(s1, CloserMove(0, r), steps, s);
    steps := [CloserMove(0, r)] + steps;
    LeadsFrom(New(), Arrive, steps, s);
    steps := [Arrive] + steps;
  }
}
