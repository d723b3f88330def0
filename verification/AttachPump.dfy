/** The output pump of src/tui/attach.ts. Its callbacks run one at a time, but in any order: the
    daemon announces output and exits whenever it likes, one fetch at a time is in flight, and
    between the end of the pump's loop and the callback that clears `pumping` other callbacks may
    run. */
module AttachPump {
  import opened Wrappers

  type Byte = b: int | 0 <= b < 256

  /** Where the pump is: not running, waiting for a fetch, or out of its loop with the clearing
      callback still to come. */
  datatype Pump = Idle | Fetching(at: nat) | Winding

  /** Why the session ended: the log was drained, or anything else. */
  datatype Cause = Drained | Interrupted

  datatype Slice = Slice(data: seq<Byte>, endCursor: nat, nextCursor: Option<nat>)

  datatype View = View(
    cursor: nat,
    targetCursor: nat,
    outputQueued: bool,
    pump: Pump,
    exitPending: bool,
    replayReady: bool,
    ending: bool,
    active: bool,
    cause: Option<Cause>,
    written: seq<Byte>)

  function Opened(): View {
    View(0, 0, false, Idle, false, false, false, true, None, [])
  }

  function Max(a: nat, b: nat): nat {
    if a < b then b else a
  }

  function Finish(v: View, cause: Cause): View {
    if v.ending then v else v.(ending := true, cause := Some(cause))
  }

  /** The head of the pump's loop: start a fetch, or leave the loop. */
  function LoopHead(v: View): View {
    if v.outputQueued && v.active && !v.ending then v.(outputQueued := false, pump := Fetching(v.cursor))
    else v.(pump := Winding)
  }

  /** `pumpOutput` */
  function StartPump(v: View): View {
    if !v.pump.Idle? || v.ending || !v.active then v else LoopHead(v)
  }

  function OnOutputAvailable(v: View, nextCursor: nat): View {
    if !v.active || v.ending then v
    else
      var noted := v.(targetCursor := Max(v.targetCursor, nextCursor), outputQueued := true);
      if v.replayReady then StartPump(noted) else noted
  }

  function OnExit(v: View, nextCursor: Option<nat>): View {
    var noted := v.(exitPending := true,
                    targetCursor := Max(v.targetCursor, nextCursor.GetOr(v.targetCursor)));
    if !v.replayReady then noted
    else if noted.cursor < noted.targetCursor then StartPump(noted.(outputQueued := true))
    else Finish(noted, Drained)
  }

  /** A fetch was answered: write what came, note how far the log goes, and go round again. A
      cursor that does not advance although output is missing is an error. */
  function OnSlice(v: View, slice: Slice): View {
    if !v.active || v.ending then v.(pump := Winding)
    else
      var wrote := v.(written := v.written + slice.data,
                      targetCursor := Max(v.targetCursor, slice.nextCursor.GetOr(slice.endCursor)));
      if slice.endCursor <= wrote.cursor && wrote.cursor < wrote.targetCursor then
        Finish(wrote, Interrupted).(pump := Winding)
      else
        var moved := wrote.(cursor := slice.endCursor);
        LoopHead(if moved.cursor < moved.targetCursor then moved.(outputQueued := true)
                 else if moved.exitPending then Finish(moved, Drained)
                 else moved)
  }

  /** The fetch was rejected. */
  function OnFetchError(v: View): View {
    Finish(v, Interrupted).(pump := Winding)
  }

  /** The clearing callback, which starts the pump again if output was queued meanwhile. */
  function OnWound(v: View): View {
    var idle := v.(pump := Idle);
    if v.outputQueued && v.active && !v.ending then StartPump(idle) else idle
  }

  /** The replay is in: `final` when the terminal had already ended, `notRunning` when taking
      control showed that it had. */
  function OnReplay(v: View, slice: Slice, final: bool, notRunning: bool): View {
    var told := if notRunning && !final then v.(exitPending := true, outputQueued := true) else v;
    var ready := told.(written := told.written + slice.data,
                       cursor := slice.endCursor,
                       targetCursor := Max(told.targetCursor, slice.nextCursor.GetOr(slice.endCursor)),
                       exitPending := told.exitPending || final,
                       replayReady := true);
    if ready.cursor < ready.targetCursor || ready.outputQueued then StartPump(ready.(outputQueued := true))
    else if ready.exitPending then Finish(ready, Drained)
    else ready
  }

  /** Disconnection, loss of control, a signal or a detach key. */
  function OnInterrupt(v: View): View {
    Finish(v, Interrupted)
  }

  function OnCleanup(v: View): View {
    v.(active := false)
  }

  /** The session's variables as the callbacks share them. */
  class AttachSession {
    var cursor: nat
    var targetCursor: nat
    var outputQueued: bool
    var pump: Pump
    var exitPending: bool
    var replayReady: bool
    var ending: bool
    var active: bool
    var cause: Option<Cause>
    var written: seq<Byte>

    function Now(): View
      reads this
    {
      View(cursor, targetCursor, outputQueued, pump, exitPending, replayReady, ending, active, cause, written)
    }

    constructor ()
      ensures Now() == Opened()
    {
      cursor, targetCursor, outputQueued, pump := 0, 0, false, Idle;
      exitPending, replayReady, ending, active := false, false, false, true;
      cause, written := None, [];
    }

    method Ended(why: Cause)
      modifies this
      ensures Now() == Finish(old(Now()), why)
    {
      if ending {
        return;
      }
      ending, cause := true, Some(why);
    }

    /** The loop up to its next await, or past its end. */
    method Loop()
      modifies this
      ensures Now() == LoopHead(old(Now()))
    {
      if outputQueued && active && !ending {
        outputQueued, pump := false, Fetching(cursor);
      } else {
        pump := Winding;
      }
    }

    method PumpOutput()
      modifies this
      ensures Now() == StartPump(old(Now()))
    {
      if !pump.Idle? || ending || !active {
        return;
      }
      Loop();
    }

    method OutputAvailable(nextCursor: nat)
      modifies this
      ensures Now() == OnOutputAvailable(old(Now()), nextCursor)
    {
      if !active || ending {
        return;
      }
      targetCursor, outputQueued := Max(targetCursor, nextCursor), true;
      if replayReady {
        PumpOutput();
      }
    }

    method Exit(nextCursor: Option<nat>)
      modifies this
      ensures Now() == OnExit(old(Now()), nextCursor)
    {
      exitPending := true;
      if nextCursor.Some? {
        targetCursor := Max(targetCursor, nextCursor.value);
      }
      if !replayReady {
        return;
      }
      if cursor < targetCursor {
        outputQueued := true;
        PumpOutput();
      } else {
        Ended(Drained);
      }
    }

    method SliceArrived(slice: Slice)
      modifies this
      ensures Now() == OnSlice(old(Now()), slice)
    {
      if !active || ending {
        pump := Winding;
        return;
      }
      written := written + slice.data;
      targetCursor := Max(targetCursor, if slice.nextCursor.Some? then slice.nextCursor.value else slice.endCursor);
      if slice.endCursor <= cursor && cursor < targetCursor {
        Ended(Interrupted);
        pump := Winding;
        return;
      }
      cursor := slice.endCursor;
      if cursor < targetCursor {
        outputQueued := true;
      } else if exitPending {
        Ended(Drained);
      }
      Loop();
    }

    method Wound()
      modifies this
      ensures Now() == OnWound(old(Now()))
    {
      pump := Idle;
      if outputQueued && active && !ending {
        PumpOutput();
      }
    }

    method ReplayArrived(slice: Slice, final: bool, notRunning: bool)
      modifies this
      ensures Now() == OnReplay(old(Now()), slice, final, notRunning)
    {
      if notRunning && !final {
        exitPending, outputQueued := true, true;
      }
      written := written + slice.data;
      cursor := slice.endCursor;
      targetCursor := Max(targetCursor, if slice.nextCursor.Some? then slice.nextCursor.value else cursor);
      if final {
        exitPending := true;
      }
      replayReady := true;
      if cursor < targetCursor || outputQueued {
        outputQueued := true;
        PumpOutput();
      } else if exitPending {
        Ended(Drained);
      }
    }
  }

  // ---------------------------------------------------------------- every order of callbacks

  /** The session and the daemon's log of the terminal, which only grows. */
  datatype World = World(view: View, log: seq<Byte>)

  datatype Event =
    | Produce(bytes: seq<Byte>)
    | Announce(nextCursor: nat)
    | Exits(last: Option<nat>)
    | Replay(slice: Slice, final: bool, notRunning: bool)
    | Answer(slice: Slice)
    | Reject
    | Wind
    | Interrupt
    | CleanUp

  /** A contiguous slice of the log from `from`, as it stands when it is taken. */
  predicate Contiguous(log: seq<Byte>, from: nat, slice: Slice) {
    from <= slice.endCursor <= |log| && slice.data == log[from..slice.endCursor]
  }

  /** Which events can happen: one replay, answers only to the fetch in flight, one clearing
      callback for each run of the pump, and contiguous slices. */
  predicate Possible(w: World, e: Event) {
    match e
    case Replay(slice, _, _) => !w.view.replayReady && Contiguous(w.log, 0, slice)
    case Answer(slice) => w.view.pump.Fetching? && Contiguous(w.log, w.view.pump.at, slice)
    case Reject => w.view.pump.Fetching?
    case Wind => w.view.pump.Winding?
    case CleanUp => w.view.ending
    case _ => true
  }

  function Happen(w: World, e: Event): World {
    if !Possible(w, e) then w
    else match e
      case Produce(bytes) => w.(log := w.log + bytes)
      case Announce(nextCursor) => w.(view := OnOutputAvailable(w.view, nextCursor))
      case Exits(last) => w.(view := OnExit(w.view, last))
      case Replay(slice, final, notRunning) => w.(view := OnReplay(w.view, slice, final, notRunning))
      case Answer(slice) => w.(view := OnSlice(w.view, slice))
      case Reject => w.(view := OnFetchError(w.view))
      case Wind => w.(view := OnWound(w.view))
      case Interrupt => w.(view := OnInterrupt(w.view))
      case CleanUp => w.(view := OnCleanup(w.view))
  }

  function HappenAll(w: World, es: seq<Event>): World {
    if es == [] then w else Happen(HappenAll(w, es[..|es| - 1]), es[|es| - 1])
  }

  /** Work is left: output has been announced that is not yet written, or an exit waits for it. */
  predicate WorkLeft(v: View) {
    v.cursor < v.targetCursor || v.exitPending
  }

  ghost predicate WakeUpsKept(v: View) {
    v.replayReady && !v.ending ==>
      && (v.pump.Idle? ==> !v.outputQueued && !WorkLeft(v))
      && (v.pump.Winding? ==> v.outputQueued || !WorkLeft(v))
  }

  ghost predicate Inv(w: World) {
    var v := w.view;
    && v.cursor <= |w.log|
    && v.written == w.log[..v.cursor]
    && (v.pump.Fetching? ==> v.pump.at == v.cursor)
    && (!v.replayReady ==> v.pump.Idle? && v.cursor == 0)
    && (!v.active ==> v.ending)
    && WakeUpsKept(v)
  }

  lemma AnswerKeepsInv(w: World, slice: Slice)
    requires Inv(w) && Possible(w, Answer(slice))
    ensures Inv(Happen(w, Answer(slice)))
  {
    if slice.endCursor <= w.view.cursor {
      assert w.view.written + slice.data == w.view.written;
    } else {
      assert w.view.written + slice.data == w.log[..slice.endCursor];
    }
  }

  lemma ReplayKeepsInv(w: World, e: Event)
    requires Inv(w) && e.Replay? && Possible(w, e)
    ensures Inv(Happen(w, e))
  {
    assert w.view.written + e.slice.data == w.log[..e.slice.endCursor];
  }

  lemma HappenKeepsInv(w: World, e: Event)
    requires Inv(w)
    ensures Inv(Happen(w, e))
  {
    if e.Answer? && Possible(w, e) {
      AnswerKeepsInv(w, e.slice);
    } else if e.Replay? && Possible(w, e) {
      ReplayKeepsInv(w, e);
    } else if e.Produce? {
      assert (w.log + e.bytes)[..w.view.cursor] == w.log[..w.view.cursor];
    }
  }

  /** How far an event says that the log goes. */
  function SaysCursor(w: World, e: Event): nat {
    if !Possible(w, e) then 0
    else match e
      case Announce(nextCursor) => nextCursor
      case Exits(last) => last.GetOr(0)
      case Replay(slice, _, _) => slice.nextCursor.GetOr(slice.endCursor)
      case Answer(slice) => slice.nextCursor.GetOr(slice.endCursor)
      case _ => 0
  }

  /** Whether an event says that the terminal has ended. */
  predicate SaysExit(w: World, e: Event) {
    Possible(w, e) && (e.Exits? || (e.Replay? && (e.final || e.notRunning)))
  }

  function Run(es: seq<Event>): World {
    HappenAll(World(Opened(), []), es)
  }

  /** The furthest cursor that any event has given while the session was not ending. */
  function ToldCursor(es: seq<Event>): nat {
    if es == [] then 0
    else
      var n := |es| - 1;
      var before := Run(es[..n]);
      Max(ToldCursor(es[..n]), if before.view.ending then 0 else SaysCursor(before, es[n]))
  }

  /** Some event has told of the terminal's end while the session was not ending. */
  predicate ToldExit(es: seq<Event>) {
    es != [] &&
      var n := |es| - 1;
      var before := Run(es[..n]);
      ToldExit(es[..n]) || (!before.view.ending && SaysExit(before, es[n]))
  }

  ghost predicate IsNoted(w: World, e: Event) {
    var v := Happen(w, e).view;
    && w.view.targetCursor <= v.targetCursor && SaysCursor(w, e) <= v.targetCursor
    && (v.exitPending <==> w.view.exitPending || SaysExit(w, e))
  }

  lemma AnswerIsNoted(w: World, slice: Slice)
    requires w.view.active && !w.view.ending
    ensures IsNoted(w, Answer(slice))
  {
  }

  lemma ReplayIsNoted(w: World, slice: Slice, final: bool, notRunning: bool)
    ensures IsNoted(w, Replay(slice, final, notRunning))
  {
  }

  /** An event is taken note of, and nothing noted before is forgotten. */
  lemma EventIsNoted(w: World, e: Event)
    requires Inv(w) && !w.view.ending
    ensures IsNoted(w, e)
  {
    match e
    case Answer(slice) => AnswerIsNoted(w, slice); hide *;
    case Replay(slice, final, notRunning) => ReplayIsNoted(w, slice, final, notRunning); hide *;
    case _ =>
  }

  lemma OnceEndingStaysEnding(w: World, e: Event)
    requires w.view.ending
    ensures Happen(w, e).view.ending
  {
  }

  /** All that the session was told before it began to end is in its variables. */
  lemma {:induction false} EverythingIsNoted(es: seq<Event>)
    ensures var v := Run(es).view;
      Inv(Run(es)) && (!v.ending ==> ToldCursor(es) <= v.targetCursor && (ToldExit(es) <==> v.exitPending))
  {
    if es != [] {
      var n := |es| - 1;
      EverythingIsNoted(es[..n]);
      HappenKeepsInv(Run(es[..n]), es[n]);
      if Run(es[..n]).view.ending {
        OnceEndingStaysEnding(Run(es[..n]), es[n]);
      } else {
        EventIsNoted(Run(es[..n]), es[n]);
      }
      hide Inv, Happen, SaysCursor, SaysExit;
    }
  }

  /** In every order of callbacks, what was written is exactly the log up to the cursor, and as long as
      the session goes on, output that any event has told of, or an exit, finds a pump running that
      will look again: no wake-up is lost in the window before `pumping` is cleared. */
  lemma NothingIsLost(es: seq<Event>)
    ensures var w := Run(es);
      var v := w.view;
      && Inv(w)
      && v.cursor <= |w.log| && v.written == w.log[..v.cursor]
      && (!v.ending ==> ToldCursor(es) <= v.targetCursor && (ToldExit(es) <==> v.exitPending))
      && (v.replayReady && !v.ending && (v.cursor < ToldCursor(es) || WorkLeft(v)) ==>
            v.pump.Fetching? || (v.pump.Winding? && v.outputQueued))
  {
    EverythingIsNoted(es);
    hide Run, ToldCursor, ToldExit;
  }

  /** The session breaks off: it is interrupted, its fetch is rejected, or a fetch brings nothing new
      although output is missing. */
  predicate BreaksOff(w: World, e: Event) {
    Possible(w, e) &&
      match e
      case Interrupt => true
      case Reject => true
      case Answer(slice) =>
        slice.endCursor <= w.view.cursor < Max(w.view.targetCursor, slice.nextCursor.GetOr(slice.endCursor))
      case _ => false
  }

  lemma EndHasCause(w: World, e: Event)
    requires Inv(w) && !w.view.ending
    ensures var v := Happen(w, e).view;
      && (v.ending ==> v.cause == Some(if BreaksOff(w, e) then Interrupted else Drained))
      && (BreaksOff(w, e) ==> v.ending)
      && (v.ending && !BreaksOff(w, e) ==> v.targetCursor <= v.cursor && v.exitPending)
  {
  }

  /** A session that begins to end either breaks off, or it has drained: then it was told of an exit
      and has written everything that it was ever told of. */
  lemma DrainedMeansCaughtUp(es: seq<Event>, e: Event)
    ensures var before := Run(es);
      var after := Run(es + [e]);
      !before.view.ending && after.view.ending ==>
        && after.view.cause == Some(if BreaksOff(before, e) then Interrupted else Drained)
        && (after.view.cause == Some(Drained) ==>
              && ToldExit(es + [e]) && ToldCursor(es + [e]) <= after.view.cursor
              && after.view.cursor <= |after.log| && after.view.written == after.log[..after.view.cursor])
  {
    assert (es + [e])[..|es|] == es;
    EverythingIsNoted(es);
    HappenKeepsInv(Run(es), e);
    if !Run(es).view.ending {
      EventIsNoted(Run(es), e);
      EndHasCause(Run(es), e);
    }
    assert Run(es + [e]) == Happen(Run(es), e);
    hide Run, Happen, SaysCursor, SaysExit, BreaksOff;
  }

  // ---------------------------------------------------------------- what each event sets going

  /** What the terminal produces is logged, and is news to nobody until it is announced or fetched. */
  lemma ProducedIsLogged(w: World, bytes: seq<Byte>)
    ensures Happen(w, Produce(bytes)) == World(w.view, w.log + bytes)
  {
  }

  /** An ended session writes nothing more, takes no note of announcements and starts no further fetch. */
  lemma EndedStaysQuiet(w: World, e: Event)
    requires Inv(w) && w.view.ending
    ensures var v := Happen(w, e).view;
      && (e.Announce? ==> v == w.view)
      && v.ending && v.cause == w.view.cause
      && (!e.Replay? ==> v.written == w.view.written)
      && (v.pump.Fetching? ==> v.pump == w.view.pump)
      && (e.CleanUp? || !w.view.active <==> !v.active)
  {
  }

  /** An answered fetch is over, and the next one starts exactly when output is missing or was
      announced meanwhile. A rejected one is over for good. */
  lemma FetchIsOver(w: World, e: Event)
    requires Inv(w) && (e.Answer? || e.Reject?) && Possible(w, e)
    ensures var v := Happen(w, e).view;
      && (v.ending ==> v.pump.Winding?)
      && (!v.ending ==>
            var again := v.cursor < v.targetCursor || w.view.outputQueued;
            v.pump == (if again then Fetching(v.cursor) else Winding) && !v.outputQueued)
  {
  }

  /** The clearing callback starts the pump again exactly when output was queued meanwhile. */
  lemma WindingIsOver(w: World)
    requires Inv(w) && Possible(w, Wind)
    ensures var v := Happen(w, Wind).view;
      var again := w.view.outputQueued && !w.view.ending;
      v.pump == (if again then Fetching(v.cursor) else Idle) && (again ==> !v.outputQueued)
  {
  }

  /** An announcement starts an idle pump, and otherwise is left for the running one. */
  lemma AnnouncementIsFetched(w: World, nextCursor: nat)
    requires Inv(w) && !w.view.ending
    ensures var v := Happen(w, Announce(nextCursor)).view;
      if w.view.replayReady && w.view.pump.Idle? then v.pump == Fetching(v.cursor) && !v.outputQueued
      else v.pump == w.view.pump && v.outputQueued
  {
  }

  /** An exit ends the session at once exactly when nothing is missing. */
  lemma ExitEndsAtOnceIff(w: World, last: Option<nat>)
    requires Inv(w) && !w.view.ending
    ensures var v := Happen(w, Exits(last)).view;
      v.ending <==> w.view.replayReady && Max(w.view.targetCursor, last.GetOr(0)) <= w.view.cursor
  {
  }

  /** After the replay a fetch starts exactly when output is missing, was announced meanwhile, or may
      have been produced before the terminal was found to have ended; else an exit ends the session. */
  lemma ReplayGoesOn(w: World, slice: Slice, final: bool, notRunning: bool)
    requires Inv(w) && !w.view.ending && Possible(w, Replay(slice, final, notRunning))
    ensures var v := Happen(w, Replay(slice, final, notRunning)).view;
      var more := w.view.outputQueued || (notRunning && !final) || v.cursor < v.targetCursor;
      && v.replayReady && v.cursor == slice.endCursor
      && v.pump == (if more then Fetching(v.cursor) else Idle)
      && (v.ending <==> !more && (w.view.exitPending || final))
      && (more ==> !v.outputQueued)
  {
  }

  // ---------------------------------------------------------------- draining ends

  /** The view after `n` answers, each from the same daemon. */
  function Answered(v: View, answer: nat -> Slice, n: nat): View {
    if n == 0 then v else OnSlice(Answered(v, answer, n - 1), answer(Answered(v, answer, n - 1).cursor))
  }

  /** A daemon that answers with contiguous slices, advances while there is output, and does not
      claim more output than there is. */
  ghost predicate Helpful(log: seq<Byte>, answer: nat -> Slice) {
    forall c: nat | c <= |log| ::
      && Contiguous(log, c, answer(c))
      && (c < |log| ==> c < answer(c).endCursor)
      && answer(c).nextCursor.GetOr(0) <= |log|
  }

  lemma {:induction false} AnsweredShift(v: View, answer: nat -> Slice, n: nat)
    ensures Answered(OnSlice(v, answer(v.cursor)), answer, n) == Answered(v, answer, n + 1)
  {
    if n > 0 {
      AnsweredShift(v, answer, n - 1);
    }
  }

  /** The session has been told of the exit and waits for a fetch. */
  ghost predicate Draining(v: View, log: seq<Byte>) {
    && v.exitPending && v.replayReady && v.active && !v.ending && v.pump.Fetching?
    && v.targetCursor <= |log| && v.cursor <= |log| && v.written == log[..v.cursor]
  }

  ghost predicate DrainedView(v: View, log: seq<Byte>, target: nat) {
    && v.ending && v.cause == Some(Drained)
    && target <= v.targetCursor <= v.cursor <= |log| && v.written == log[..v.cursor]
  }

  /** One helpful answer either drains the session or brings it closer. */
  lemma AnswerAdvances(v: View, log: seq<Byte>, slice: Slice)
    requires Draining(v, log) && Contiguous(log, v.cursor, slice)
    requires v.cursor < |log| ==> v.cursor < slice.endCursor
    requires slice.nextCursor.GetOr(0) <= |log|
    ensures var after := OnSlice(v, slice);
      || DrainedView(after, log, v.targetCursor)
      || (Draining(after, log) && v.cursor < after.cursor && v.targetCursor <= after.targetCursor)
  {
    assert v.written + slice.data == log[..slice.endCursor];
  }

  /** After the exit, answers alone bring the session to its end, with all announced output
      written, in no more fetches than there are missing bytes plus one. */
  lemma {:induction false} DrainingEnds(v: View, log: seq<Byte>, answer: nat -> Slice) returns (n: nat)
    requires Draining(v, log) && Helpful(log, answer)
    ensures 1 <= n <= |log| - v.cursor + 1
    ensures DrainedView(Answered(v, answer, n), log, v.targetCursor)
    decreases |log| - v.cursor
  {
    var after := OnSlice(v, answer(v.cursor));
    AnswerAdvances(v, log, answer(v.cursor));
    AnsweredShift(v, answer, 0);
    n := 1;
    if !after.ending {
      var m := DrainingEnds(after, log, answer);
      n := m + 1;
      AnsweredShift(v, answer, m);
    }
  }

  ghost predicate Reading(v: View, log: seq<Byte>) {
    && !v.exitPending && v.active && !v.ending && v.pump.Fetching?
    && v.targetCursor <= |log| && v.cursor <= |log| && v.written == log[..v.cursor]
  }

  ghost predicate AtRest(v: View, log: seq<Byte>, target: nat) {
    && !v.ending && v.pump.Winding? && !v.outputQueued
    && target <= v.targetCursor <= v.cursor <= |log| && v.written == log[..v.cursor]
  }

  /** Fetches that are still to come: one for each missing byte and one if output was queued. */
  function FetchesLeft(v: View, log: seq<Byte>): nat
    requires v.cursor <= |log|
  {
    |log| - v.cursor + (if v.outputQueued then 1 else 0)
  }

  lemma AnswerSettles(v: View, log: seq<Byte>, slice: Slice)
    requires Reading(v, log) && Contiguous(log, v.cursor, slice)
    requires v.cursor < |log| ==> v.cursor < slice.endCursor
    requires slice.nextCursor.GetOr(0) <= |log|
    ensures var after := OnSlice(v, slice);
      || AtRest(after, log, v.targetCursor)
      || (Reading(after, log) && FetchesLeft(after, log) < FetchesLeft(v, log) && v.targetCursor <= after.targetCursor)
  {
    assert v.written + slice.data == log[..slice.endCursor];
  }

  /** While the terminal runs, answers alone bring the pump to rest with all announced output
      written: it does not fetch for ever. */
  lemma {:induction false} FetchingRests(v: View, log: seq<Byte>, answer: nat -> Slice) returns (n: nat)
    requires Reading(v, log) && Helpful(log, answer)
    ensures 1 <= n <= FetchesLeft(v, log) + 1
    ensures AtRest(Answered(v, answer, n), log, v.targetCursor)
    decreases FetchesLeft(v, log)
  {
    var after := OnSlice(v, answer(v.cursor));
    AnswerSettles(v, log, answer(v.cursor));
    AnsweredShift(v, answer, 0);
    n := 1;
    if !AtRest(after, log, v.targetCursor) {
      var m := FetchingRests(after, log, answer);
      n := m + 1;
      AnsweredShift(v, answer, m);
    }
  }
}
