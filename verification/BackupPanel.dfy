/** Restoring a backup from the panel. Requests wait in a queue in the order in which they were sent; a
    restore, and a status read started from its button, hold the operation lock until they end. */
module BackupPanel {
  import opened Wrappers

  datatype JobState = IDLE | BUSY | PREPARED | APPLYING | STATE_COMMITTING | COMMITTED | CANCELLED | RECOVERY_REQUIRED

  /** Who continues after a status read: nobody, the operation that was started for it, or a restore. */
  datatype Continuation =
    | Loose
    | Button
    | Restoring(id: string, sequence: nat, scope: nat, again: bool)

  datatype Call =
    | Validate(sequence: nat, scope: nat)
    | ApplyCall(sequence: nat, scope: nat, id: string)
    | Status(sequence: nat, scope: nat, captured: Option<string>, after: Continuation)
    | Reload(after: Continuation)  // reads the state again once a restore has been committed

  /** `Summary` is a valid summary together with the user's answer and the id drawn for the request. */
  datatype Reply = Summary(confirmed: bool, id: string) | JobReply(state: JobState, jobId: Option<string>)
                 | Reloaded | Failure

  datatype Event =
    | Close | ScopeChange | Support(supported: bool)
    | PressRestore(acceptable: bool) | FileRead(valid: bool)
    | Read(button: bool)  // from its button, or else from the view or the timer
    | Settle(index: nat, reply: Reply)

  datatype Origin = Origin(sequence: nat, scope: nat)

  /** `reading` is a restore that waits for its file. `applies` and `unresolved` are history: the ids that
      were sent for restoring, and the last of them while no reply has told its end. */
  datatype State = State(
    sequence: nat, scope: nat, supported: bool, busy: bool, uncertain: Option<string>,
    reading: Option<Origin>, queue: seq<Call>, applies: seq<string>, unresolved: Option<string>)

  const START := State(0, 0, false, false, None, None, [], [], None)

  predicate Terminal(j: JobState) { j.COMMITTED? || j.CANCELLED? }
  predicate Running(j: JobState) { j.PREPARED? || j.APPLYING? || j.STATE_COMMITTING? }
  predicate Active(j: JobState) { Running(j) || j.RECOVERY_REQUIRED? || j.BUSY? }

  predicate Current(s: State, sequence: nat, scope: nat) {
    sequence == s.sequence && scope == s.scope
  }

  // ---------------------------------------------------------------- the protocol as a function

  /** `status()`: refused while the feature is not known to be supported. */
  function SendStatus(s: State, after: Continuation): State
    requires s.supported
  {
    s.(queue := s.queue + [Status(s.sequence, s.scope, s.uncertain, after)])
  }

  /** The `catch` of a restore: one status read if the panel is still the same, then the error goes on. */
  function Catch(s: State, id: string, sequence: nat, scope: nat): State {
    if Current(s, sequence, scope) && s.supported
    then SendStatus(s, Restoring(id, sequence, scope, true)) else s.(busy := false)
  }

  function Continue(s: State, after: Continuation, ok: bool): State {
    match after
    case Loose => s
    case Button => s.(busy := false)
    case Restoring(id, sequence, scope, again) =>
      if ok || again then s.(busy := false) else Catch(s, id, sequence, scope)
  }

  function Step(s: State, e: Event): State {
    match e
    case Close => s.(sequence := s.sequence + 1, supported := false)
    case ScopeChange => s.(scope := s.scope + 1)
    case Support(supported) => s.(supported := supported)
    case PressRestore(acceptable) =>
      if s.busy || !s.supported || s.uncertain.Some? || !acceptable then s
      else s.(busy := true, reading := Some(Origin(s.sequence, s.scope)))
    case FileRead(valid) =>
      if s.reading.None? then s
      else
        var o := s.reading.value;
        if valid && Current(s, o.sequence, o.scope)
        then s.(reading := None, queue := s.queue + [Validate(o.sequence, o.scope)])
        else s.(reading := None, busy := false)
    case Read(button) =>
      if !s.supported || (button && s.busy) then s
      else if button then SendStatus(s.(busy := true), Button)
      else SendStatus(s, Loose)
    case Settle(index, reply) =>
      if index < |s.queue|
      then Resume(s.(queue := s.queue[..index] + s.queue[index + 1..]), s.queue[index], reply) else s
  }

  function Resume(s: State, c: Call, reply: Reply): State {
    match c
    case Validate(sequence, scope) =>
      if reply.Summary? && reply.confirmed && Current(s, sequence, scope)
      then s.(uncertain := Some(reply.id), queue := s.queue + [ApplyCall(sequence, scope, reply.id)],
              applies := s.applies + [reply.id], unresolved := Some(reply.id))
      else s.(busy := false)
    case ApplyCall(sequence, scope, id) =>
      if reply.JobReply? && !Current(s, sequence, scope) then s.(busy := false)
      else if reply.JobReply? && reply.jobId == Some(id) && Terminal(reply.state) then
        var told := s.(uncertain := None, unresolved := Resolve(s.unresolved, id));
        if reply.state.COMMITTED?
        then told.(queue := s.queue + [Reload(Restoring(id, sequence, scope, false))])
        else told.(busy := false)
      else if reply.JobReply? && reply.jobId == Some(id) && Running(reply.state) && s.supported
      then SendStatus(s, Restoring(id, sequence, scope, false))
      else Catch(s, id, sequence, scope)
    case Status(sequence, scope, captured, after) =>
      if !reply.JobReply? then Continue(s, after, false)
      else if !Current(s, sequence, scope) then Continue(s, after, true)
      else if captured.Some? && reply.jobId == captured && Terminal(reply.state) then
        var told := s.(uncertain := None, unresolved := Resolve(s.unresolved, captured.value));
        if reply.state.COMMITTED? then told.(queue := s.queue + [Reload(after)]) else Continue(told, after, true)
      else if captured.Some? && reply.state.IDLE?
      then Continue(s.(uncertain := None, unresolved := Resolve(s.unresolved, captured.value)), after, true)
      else if captured.None? && Active(reply.state)
      then Continue(s.(uncertain := Some(if reply.jobId.Some? then reply.jobId.value else "busy")), after, true)
      else Continue(s, after, true)
    case Reload(after) => Continue(s, after, reply.Reloaded?)
  }

  /** A reply about `id` tells the end of that request only. */
  function Resolve(unresolved: Option<string>, id: string): Option<string> {
    if unresolved == Some(id) then None else unresolved
  }

  // ---------------------------------------------------------------- what a reply does

  /** A restore that failed reads the status once if the panel is still the same, and otherwise lets go of the lock. */
  ghost predicate Retried(s: State, id: string, sequence: nat, scope: nat, r: State) {
    if sequence == s.sequence && scope == s.scope && s.supported
    then r == s.(queue := s.queue + [Status(sequence, scope, s.uncertain, Restoring(id, sequence, scope, true))])
    else r == s.(busy := false)
  }

  /** Whoever waited for a status read goes on after it: the button and a restore let go of the lock, but a restore
      whose read failed tries it once more. */
  ghost predicate WentOn(s: State, after: Continuation, ok: bool, r: State) {
    match after
    case Loose => r == s
    case Button => r == s.(busy := false)
    case Restoring(id, sequence, scope, again) =>
      if ok || again then r == s.(busy := false) else Retried(s, id, sequence, scope, r)
  }

  /** The doubt is over, and with it the restore that it is about. */
  function Ended(s: State, id: string): State {
    s.(uncertain := None, unresolved := if s.unresolved == Some(id) then None else s.unresolved)
  }

  /** A confirmed summary sends the restore and puts the panel in doubt about it. */
  ghost predicate Validated(s: State, sequence: nat, scope: nat, reply: Reply, r: State) {
    if reply.Summary? && reply.confirmed && sequence == s.sequence && scope == s.scope
    then r == s.(uncertain := Some(reply.id), unresolved := Some(reply.id), applies := s.applies + [reply.id],
                 queue := s.queue + [ApplyCall(sequence, scope, reply.id)])
    else r == s.(busy := false)
  }

  /** The answer to a restore: told to another panel it only lets go of the lock; committed or cancelled it ends the
      doubt; under way it is followed by a status read; anything else is a failure. */
  ghost predicate Applied(s: State, sequence: nat, scope: nat, id: string, reply: Reply, r: State) {
    var ours := reply.JobReply? && reply.jobId == Some(id);
    if reply.JobReply? && !(sequence == s.sequence && scope == s.scope) then r == s.(busy := false)
    else if ours && reply.state.COMMITTED? then
      r == Ended(s, id).(queue := s.queue + [Reload(Restoring(id, sequence, scope, false))])
    else if ours && reply.state.CANCELLED? then r == Ended(s, id).(busy := false)
    else if ours && (reply.state.PREPARED? || reply.state.APPLYING? || reply.state.STATE_COMMITTING?) && s.supported
    then r == s.(queue := s.queue + [Status(sequence, scope, s.uncertain, Restoring(id, sequence, scope, false))])
    else Retried(s, id, sequence, scope, r)
  }

  /** The answer to a status read that was sent under the doubt `captured`. */
  ghost predicate StatusTold(s: State, sequence: nat, scope: nat, captured: Option<string>, after: Continuation,
                             reply: Reply, r: State)
  {
    if !reply.JobReply? then WentOn(s, after, false, r)
    else if !(sequence == s.sequence && scope == s.scope) then WentOn(s, after, true, r)
    else if captured.Some? && reply.jobId == captured && reply.state.COMMITTED? then
      r == Ended(s, captured.value).(queue := s.queue + [Reload(after)])
    else if captured.Some? && (reply.state.IDLE? || (reply.jobId == captured && reply.state.CANCELLED?)) then
      WentOn(Ended(s, captured.value), after, true, r)
    else if captured.None? && !reply.state.IDLE? && !reply.state.COMMITTED? && !reply.state.CANCELLED? then
      WentOn(s.(uncertain := Some(if reply.jobId.Some? then reply.jobId.value else "busy")), after, true, r)
    else WentOn(s, after, true, r)
  }

  /** What a reply to entry `index` of the queue does. */
  ghost predicate Answered(s: State, index: nat, reply: Reply, r: State)
    requires index < |s.queue|
  {
    var t := s.(queue := s.queue[..index] + s.queue[index + 1..]);
    match s.queue[index]
    case Validate(sequence, scope) => Validated(t, sequence, scope, reply, r)
    case ApplyCall(sequence, scope, id) => Applied(t, sequence, scope, id, reply, r)
    case Status(sequence, scope, captured, after) => StatusTold(t, sequence, scope, captured, after, reply, r)
    case Reload(after) => WentOn(t, after, reply.Reloaded?, r)
  }

  lemma ReplyIsAnswered(s: State, index: nat, reply: Reply)
    ensures var r := Step(s, Settle(index, reply)); if index < |s.queue| then Answered(s, index, reply, r) else r == s
  {
  }

  // ---------------------------------------------------------------- the same protocol as the code runs it

  class Panel {
    var sequence: nat
    var scope: nat
    var supported: bool
    var busy: bool
    var uncertain: Option<string>
    var reading: Option<Origin>
    var queue: seq<Call>
    ghost var applies: seq<string>
    ghost var unresolved: Option<string>

    ghost function Now(): State
      reads this
    {
      State(sequence, scope, supported, busy, uncertain, reading, queue, applies, unresolved)
    }

    /** One holder of the lock; no restore is on its way while an earlier one is unresolved, and that one is
        the doubt. */
    ghost predicate Valid()
      reads this
    {
      Inv(Now(), false)
    }

    constructor ()
      ensures Valid() && Now() == START
    {
      sequence, scope, supported, busy, uncertain := 0, 0, false, false, None;
      reading, queue, applies, unresolved := None, [], [], None;
    }

    /** Closing outdates what is under way, but never ends the doubt. */
    method ClosePanel()
      requires Valid()
      modifies this
      ensures Valid() && Now() == Step(old(Now()), Close)
      ensures Now() == old(Now()).(sequence := old(sequence) + 1, supported := false)
      ensures uncertain == old(uncertain) && busy == old(busy) && !Confirming(Now())
      ensures forall i :: !StatusAt(Now(), i) && !ApplyAt(Now(), i)
    {
      StepKeeps(Now(), Close, false);
      ClosedIsQuiet(Now());
      sequence := sequence + 1;
      supported := false;
    }

    method OnCapability(value: bool)
      requires Valid()
      modifies this
      ensures Valid() && Now() == Step(old(Now()), Support(value)) == old(Now()).(supported := value)
    {
      StepKeeps(Now(), Support(value), false);
      supported := value;
    }

    method ChangeScope()
      requires Valid()
      modifies this
      ensures Valid() && Now() == Step(old(Now()), ScopeChange) == old(Now()).(scope := old(scope) + 1)
    {
      StepKeeps(Now(), ScopeChange, false);
      scope := scope + 1;
    }

    /** A restore starts only without doubt, and then no earlier one is unresolved and nobody else has the lock. */
    method Restore(acceptable: bool)
      requires Valid()
      modifies this
      ensures Valid() && Now() == Step(old(Now()), PressRestore(acceptable))
      ensures Now() != old(Now()) ==>
                && !old(busy) && busy && acceptable && old(Free(Now()))
                && uncertain.None? && unresolved.None? && reading == Some(Origin(sequence, scope))
      ensures Now() == if old(busy) || !old(supported) || old(uncertain).Some? || !acceptable then old(Now())
                       else old(Now()).(busy := true, reading := Some(Origin(sequence, scope)))
    {
      StepKeeps(Now(), PressRestore(acceptable), false);
      if !busy { UnlockedIsFree(Now()); }
      if busy { return; }
      busy := true;
      if !supported || uncertain.Some? || !acceptable {
        busy := false;
        return;
      }
      reading := Some(Origin(sequence, scope));
    }

    /** A file once read is sent for validation exactly if it is valid and the panel is still the same;
        otherwise the lock is released. */
    method OnFile(valid: bool)
      requires Valid()
      modifies this
      ensures Valid() && Now() == Step(old(Now()), FileRead(valid))
      ensures Now() == old(Now()).(reading := None, busy := busy, queue := queue)
      ensures old(reading).None? ==> Now() == old(Now())
      ensures old(reading).Some? ==>
                && (busy <==> valid && old(reading).value == Origin(sequence, scope))
                && (busy ==> unresolved.None? && queue == old(queue) + [Validate(sequence, scope)])
                && (!busy ==> queue == old(queue))
    {
      StepKeeps(Now(), FileRead(valid), false);
      if reading.Some? { ReadingIsLocked(Now()); }
      if reading.None? { return; }
      var o := reading.value;
      reading := None;
      if valid && o.sequence == sequence && o.scope == scope {
        queue := queue + [Validate(sequence, scope)];
      } else {
        busy := false;
      }
    }

    method ReadStatus(button: bool)
      requires Valid()
      modifies this
      ensures Valid() && Now() == Step(old(Now()), Read(button))
      ensures Now() == if !supported || (button && old(busy)) then old(Now())
                       else old(Now()).(busy := old(busy) || button, queue := old(queue) +
                              [Status(sequence, scope, uncertain, if button then Button else Loose)])
    {
      StepKeeps(Now(), Read(button), false);
      if button {
        if busy || !supported { return; }
        busy := true;
      } else if !supported {
        return;
      }
      queue := queue + [Status(sequence, scope, uncertain, if button then Button else Loose)];
    }

    method CatchError(id: string, mine: nat, where: nat)
      modifies this
      ensures Now() == Catch(old(Now()), id, mine, where)
    {
      if mine == sequence && where == scope && supported {
        queue := queue + [Status(sequence, scope, uncertain, Restoring(id, mine, where, true))];
      } else {
        busy := false;
      }
    }

    method Proceed(after: Continuation, ok: bool)
      modifies this
      ensures Now() == Continue(old(Now()), after, ok)
    {
      match after {
        case Loose =>
        case Button => busy := false;
        case Restoring(id, mine, where, again) =>
          if ok || again { busy := false; } else { CatchError(id, mine, where); }
      }
    }

    method Told(id: string)
      modifies this
      ensures Now() == old(Now()).(uncertain := None, unresolved := Resolve(old(unresolved), id))
    {
      uncertain := None;
      unresolved := Resolve(unresolved, id);
    }

    /** A reply in any order, unless it is outdated while a restore is unresolved. A restore is sent only while
        none is unresolved, and the doubt ends only by an answer about that very job. */
    method OnReply(index: nat, reply: Reply)
      requires Valid() && !Deceives(Now(), Settle(index, reply))
      modifies this
      ensures Valid() && Now() == Step(old(Now()), Settle(index, reply))
      ensures if index < |old(queue)| then Answered(old(Now()), index, reply, Now()) else Now() == old(Now())
      ensures applies != old(applies) ==>
                && old(unresolved).None? && reply.Summary? && applies == old(applies) + [reply.id]
                && uncertain == unresolved == Some(reply.id)
      ensures old(uncertain).Some? && uncertain.None? ==> Answers(old(Now()), index, reply)
    {
      StepKeeps(Now(), Settle(index, reply), false);
      NoSecondRestore(Now(), Settle(index, reply));
      RestoresAreSummaries(Now(), index, reply);
      ReplyIsAnswered(Now(), index, reply);
      if uncertain.Some? && Step(Now(), Settle(index, reply)).uncertain.None? {
        DoubtEndsByAnswer(Now(), Settle(index, reply));
      }
      Deliver(index, reply);
    }

    method Deliver(index: nat, reply: Reply)
      modifies this
      ensures Now() == Step(old(Now()), Settle(index, reply))
    {
      if index >= |queue| { return; }
      var call := queue[index];
      queue := queue[..index] + queue[index + 1..];
      match call {
        case Validate(mine, where) =>
          if reply.Summary? && reply.confirmed && mine == sequence && where == scope {
            uncertain := Some(reply.id);
            queue := queue + [ApplyCall(mine, where, reply.id)];
            applies := applies + [reply.id];
            unresolved := Some(reply.id);
          } else {
            busy := false;
          }
        case ApplyCall(mine, where, id) => OnApplied(mine, where, id, reply);
        case Status(mine, where, captured, after) => OnStatus(mine, where, captured, after, reply);
        case Reload(after) => Proceed(after, reply.Reloaded?);
      }
    }

    method OnApplied(mine: nat, where: nat, id: string, reply: Reply)
      modifies this
      ensures Now() == Resume(old(Now()), ApplyCall(mine, where, id), reply)
    {
      if reply.JobReply? && !(mine == sequence && where == scope) {
        busy := false;
      } else if reply.JobReply? && reply.jobId == Some(id) && Terminal(reply.state) {
        Told(id);
        if reply.state.COMMITTED? {
          queue := queue + [Reload(Restoring(id, mine, where, false))];
        } else {
          busy := false;
        }
      } else if reply.JobReply? && reply.jobId == Some(id) && Running(reply.state) && supported {
        queue := queue + [Status(sequence, scope, uncertain, Restoring(id, mine, where, false))];
      } else {
        CatchError(id, mine, where);
      }
    }

    method OnStatus(mine: nat, where: nat, captured: Option<string>, after: Continuation, reply: Reply)
      modifies this
      ensures Now() == Resume(old(Now()), Status(mine, where, captured, after), reply)
    {
      if !reply.JobReply? {
        Proceed(after, false);
      } else if !(mine == sequence && where == scope) {
        Proceed(after, true);
      } else if captured.Some? && reply.jobId == captured && Terminal(reply.state) {
        Told(captured.value);
        if reply.state.COMMITTED? { queue := queue + [Reload(after)]; } else { Proceed(after, true); }
      } else {
        if captured.Some? && reply.state.IDLE? {
          Told(captured.value);
        } else if captured.None? && Active(reply.state) {
          uncertain := Some(if reply.jobId.Some? then reply.jobId.value else "busy");
        }
        Proceed(after, true);
      }
    }
  }

  // ---------------------------------------------------------------- what every step keeps, in any order

  /** The reply names the end of the very job that was asked about, or says that no job exists. */
  predicate Answers(s: State, index: nat, reply: Reply) {
    && index < |s.queue| && reply.JobReply?
    && match s.queue[index]
       case ApplyCall(sequence, scope, id) =>
         Current(s, sequence, scope) && reply.jobId == Some(id) && Terminal(reply.state)
       case Status(sequence, scope, captured, _) =>
         Current(s, sequence, scope) && captured.Some?
         && (reply.state.IDLE? || (reply.jobId == captured && Terminal(reply.state)))
       case _ => false
  }

  /** Doubt ends only by such a reply; in particular closing the panel never ends it. */
  lemma DoubtEndsByAnswer(s: State, e: Event)
    requires s.uncertain.Some? && Step(s, e).uncertain.None?
    ensures e.Settle? && Answers(s, e.index, e.reply)
  {
  }

  lemma RestoresAreSummaries(s: State, index: nat, reply: Reply)
    ensures var r := Step(s, Settle(index, reply));
            r.applies != s.applies ==>
              && reply.Summary? && r.applies == s.applies + [reply.id]
              && r.uncertain == r.unresolved == Some(reply.id)
  {
  }

  lemma ClosedIsQuiet(s: State)
    requires Inv(s, false)
    ensures var r := Step(s, Close); !Confirming(r) && forall i :: !StatusAt(r, i) && !ApplyAt(r, i)
  {
  }

  lemma UnlockedIsFree(s: State)
    requires Inv(s, false) && !s.busy
    ensures Free(s) && (s.uncertain.None? ==> s.unresolved.None?)
  {
  }

  lemma ReadingIsLocked(s: State)
    requires Inv(s, false) && s.reading.Some?
    ensures s.busy && (Current(s, s.reading.value.sequence, s.reading.value.scope) ==> s.unresolved.None?)
  {
  }

  /** Panel and history agree on the restore whose end is not known. */
  predicate Tracked(s: State) {
    s.unresolved.Some? ==> s.uncertain == s.unresolved
  }

  /** Reply e acts on a reading of `uncertain` that is out of date: it was sent while the panel had
      another job in mind, or none, and it now ends or replaces the doubt about the present one. */
  predicate Outdated(s: State, e: Event) {
    && e.Settle? && e.index < |s.queue| && e.reply.JobReply?
    && s.queue[e.index].Status? && Current(s, s.queue[e.index].sequence, s.queue[e.index].scope)
    && s.queue[e.index].captured != s.uncertain
    && (if s.queue[e.index].captured.Some?
        then e.reply.state.IDLE? || (e.reply.jobId == s.queue[e.index].captured && Terminal(e.reply.state))
        else Active(e.reply.state)
             && Some(if e.reply.jobId.Some? then e.reply.jobId.value else "busy") != s.uncertain)
  }

  /** Exactly the outdated replies make the panel lose track of an unresolved restore. A second restore
      is not sent meanwhile, and the only one still waited for is the unresolved one. */
  lemma TrackIsLostIffOutdated(s: State, e: Event)
    requires s.unresolved.Some? && Tracked(s)
    requires e.Settle? && e.index < |s.queue| ==> !s.queue[e.index].Validate?
    requires e.Settle? && e.index < |s.queue| && s.queue[e.index].ApplyCall? ==>
               Some(s.queue[e.index].id) == s.unresolved
    ensures Tracked(Step(s, e)) <==> !Outdated(s, e)
  {
  }

  // ---------------------------------------------------------------- the invariant, replies in any order

  ghost predicate Confirming(s: State) {
    || (s.reading.Some? && Current(s, s.reading.value.sequence, s.reading.value.scope))
    || exists i :: ValidateAt(s, i)
  }

  ghost predicate ValidateAt(s: State, i: int) {
    0 <= i < |s.queue| && s.queue[i].Validate? && Current(s, s.queue[i].sequence, s.queue[i].scope)
  }

  /** A status read whose reply would still be heeded. */
  ghost predicate StatusAt(s: State, i: int) {
    0 <= i < |s.queue| && s.queue[i].Status? && Current(s, s.queue[i].sequence, s.queue[i].scope)
  }

  ghost predicate ApplyAt(s: State, i: int) {
    0 <= i < |s.queue| && s.queue[i].ApplyCall? && Current(s, s.queue[i].sequence, s.queue[i].scope)
  }

  /** Entry i of the queue keeps the operation lock. */
  ghost predicate HoldsAt(s: State, i: int) {
    0 <= i < |s.queue| && Holds(s.queue[i])
  }

  predicate Holds(c: Call) {
    match c
    case Validate(_, _) => true
    case ApplyCall(_, _, _) => true
    case Status(_, _, _, after) => !after.Loose?
    case Reload(after) => !after.Loose?
  }

  ghost predicate Bounded(s: State) {
    && (forall i :: 0 <= i < |s.queue| && !s.queue[i].Reload? ==>
          s.queue[i].sequence <= s.sequence && s.queue[i].scope <= s.scope)
    && (s.reading.Some? ==> s.reading.value.sequence <= s.sequence && s.reading.value.scope <= s.scope)
  }

  ghost predicate Locked(s: State) {
    && (forall i :: HoldsAt(s, i) ==> s.busy && s.reading.None?)
    && (forall i, j :: HoldsAt(s, i) && HoldsAt(s, j) ==> i == j)
    && (s.reading.Some? ==> s.busy)
  }

  /** No restore is on its way while an earlier one is unresolved, and that one is the panel's doubt. */
  ghost predicate Safe(s: State) {
    && Tracked(s) && (Confirming(s) ==> s.unresolved.None?)
    && forall i :: ApplyAt(s, i) ==> s.unresolved.None? || s.unresolved == Some(s.queue[i].id)
  }

  /** What calm runs keep besides: status reads stay away from a restore and know the unresolved one. */
  ghost predicate Still(s: State) {
    && (Confirming(s) ==> s.uncertain.None? && forall i :: !StatusAt(s, i))
    && (s.unresolved.Some? ==> forall i :: StatusAt(s, i) ==> s.queue[i].captured == s.unresolved)
    && (forall i :: ApplyAt(s, i) ==> s.unresolved == Some(s.queue[i].id))
    && forall i, j :: ApplyAt(s, i) && StatusAt(s, j) ==> i < j
  }

  /** The invariant of every run, and with `calm` that of calm runs. */
  ghost predicate Inv(s: State, calm: bool) {
    Bounded(s) && Locked(s) && Safe(s) && (calm ==> Still(s))
  }

  /** An outdated reply arrives while a restore is unresolved. */
  predicate Deceives(s: State, e: Event) {
    s.unresolved.Some? && Outdated(s, e)
  }

  /** Nobody keeps the lock and no file is being read. */
  ghost predicate Free(s: State) {
    s.reading.None? && forall i :: !HoldsAt(s, i)
  }

  lemma SameQueue(a: State, b: State)
    requires a.queue == b.queue && a.sequence == b.sequence && a.scope == b.scope
    ensures forall i :: HoldsAt(a, i) <==> HoldsAt(b, i)
    ensures forall i :: StatusAt(a, i) <==> StatusAt(b, i)
    ensures forall i :: ValidateAt(a, i) <==> ValidateAt(b, i)
    ensures forall i :: ApplyAt(a, i) <==> ApplyAt(b, i)
  {
  }

  /** Where entry i of a queue without entry `index` stood before. */
  function Before(i: int, index: int): int {
    if i < index then i else i + 1
  }

  lemma Shifted(s: State, t: State, index: nat)
    requires index < |s.queue| && t == s.(queue := s.queue[..index] + s.queue[index + 1..])
    ensures forall i :: 0 <= i < |t.queue| ==> t.queue[i] == s.queue[Before(i, index)]
    ensures forall i :: HoldsAt(t, i) ==> HoldsAt(s, Before(i, index))
    ensures forall i :: StatusAt(t, i) ==> StatusAt(s, Before(i, index))
    ensures forall i :: ValidateAt(t, i) ==> ValidateAt(s, Before(i, index))
    ensures forall i :: ApplyAt(t, i) ==> ApplyAt(s, Before(i, index))
    ensures Confirming(t) ==> Confirming(s)
  {
    forall i | 0 <= i < |t.queue| ensures t.queue[i] == s.queue[Before(i, index)] {
    }
    if i :| ValidateAt(t, i) { assert ValidateAt(s, Before(i, index)); }
  }

  /** The panel without one request: whoever kept the lock for it still has it, and nobody else. */
  lemma Removed(s: State, t: State, index: nat, calm: bool)
    requires Inv(s, calm) && index < |s.queue| && t == s.(queue := s.queue[..index] + s.queue[index + 1..])
    ensures Inv(t, calm) && (Confirming(t) ==> Confirming(s))
    ensures Holds(s.queue[index]) ==> t.busy && Free(t)
  {
    hide Confirming;
    Shifted(s, t, index);
    assert Holds(s.queue[index]) ==> HoldsAt(s, index);
    forall i | HoldsAt(t, i) ensures !Holds(s.queue[index]) {
      assert HoldsAt(s, Before(i, index));
    }
    forall i, j | HoldsAt(t, i) && HoldsAt(t, j) ensures i == j {
      assert Before(i, index) == Before(j, index);
    }
    forall i, j | ApplyAt(t, i) && StatusAt(t, j) ensures calm ==> i < j {
      assert ApplyAt(s, Before(i, index)) && StatusAt(s, Before(j, index));
    }
  }

  lemma FreeIsNotConfirming(s: State)
    requires Free(s)
    ensures !Confirming(s) && forall i :: !ApplyAt(s, i)
  {
    forall i ensures !ValidateAt(s, i) && !ApplyAt(s, i) {
      assert !HoldsAt(s, i);
    }
  }

  lemma SendStatusKeeps(s: State, after: Continuation, calm: bool)
    requires Inv(s, calm) && s.supported && (calm ==> !Confirming(s))
    requires !after.Loose? ==> s.busy && Free(s)
    ensures Inv(SendStatus(s, after), calm)
  {
    var r := SendStatus(s, after);
    var n := |s.queue|;
    assert forall i :: 0 <= i < n ==> r.queue[i] == s.queue[i];
    assert forall i :: HoldsAt(r, i) && i != n ==> HoldsAt(s, i);
    assert forall i :: StatusAt(r, i) && i != n ==> StatusAt(s, i);
    assert forall i :: ValidateAt(r, i) ==> ValidateAt(s, i);
    assert forall i :: ApplyAt(r, i) ==> ApplyAt(s, i);
    assert Confirming(r) ==> Confirming(s);
  }

  lemma ReleaseKeeps(s: State, calm: bool)
    requires Inv(s, calm) && Free(s)
    ensures Inv(s.(busy := false), calm)
  {
    SameQueue(s, s.(busy := false));
    FreeIsNotConfirming(s.(busy := false));
  }

  lemma ContinueKeeps(s: State, after: Continuation, ok: bool, calm: bool)
    requires Inv(s, calm) && (!after.Loose? ==> s.busy && Free(s))
    ensures Inv(Continue(s, after, ok), calm)
  {
    if !after.Loose? {
      FreeIsNotConfirming(s);
      ReleaseKeeps(s, calm);
      if s.supported && after.Restoring? {
        SendStatusKeeps(s, Restoring(after.id, after.sequence, after.scope, true), calm);
      }
    }
  }

  /** Adding a state read, whose reply changes nothing but the lock. */
  lemma SendReloadKeeps(s: State, after: Continuation, calm: bool)
    requires Inv(s, calm) && (!after.Loose? ==> s.busy && Free(s))
    ensures Inv(s.(queue := s.queue + [Reload(after)]), calm)
  {
    var r := s.(queue := s.queue + [Reload(after)]);
    var n := |s.queue|;
    assert forall i :: 0 <= i < n ==> r.queue[i] == s.queue[i];
    assert forall i :: HoldsAt(r, i) && i != n ==> HoldsAt(s, i);
    assert forall i :: StatusAt(r, i) ==> StatusAt(s, i);
    assert forall i :: ValidateAt(r, i) ==> ValidateAt(s, i);
    assert forall i :: ApplyAt(r, i) ==> ApplyAt(s, i);
    assert Confirming(r) ==> Confirming(s);
  }

  lemma SendApplyKeeps(t: State, sequence: nat, scope: nat, id: string, calm: bool)
    requires Inv(t, calm) && t.busy && Free(t) && Current(t, sequence, scope)
    requires calm ==> forall i :: !StatusAt(t, i)
    ensures Inv(t.(uncertain := Some(id), queue := t.queue + [ApplyCall(sequence, scope, id)],
                   applies := t.applies + [id], unresolved := Some(id)), calm)
  {
    var r := t.(uncertain := Some(id), queue := t.queue + [ApplyCall(sequence, scope, id)],
                applies := t.applies + [id], unresolved := Some(id));
    var n := |t.queue|;
    assert forall i :: 0 <= i < n ==> r.queue[i] == t.queue[i];
    assert forall i :: HoldsAt(r, i) && i != n ==> HoldsAt(t, i);
    assert forall i :: StatusAt(r, i) ==> StatusAt(t, i);
    assert forall i :: ValidateAt(r, i) ==> ValidateAt(t, i);
    assert forall i :: ApplyAt(r, i) && i != n ==> ApplyAt(t, i) && HoldsAt(t, i);
    FreeIsNotConfirming(t);
    assert !Confirming(r);
  }

  /** A restore that is about to be sent is the only one, and in calm runs no status read is under way. */
  lemma ConfirmedAlone(s: State, t: State, index: nat, calm: bool)
    requires Inv(s, calm) && index < |s.queue| && t == s.(queue := s.queue[..index] + s.queue[index + 1..])
    requires ValidateAt(s, index)
    ensures s.unresolved.None? && (calm ==> forall i :: !StatusAt(t, i))
  {
    Shifted(s, t, index);
    assert Confirming(s);
  }

  lemma ValidateKeeps(s: State, t: State, index: nat, reply: Reply, calm: bool)
    requires Inv(s, calm) && index < |s.queue| && t == s.(queue := s.queue[..index] + s.queue[index + 1..])
    requires s.queue[index].Validate?
    ensures Inv(Resume(t, s.queue[index], reply), calm)
  {
    hide Inv, Free, StatusAt;
    var c := s.queue[index];
    Removed(s, t, index, calm);
    if reply.Summary? && reply.confirmed && Current(s, c.sequence, c.scope) {
      ConfirmedAlone(s, t, index, calm);
      SendApplyKeeps(t, c.sequence, c.scope, reply.id, calm);
    } else {
      ReleaseKeeps(t, calm);
    }
  }

  /** The end of the unresolved restore has been told. */
  lemma ToldKeeps(t: State, id: string, calm: bool)
    requires Inv(t, calm) && (t.unresolved.Some? ==> t.unresolved == Some(id))
    requires calm ==> !Confirming(t) && forall i :: !ApplyAt(t, i)
    ensures Inv(t.(uncertain := None, unresolved := Resolve(t.unresolved, id)), calm)
  {
    var r := t.(uncertain := None, unresolved := Resolve(t.unresolved, id));
    SameQueue(t, r);
    assert Confirming(r) ==> Confirming(t);
  }

  lemma ApplyKeeps(s: State, t: State, index: nat, reply: Reply, calm: bool)
    requires Inv(s, calm) && index < |s.queue| && t == s.(queue := s.queue[..index] + s.queue[index + 1..])
    requires s.queue[index].ApplyCall?
    ensures Inv(Resume(t, s.queue[index], reply), calm)
  {
    var c := s.queue[index];
    Removed(s, t, index, calm);
    FreeIsNotConfirming(t);
    OwnRestore(s, index, calm);
    hide Inv, Free, Confirming, ApplyAt, SendStatus;
    ReleaseKeeps(t, calm);
    if t.supported {
      SendStatusKeeps(t, Restoring(c.id, c.sequence, c.scope, false), calm);
      SendStatusKeeps(t, Restoring(c.id, c.sequence, c.scope, true), calm);
    }
    if reply.JobReply? && Current(s, c.sequence, c.scope) && reply.jobId == Some(c.id) && Terminal(reply.state) {
      ToldKeeps(t, c.id, calm);
      var told := t.(uncertain := None, unresolved := Resolve(t.unresolved, c.id));
      SameFreedom(t, told);
      ReleaseKeeps(told, calm);
      SendReloadKeeps(told, Restoring(c.id, c.sequence, c.scope, false), calm);
    }
  }

  lemma OwnRestore(s: State, index: nat, calm: bool)
    requires Inv(s, calm) && index < |s.queue| && s.queue[index].ApplyCall?
    ensures Current(s, s.queue[index].sequence, s.queue[index].scope) ==>
              s.unresolved.None? || s.unresolved == Some(s.queue[index].id)
  {
    assert Current(s, s.queue[index].sequence, s.queue[index].scope) ==> ApplyAt(s, index);
  }

  /** In a calm run a status read that is still heeded stands before no restore. */
  lemma HeededRead(s: State, t: State)
    requires Inv(s, true) && s.queue != [] && t == s.(queue := s.queue[..0] + s.queue[1..]) && StatusAt(s, 0)
    ensures !Confirming(t) && (forall i :: !ApplyAt(t, i))
    ensures t.unresolved.Some? ==> s.queue[0].captured == t.unresolved
  {
    Shifted(s, t, 0);
    forall i ensures !ApplyAt(t, i) { assert ApplyAt(t, i) ==> ApplyAt(s, Before(i, 0)); }
  }

  lemma FoundKeeps(t: State, job: string, calm: bool)
    requires Inv(t, calm) && (t.unresolved.Some? ==> t.uncertain == Some(job))
    requires calm ==> !Confirming(t)
    ensures Inv(t.(uncertain := Some(job)), calm)
  {
    var r := t.(uncertain := Some(job));
    SameQueue(t, r);
    assert Confirming(r) ==> Confirming(t);
  }

  lemma StatusKeeps(s: State, t: State, index: nat, reply: Reply, calm: bool)
    requires Inv(s, calm) && index < |s.queue| && t == s.(queue := s.queue[..index] + s.queue[index + 1..])
    requires s.queue[index].Status? && !Deceives(s, Settle(index, reply)) && (calm ==> index == 0)
    ensures Inv(Resume(t, s.queue[index], reply), calm)
  {
    hide Inv, Free, Confirming, ApplyAt, Continue;
    var c := s.queue[index];
    Removed(s, t, index, calm);
    ContinueKeeps(t, c.after, false, calm);
    ContinueKeeps(t, c.after, true, calm);
    if reply.JobReply? && Current(s, c.sequence, c.scope) {
      assert StatusAt(s, index);
      if calm { HeededRead(s, t); }
      IsTracked(s, calm);
      var job := if reply.jobId.Some? then reply.jobId.value else "busy";
      if c.captured.None? {
        if Active(reply.state) {
          FoundKeeps(t, job, calm);
          SameFreedom(t, t.(uncertain := Some(job)));
          ContinueKeeps(t.(uncertain := Some(job)), c.after, true, calm);
        }
      } else if reply.state.IDLE? || (reply.jobId == c.captured && Terminal(reply.state)) {
        ToldKeeps(t, c.captured.value, calm);
        var told := t.(uncertain := None, unresolved := Resolve(t.unresolved, c.captured.value));
        SameFreedom(t, told);
        ContinueKeeps(told, c.after, true, calm);
        SendReloadKeeps(told, c.after, calm);
      }
    }
  }

  lemma IsTracked(s: State, calm: bool)
    requires Inv(s, calm)
    ensures s.unresolved.Some? ==> s.uncertain == s.unresolved
  {
  }

  lemma SameFreedom(a: State, b: State)
    requires a.queue == b.queue && a.sequence == b.sequence && a.scope == b.scope && a.reading == b.reading
    ensures Free(a) ==> Free(b)
  {
    SameQueue(a, b);
  }

  lemma ReloadKeeps(s: State, t: State, index: nat, reply: Reply, calm: bool)
    requires Inv(s, calm) && index < |s.queue| && t == s.(queue := s.queue[..index] + s.queue[index + 1..])
    requires s.queue[index].Reload?
    ensures Inv(Resume(t, s.queue[index], reply), calm)
  {
    hide Inv, Free, Continue;
    Removed(s, t, index, calm);
    ContinueKeeps(t, s.queue[index].after, reply.Reloaded?, calm);
  }

  lemma LeavingKeeps(s: State, r: State, calm: bool)
    requires Inv(s, calm) && r.queue == s.queue && s.sequence <= r.sequence && s.scope <= r.scope
    requires r.sequence != s.sequence || r.scope != s.scope
    requires r == s.(sequence := r.sequence, scope := r.scope, supported := r.supported)
    ensures Inv(r, calm)
  {
    assert forall i :: !ValidateAt(r, i) && !StatusAt(r, i) && !ApplyAt(r, i);
    assert forall i :: HoldsAt(r, i) <==> HoldsAt(s, i);
  }

  lemma FileKeeps(s: State, valid: bool, calm: bool)
    requires Inv(s, calm)
    ensures Inv(Step(s, FileRead(valid)), calm)
  {
    if s.reading.Some? {
      var t := s.(reading := None);
      SameQueue(s, t);
      forall i ensures !HoldsAt(t, i) { assert HoldsAt(s, i) ==> s.reading.None?; }
      assert Confirming(t) ==> Confirming(s);
      ReleaseKeeps(t, calm);
      var o := s.reading.value;
      if valid && Current(s, o.sequence, o.scope) {
        assert Confirming(s);
        SendValidateKeeps(t, o.sequence, o.scope, calm);
      }
    }
  }

  lemma SendValidateKeeps(t: State, sequence: nat, scope: nat, calm: bool)
    requires Inv(t, calm) && t.busy && Free(t) && Current(t, sequence, scope) && t.unresolved.None?
    requires calm ==> t.uncertain.None? && forall i :: !StatusAt(t, i)
    ensures Inv(t.(queue := t.queue + [Validate(sequence, scope)]), calm)
  {
    var r := t.(queue := t.queue + [Validate(sequence, scope)]);
    var n := |t.queue|;
    assert forall i :: 0 <= i < n ==> r.queue[i] == t.queue[i];
    assert forall i :: HoldsAt(r, i) && i != n ==> HoldsAt(t, i);
    assert forall i :: StatusAt(r, i) ==> StatusAt(t, i);
    assert forall i :: ApplyAt(r, i) ==> ApplyAt(t, i) && HoldsAt(t, i);
  }

  lemma PressKeeps(s: State, acceptable: bool, calm: bool)
    requires Inv(s, calm) && (calm ==> forall i :: !StatusAt(s, i))
    ensures Inv(Step(s, PressRestore(acceptable)), calm)
  {
    var r := Step(s, PressRestore(acceptable));
    SameQueue(s, r);
    if r != s {
      forall i ensures !HoldsAt(s, i) { assert HoldsAt(s, i) ==> s.busy; }
      forall i ensures !ApplyAt(s, i) { assert ApplyAt(s, i) ==> HoldsAt(s, i); }
    }
  }

  lemma PressReadKeeps(s: State, button: bool, calm: bool)
    requires Inv(s, calm) && (calm ==> !Confirming(s))
    ensures Inv(Step(s, Read(button)), calm)
  {
    if s.supported && !(button && s.busy) {
      if button {
        var t := s.(busy := true);
        SameQueue(s, t);
        forall i ensures !HoldsAt(t, i) { assert HoldsAt(s, i) ==> s.busy; }
        assert Confirming(t) ==> Confirming(s);
        SendStatusKeeps(t, Button, calm);
      } else {
        SendStatusKeeps(s, Loose, calm);
      }
    }
  }

  lemma SupportKeeps(s: State, supported: bool, calm: bool)
    requires Inv(s, calm)
    ensures Inv(s.(supported := supported), calm)
  {
    var r := s.(supported := supported);
    SameQueue(s, r);
    assert Confirming(r) ==> Confirming(s);
  }

  /** Requests settle in the order in which they were sent, and status reads keep away from a restore until
      it has been sent: none is under way when it starts, none starts before then. */
  ghost predicate Calm(s: State, e: Event) {
    && (e.Settle? ==> e.index == 0)
    && (e.PressRestore? ==> forall i :: !StatusAt(s, i))
    && (e.Read? ==> !Confirming(s))
  }

  lemma StepKeeps(s: State, e: Event, calm: bool)
    requires Inv(s, calm) && !Deceives(s, e) && (calm ==> Calm(s, e))
    ensures Inv(Step(s, e), calm)
  {
    hide Inv, Resume, Deceives;
    var r := Step(s, e);
    match e
    case Close => LeavingKeeps(s, r, calm);
    case ScopeChange => LeavingKeeps(s, r, calm);
    case Support(supported) => SupportKeeps(s, supported, calm);
    case PressRestore(acceptable) => PressKeeps(s, acceptable, calm);
    case FileRead(valid) => FileKeeps(s, valid, calm);
    case Read(button) => PressReadKeeps(s, button, calm);
    case Settle(index, reply) =>
      if index < |s.queue| {
        var t := s.(queue := s.queue[..index] + s.queue[index + 1..]);
        match s.queue[index]
        case Validate(_, _) => ValidateKeeps(s, t, index, reply, calm);
        case ApplyCall(_, _, _) => ApplyKeeps(s, t, index, reply, calm);
        case Status(_, _, _, _) => StatusKeeps(s, t, index, reply, calm);
        case Reload(_) => ReloadKeeps(s, t, index, reply, calm);
      }
  }

  // ---------------------------------------------------------------- runs

  ghost function After(events: seq<Event>): State {
    if events == [] then START else Step(After(events[..|events| - 1]), events[|events| - 1])
  }

  /** Replies in any order, but none that is outdated while a restore is unresolved. */
  ghost predicate Undeceived(events: seq<Event>) {
    events == [] ||
    (var front := events[..|events| - 1]; Undeceived(front) && !Deceives(After(front), events[|events| - 1]))
  }

  ghost predicate CalmRun(events: seq<Event>) {
    events == [] ||
    (var front := events[..|events| - 1]; CalmRun(front) && Calm(After(front), events[|events| - 1]))
  }

  lemma EmptyPanel(calm: bool)
    ensures Inv(START, calm)
  {
  }

  lemma {:induction false} RunKeeps(events: seq<Event>)
    requires Undeceived(events)
    ensures Inv(After(events), false)
  {
    hide Step, Inv, Deceives;
    if events != [] {
      RunKeeps(events[..|events| - 1]);
      StepKeeps(After(events[..|events| - 1]), events[|events| - 1], false);
    } else {
      EmptyPanel(false);
    }
  }

  /** In a calm run every status read that is still heeded knows the unresolved restore. */
  lemma CalmIsNotDeceived(s: State, e: Event)
    requires Inv(s, true) && Calm(s, e)
    ensures !Deceives(s, e)
  {
    assert Deceives(s, e) ==> StatusAt(s, 0);
  }

  lemma {:induction false} CalmRunIsUndeceived(events: seq<Event>)
    requires CalmRun(events)
    ensures Undeceived(events) && Inv(After(events), true)
  {
    hide Step, Inv, Deceives, Calm;
    if events != [] {
      var front, e := events[..|events| - 1], events[|events| - 1];
      CalmRunIsUndeceived(front);
      CalmIsNotDeceived(After(front), e);
      StepKeeps(After(front), e, true);
    } else {
      EmptyPanel(true);
    }
  }

  // ---------------------------------------------------------------- the theorems

  /** With replies in any order: as long as no outdated reply arrives while a restore is unresolved, no restore
      is sent while an earlier one is unresolved, and its own id stays the panel's doubt. */
  lemma OneRestoreAtATime(events: seq<Event>, e: Event)
    requires Undeceived(events)
    ensures Tracked(After(events))
    ensures After(events).unresolved.Some? ==> Step(After(events), e).applies == After(events).applies
  {
    hide *;
    RunKeeps(events);
    NoSecondRestore(After(events), e);
  }

  lemma NoSecondRestore(s: State, e: Event)
    requires Inv(s, false)
    ensures Tracked(s)
    ensures s.unresolved.Some? ==> Step(s, e).applies == s.applies
  {
    if e.Settle? && e.index < |s.queue| && s.queue[e.index].Validate? {
      assert Current(s, s.queue[e.index].sequence, s.queue[e.index].scope) ==> ValidateAt(s, e.index);
    }
  }

  /** In such a run track is lost at exactly those events. */
  lemma TrackIsLostIffDeceived(events: seq<Event>, e: Event)
    requires Undeceived(events)
    ensures Tracked(Step(After(events), e)) <==> !Deceives(After(events), e)
  {
    hide *;
    RunKeeps(events);
    StepLosesTrackIff(After(events), e);
  }

  lemma StepLosesTrackIff(s: State, e: Event)
    requires Inv(s, false)
    ensures Tracked(Step(s, e)) <==> !Deceives(s, e)
  {
    if Deceives(s, e) {
      hide Inv, Locked, Bounded;
      IsTracked(s, false);
      TrackIsLostIffOutdated(s, e);
    } else {
      StepKeeps(s, e, false);
    }
  }

  /** Calm runs are among them. */
  lemma CalmRestores(events: seq<Event>, e: Event)
    requires CalmRun(events)
    ensures Tracked(After(events))
    ensures After(events).unresolved.Some? ==> Step(After(events), e).applies == After(events).applies
  {
    hide *;
    CalmRunIsUndeceived(events);
    OneRestoreAtATime(events, e);
  }

  /** The view reads its status as it opens, a restore starts, the read finds the job of another client, the
      timer reads again, and only then is the restore sent; the answer to that second read is that no job
      exists, and the reply to the restore is lost. Then a second restore is sent. */
  const OVERLAP: seq<Event> :=
    [Support(true), Read(false), PressRestore(true), FileRead(true), Settle(0, JobReply(APPLYING, Some("x"))),
     Read(false), Settle(0, Summary(true, "a")), Settle(0, JobReply(IDLE, None)), Settle(0, Failure),
     Settle(0, Failure), PressRestore(true), FileRead(true), Settle(0, Summary(true, "b"))]

  /** The condition is needed: although every request settles in order and only one operation runs at a time, a
      status read from the timer that overlaps a restore can end its doubt, and a second restore
      is sent while the first is unresolved. */
  lemma OverlappingReadLosesTrack()
    ensures exists events: seq<Event> :: After(events).applies == ["a", "b"]
              && exists n :: 0 <= n < |events| && After(events[..n]).unresolved == Some("a")
                             && After(events[..n + 1]).applies == ["a", "b"]
  {
    var base := State(0, 0, true, true, None, None, [], [], None);
    var sent := base.(applies := ["a"], unresolved := Some("a"));
    OverlapStarts(base);
    RestoreIsSent(base, sent);
    LostReply(sent);
    SecondRestore(sent);
  }

  lemma OverlapStarts(base: State)
    requires base == State(0, 0, true, true, None, None, [], [], None)
    ensures After(OVERLAP[..4]) == base.(queue := [Status(0, 0, None, Loose), Validate(0, 0)])
  {
    var s1 := base.(busy := false);
    var s2 := s1.(queue := [Status(0, 0, None, Loose)]);
    var s3 := base.(reading := Some(Origin(0, 0)), queue := [Status(0, 0, None, Loose)]);
    Reach(0, START, s1);
    Reach(1, s1, s2);
    Reach(2, s2, s3);
    Reach(3, s3, base.(queue := [Status(0, 0, None, Loose), Validate(0, 0)]));
  }

  lemma RestoreIsSent(base: State, sent: State)
    requires base == State(0, 0, true, true, None, None, [], [], None)
    requires sent == base.(applies := ["a"], unresolved := Some("a"))
    requires After(OVERLAP[..4]) == base.(queue := [Status(0, 0, None, Loose), Validate(0, 0)])
    ensures After(OVERLAP[..7]) ==
            sent.(uncertain := Some("a"), queue := [Status(0, 0, Some("x"), Loose), ApplyCall(0, 0, "a")])
  {
    hide After;
    var s4 := base.(queue := [Status(0, 0, None, Loose), Validate(0, 0)]);
    var s5 := base.(uncertain := Some("x"), queue := [Validate(0, 0)]);
    var s6 := s5.(queue := [Validate(0, 0), Status(0, 0, Some("x"), Loose)]);
    Reach(4, s4, s5);
    Reach(5, s5, s6);
    Reach(6, s6, sent.(uncertain := Some("a"), queue := [Status(0, 0, Some("x"), Loose), ApplyCall(0, 0, "a")]));
  }

  lemma LostReply(sent: State)
    requires sent == State(0, 0, true, true, None, None, [], ["a"], Some("a"))
    requires After(OVERLAP[..7]) ==
             sent.(uncertain := Some("a"), queue := [Status(0, 0, Some("x"), Loose), ApplyCall(0, 0, "a")])
    ensures After(OVERLAP[..10]) == sent.(busy := false)
  {
    hide After;
    var s7 := sent.(uncertain := Some("a"), queue := [Status(0, 0, Some("x"), Loose), ApplyCall(0, 0, "a")]);
    var s8 := sent.(queue := [ApplyCall(0, 0, "a")]);
    var s9 := sent.(queue := [Status(0, 0, None, Restoring("a", 0, 0, true))]);
    Reach(7, s7, s8);
    Reach(8, s8, s9);
    Reach(9, s9, sent.(busy := false));
  }

  lemma SecondRestore(sent: State)
    requires sent == State(0, 0, true, true, None, None, [], ["a"], Some("a"))
    requires After(OVERLAP[..10]) == sent.(busy := false)
    ensures After(OVERLAP).applies == ["a", "b"] && After(OVERLAP[..12]).unresolved == Some("a")
    ensures After(OVERLAP[..12 + 1]).applies == ["a", "b"]
  {
    hide After;
    var s11 := sent.(reading := Some(Origin(0, 0)));
    var s12 := sent.(queue := [Validate(0, 0)]);
    Reach(10, sent.(busy := false), s11);
    Reach(11, s11, s12);
    var s13 := sent.(uncertain := Some("b"), queue := [ApplyCall(0, 0, "b")], applies := ["a", "b"],
                     unresolved := Some("b"));
    Reach(12, s12, s13);
    assert OVERLAP[..13] == OVERLAP;
  }

  lemma Reach(n: nat, s: State, r: State)
    requires n < |OVERLAP| && After(OVERLAP[..n]) == s && Step(s, OVERLAP[n]) == r
    ensures After(OVERLAP[..n + 1]) == r
  {
    assert OVERLAP[..n + 1] == OVERLAP[..n] + [OVERLAP[n]];
    Appended(OVERLAP[..n], OVERLAP[n]);
  }

  lemma Appended(events: seq<Event>, e: Event)
    ensures After(events + [e]) == Step(After(events), e)
  {
    assert (events + [e])[..|events|] == events;
  }
}
