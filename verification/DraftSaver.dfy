/** The optimistic saver of the settings draft. Every `await` is a point where other events may
    come in; a saver that is waiting is kept as a record of its local variables. */
module DraftSaver {
  import opened Wrappers

  /** An edit is named by its session and its number in that session. */
  datatype Edit = Edit(session: nat, number: nat)

  /** The draft carries the revision it was based on and the edits made since it was last in step
      with the router's state. */
  datatype Draft = Draft(revision: int, edits: set<Edit>)

  /** A suspended saver: waiting for the reply to `settings`, or to `state` after a conflict.
      `calls` and `accepted` count the settings requests of this run and those that were accepted. */
  datatype Saver =
    | Writing(session: nat, version: nat, payload: Draft, retried: bool, calls: nat, accepted: nat)
    | Reloading(session: nat, calls: nat, accepted: nat)

  datatype Reply = Accepted(revision: int) | Conflict | Failed

  datatype Event =
    | Begin | Change | Close | Drop | Lock
    | Unlock(revision: int)  // a state was loaded
    | Sync(revision: int)    // another operation applied a newer state
    | Settle(id: nat, reply: Reply)

  /** A finished run: how many settings requests it made and how many were accepted. */
  datatype Run = Run(calls: nat, accepted: nat)

  /** The variables of the module, the suspended savers, and the history: every edit counted so far, the
      edits inside accepted writes, those rolled back and those discarded with their session, and the finished
      runs. `known` is the revision of the loaded state. */
  datatype State = State(
    draft: Option<Draft>, change: nat, saved: nat, saving: bool, session: nat, known: Option<int>,
    savers: map<nat, Saver>, nextId: nat,
    counted: set<Edit>, written: set<Edit>, rolledBack: set<Edit>, discarded: set<Edit>, runs: seq<Run>)

  const START := State(None, 0, 0, false, 0, None, map[], 0, {}, {}, {}, {}, [])

  // ---------------------------------------------------------------- the protocol as a function

  predicate Unsaved(s: State) {
    s.draft.Some? && s.saved < s.change
  }

  /** The head of the loop: send the draft again, or finish the run. */
  function LoopHead(s: State, id: nat, session: nat, retried: bool, calls: nat, accepted: nat): (r: State)
    ensures r == s.(saving := r.saving, nextId := r.nextId, savers := r.savers, runs := r.runs)
  {
    if Unsaved(s) && session == s.session
    then s.(savers := s.savers[id := Writing(session, s.change, s.draft.value, retried, calls + 1, accepted)])
    else Finish(s, id, calls, accepted)
  }

  /** `finally`: release the lock and start over if edits are left. */
  function Finish(s: State, id: nat, calls: nat, accepted: nat): (r: State)
    ensures r == s.(saving := r.saving, nextId := r.nextId, savers := r.savers, runs := r.runs)
  {
    Persist(s.(saving := false, savers := s.savers - {id}, runs := s.runs + [Run(calls, accepted)]))
  }

  function Persist(s: State): (r: State)
    ensures r == s.(saving := r.saving, nextId := r.nextId, savers := r.savers)
  {
    if !Unsaved(s) || s.saving then s
    else s.(saving := true, nextId := s.nextId + 1,
            savers := s.savers[s.nextId := Writing(s.session, s.change, s.draft.value, false, 1, 0)])
  }

  /** The edits first+1..last of a session. */
  function Edits(session: nat, first: nat, last: nat): set<Edit> {
    set n | first < n <= last :: Edit(session, n)
  }

  /** The edits numbered above `saved` in the current session. */
  function Pending(s: State): set<Edit> {
    Edits(s.session, s.saved, s.change)
  }

  /** The edits inside the request under way that no accepted write has held yet. */
  ghost function InFlight(s: State): set<Edit> {
    Flying(s.savers, s.written)
  }

  ghost function Flying(savers: map<nat, Saver>, written: set<Edit>): set<Edit> {
    set id, x | id in savers && savers[id].Writing? && x in savers[id].payload.edits && x !in written :: x
  }

  predicate Current(s: State, session: nat) {
    s.draft.Some? && session == s.session
  }

  /** A failure rolls the draft back to the loaded state, unless another session has taken over. */
  function RollBack(s: State, session: nat): State {
    if Current(s, session) && s.known.Some?
    then s.(draft := Some(Draft(s.known.value, {})), saved := s.change, rolledBack := s.rolledBack + Pending(s))
    else s
  }

  /** The draft goes away: what was not sent is discarded with it. */
  ghost function EndSession(s: State): State {
    if s.draft.None? then s
    else s.(draft := None, discarded := s.discarded + (Pending(s) - InFlight(s)))
  }

  /** A write whose session is over has failed: nobody holds its edits any more. */
  ghost function LoseStale(s: State, w: Saver): State {
    if w.Writing? && !Current(s, w.session) then s.(discarded := s.discarded + (w.payload.edits - s.written)) else s
  }

  ghost function Step(s: State, e: Event): State {
    match e
    case Begin =>
      if s.known.None? then s.(session := s.session + 1)  // no state to copy: the call throws
      else EndSession(s).(session := s.session + 1, draft := Some(Draft(s.known.value, {})), change := 0, saved := 0)
    case Change =>
      if s.draft.None? then s
      else
        var edit := Edit(s.session, s.change + 1);
        Persist(s.(draft := Some(s.draft.value.(edits := s.draft.value.edits + {edit})), change := s.change + 1,
                   counted := s.counted + {edit}))
    case Close => if s.draft.None? then s else EndSession(s).(session := s.session + 1)
    case Drop => EndSession(s)
    case Lock => EndSession(s).(known := None)
    case Unlock(revision) => s.(known := Some(revision))
    case Sync(revision) =>
      s.(known := Some(revision),
         draft := if s.draft.None? then None else Some(s.draft.value.(revision := revision)))
    case Settle(id, reply) => if id in s.savers then Resume(s, id, s.savers[id], reply) else s
  }

  ghost function Resume(s: State, id: nat, w: Saver, reply: Reply): State {
    match w
    case Writing(session, version, payload, retried, calls, accepted) =>
      (match reply
       case Accepted(revision) =>
         var next := s.(known := Some(revision), written := s.written + payload.edits);
         if !Current(s, session) then Finish(next, id, calls, accepted + 1)
         else LoopHead(next.(draft := Some(s.draft.value.(revision := revision)), saved := version),
                       id, session, false, calls, accepted + 1)
       case Conflict =>
         if retried then Finish(RollBack(LoseStale(s, w), session), id, calls, accepted)
         else LoseStale(s, w).(savers := s.savers[id := Reloading(session, calls, accepted)])
       case Failed => Finish(RollBack(LoseStale(s, w), session), id, calls, accepted))
    case Reloading(session, calls, accepted) =>
      (match reply
       case Accepted(revision) =>
         var next := s.(known := Some(revision));
         LoopHead(if Current(s, session)
                  then next.(draft := Some(s.draft.value.(revision := revision))) else next,
                  id, session, true, calls, accepted)
       case _ => Finish(RollBack(s, session), id, calls, accepted))
  }

  ghost function After(events: seq<Event>): State {
    if events == [] then START else Step(After(events[..|events| - 1]), events[|events| - 1])
  }

  // ---------------------------------------------------------------- what a reply does

  /** Saver `id` is the only one, and it is now waiting as `w`. */
  ghost predicate Waits(r: State, id: nat, w: Saver) {
    r.saving && r.savers == map[id := w]
  }

  /** The saver has left; if the draft on the screen holds unsaved edits, a new one has sent it. */
  ghost predicate Left(s: State, calls: nat, accepted: nat, r: State) {
    && r.runs == s.runs + [Run(calls, accepted)]
    && if r.draft.Some? && r.saved < r.change
       then r.nextId == s.nextId + 1 && Waits(r, s.nextId, Writing(r.session, r.change, r.draft.value, false, 1, 0))
       else r.nextId == s.nextId && r.savers == map[] && !r.saving
  }

  /** Draft and mark are as before. */
  predicate Untouched(s: State, r: State) {
    r.draft == s.draft && r.saved == s.saved
  }

  /** A write was accepted: the open draft takes the new revision and what was sent is saved. Edits made since go out
      at once, with the whole draft and under that revision. */
  ghost predicate Confirmed(s: State, id: nat, w: Saver, revision: int, r: State)
    requires w.Writing?
  {
    && r.known == Some(revision) && r.written == s.written + w.payload.edits
    && if Current(s, w.session) then
         && r.draft == Some(Draft(revision, s.draft.value.edits)) && r.saved == w.version
         && if w.version < s.change
            then r.runs == s.runs && r.nextId == s.nextId
                 && Waits(r, id, Writing(s.session, s.change, r.draft.value, false, w.calls + 1, w.accepted + 1))
            else Left(s, w.calls, w.accepted + 1, r)
       else Untouched(s, r) && Left(s, w.calls, w.accepted + 1, r)
  }

  /** The state was read again after a conflict: the draft goes out once more, under the revision read. */
  ghost predicate Reread(s: State, id: nat, w: Saver, revision: int, r: State) {
    && r.known == Some(revision) && r.written == s.written
    && if Current(s, w.session) then
         && r.draft == Some(Draft(revision, s.draft.value.edits)) && r.saved == s.saved
         && if s.saved < s.change
            then r.runs == s.runs && r.nextId == s.nextId
                 && Waits(r, id, Writing(s.session, s.change, r.draft.value, true, w.calls + 1, w.accepted))
            else Left(s, w.calls, w.accepted, r)
       else Untouched(s, r) && Left(s, w.calls, w.accepted, r)
  }

  /** The saver gives up: the open draft starts again from the loaded state, with nothing left to save. */
  ghost predicate GivenUp(s: State, w: Saver, r: State) {
    && r.known == s.known && r.written == s.written && Left(s, w.calls, w.accepted, r)
    && if Current(s, w.session)
       then s.known.Some? && r.draft == Some(Draft(s.known.value, {})) && r.saved == s.change
       else Untouched(s, r)
  }

  /** What becomes of the state when saver `id` gets its reply. */
  ghost predicate Handled(s: State, id: nat, reply: Reply, r: State)
    requires id in s.savers
  {
    var w := s.savers[id];
    && r.session == s.session && r.change == s.change && r.counted == s.counted
    && match reply
       case Accepted(revision) => if w.Writing? then Confirmed(s, id, w, revision, r) else Reread(s, id, w, revision, r)
       case Conflict =>
         if w.Writing? && !w.retried
         then r.known == s.known && r.written == s.written && r.runs == s.runs && r.nextId == s.nextId
              && Untouched(s, r) && Waits(r, id, Reloading(w.session, w.calls, w.accepted))
         else GivenUp(s, w, r)
       case Failed => GivenUp(s, w, r)
  }

  lemma FinishLeaves(s: State, id: nat, calls: nat, accepted: nat)
    requires s.savers - {id} == map[]
    ensures Left(s, calls, accepted, Finish(s, id, calls, accepted))
    ensures var r := Finish(s, id, calls, accepted); Untouched(s, r) && r.session == s.session && r.change == s.change
  {
  }

  lemma WriteIsConfirmed(s: State, id: nat, w: Saver, revision: int)
    requires id in s.savers && s.savers[id] == w && s.savers == map[id := w] && s.saving && w.Writing?
    requires Current(s, w.session) ==> w.version <= s.change
    ensures Confirmed(s, id, w, revision, Resume(s, id, w, Accepted(revision)))
  {
    hide Finish, Left;
    var next := s.(known := Some(revision), written := s.written + w.payload.edits);
    FinishLeaves(next, id, w.calls, w.accepted + 1);
    var later := next.(draft := if s.draft.Some? then Some(s.draft.value.(revision := revision)) else None,
                       saved := w.version);
    FinishLeaves(later, id, w.calls, w.accepted + 1);
    LeftAlike(next, s, w.calls, w.accepted + 1, Finish(next, id, w.calls, w.accepted + 1));
    LeftAlike(later, s, w.calls, w.accepted + 1, Finish(later, id, w.calls, w.accepted + 1));
  }

  lemma StateIsReread(s: State, id: nat, w: Saver, revision: int)
    requires id in s.savers && s.savers[id] == w && s.savers == map[id := w] && s.saving && w.Reloading?
    ensures Reread(s, id, w, revision, Resume(s, id, w, Accepted(revision)))
  {
    hide Finish, Left;
    var next := s.(known := Some(revision));
    FinishLeaves(next, id, w.calls, w.accepted);
    var later := next.(draft := if s.draft.Some? then Some(s.draft.value.(revision := revision)) else None);
    FinishLeaves(later, id, w.calls, w.accepted);
    LeftAlike(next, s, w.calls, w.accepted, Finish(next, id, w.calls, w.accepted));
    LeftAlike(later, s, w.calls, w.accepted, Finish(later, id, w.calls, w.accepted));
  }

  lemma FailureGivesUp(s: State, id: nat, w: Saver)
    requires s.savers == map[id := w] && (s.draft.Some? ==> s.known.Some?)
    ensures GivenUp(s, w, Finish(RollBack(LoseStale(s, w), w.session), id, w.calls, w.accepted))
  {
    hide Finish, Left;
    var t := RollBack(LoseStale(s, w), w.session);
    FinishLeaves(t, id, w.calls, w.accepted);
    LeftAlike(t, s, w.calls, w.accepted, Finish(t, id, w.calls, w.accepted));
  }

  lemma LeftAlike(s: State, t: State, calls: nat, accepted: nat, r: State)
    requires Left(s, calls, accepted, r) && s.runs == t.runs && s.nextId == t.nextId
    ensures Left(t, calls, accepted, r)
  {
  }

  lemma ReplyIsHandled(s: State, id: nat, reply: Reply)
    requires Inv(s) && id in s.savers
    ensures Handled(s, id, reply, Step(s, Settle(id, reply)))
  {
    OnlySaver(s, id);
    SaverIsBehind(s, id);
    hide Inv, Flying, Edits, Finish, LoopHead, Confirmed, Reread, GivenUp;
    var w := s.savers[id];
    FailureGivesUp(s, id, w);
    if reply.Accepted? {
      if w.Writing? { WriteIsConfirmed(s, id, w, reply.revision); } else { StateIsReread(s, id, w, reply.revision); }
    }
    ReplyEffects(s, id, reply);
  }

  lemma SaverIsBehind(s: State, id: nat)
    requires Inv(s) && id in s.savers
    ensures s.draft.Some? ==> s.known.Some?
    ensures s.savers[id].Writing? && Current(s, s.savers[id].session) ==> s.savers[id].version <= s.change
  {
    assert SaverSound(s, s.savers[id]);
  }

  // ---------------------------------------------------------------- the same protocol as the code runs it

  class Saving {
    var draft: Option<Draft>
    var change: nat
    var saved: nat
    var saving: bool
    var session: nat
    var known: Option<int>
    var savers: map<nat, Saver>
    var nextId: nat
    ghost var counted: set<Edit>
    ghost var written: set<Edit>
    ghost var rolledBack: set<Edit>
    ghost var discarded: set<Edit>
    ghost var runs: seq<Run>

    ghost function Now(): State
      reads this
    {
      State(draft, change, saved, saving, session, known, savers, nextId, counted, written, rolledBack, discarded, runs)
    }

    ghost predicate Valid()
      reads this
    {
      Inv(Now())
    }

    constructor ()
      ensures Valid() && Now() == START
    {
      draft, change, saved, saving, session, known := None, 0, 0, false, 0, None;
      savers, nextId, counted, written, rolledBack, discarded, runs := map[], 0, {}, {}, {}, {}, [];
    }

    /** A new session: no edit counted so far belongs to it, and a saver at work goes on undisturbed. */
    method BeginSettingsDraft()
      requires Valid()
      modifies this
      ensures Valid() && Now() == Step(old(Now()), Begin)
      ensures known.Some? ==> draft == Some(Draft(known.value, {})) && forall x :: x in counted ==> x.session < session
      ensures known == old(known) && session == old(session) + 1
      ensures if known.Some? then change == saved == 0 else draft == old(draft)
      ensures savers == old(savers) && counted == old(counted) && InFlight(Now()) == old(InFlight(Now()))
    {
      hide Inv, Pending, Flying;
      StepKeeps(Now(), Begin);
      EarlierSessions(Now());
      if known.Some? { DiscardUnsent(); }
      session := session + 1;
      if known.Some? {
        draft := Some(Draft(known.value, {}));
        change := 0;
        saved := 0;
      }
    }

    /** An edit of an open draft is counted under a new name and is in the draft, and a saver is at work. */
    method QueueDraftSave()
      requires Valid()
      modifies this
      ensures Valid() && Now() == Step(old(Now()), Change)
      ensures old(draft).None? ==> Now() == old(Now())
      ensures old(draft).Some? ==>
                && saving && draft.Some? && Edit(session, change) in draft.value.edits
                && Edit(session, change) !in old(counted) && counted == old(counted) + {Edit(session, change)}
                && draft.value == Draft(old(draft.value.revision), old(draft.value.edits) + {Edit(session, change)})
                && change == old(change) + 1 && saved == old(saved) && session == old(session) && known == old(known)
      ensures old(draft).Some? ==>
                if old(saving) then savers == old(savers)
                else Waits(Now(), old(nextId), Writing(session, change, draft.value, false, 1, 0))
    {
      StepKeeps(Now(), Change);
      if draft.None? { return; }
      ChangeEffects(Now());
      hide Inv, Pending, Flying, Persist;
      change := change + 1;
      draft := Some(draft.value.(edits := draft.value.edits + {Edit(session, change)}));
      counted := counted + {Edit(session, change)};
      PersistDraft();
    }

    /** Closing leaves no draft, and every saver at work belongs to a session that is over. */
    method FinishModal()
      requires Valid()
      modifies this
      ensures Valid() && Now() == Step(old(Now()), Close)
      ensures draft.None? && InFlight(Now()) == old(InFlight(Now()))
      ensures old(draft).Some? ==> forall id :: id in savers ==> savers[id].session < session
      ensures session == old(session) + (if old(draft).Some? then 1 else 0) && known == old(known)
      ensures savers == old(savers) && saving == old(saving)
      ensures discarded == old(discarded) + old(Unsettled(Now()) - InFlight(Now()))
    {
      StepKeeps(Now(), Close);
      if draft.None? { return; }
      DiscardUnsent();
      session := session + 1;
    }

    method DropDraft()
      requires Valid()
      modifies this
      ensures Valid() && Now() == Step(old(Now()), Drop)
      ensures draft.None? && discarded == old(discarded) + old(Unsettled(Now()) - InFlight(Now()))
      ensures session == old(session) && known == old(known) && savers == old(savers) && saving == old(saving)
    {
      StepKeeps(Now(), Drop);
      DiscardUnsent();
    }

    /** A lock takes the draft and the state away; what is in flight stays in flight. */
    method LocalLock()
      requires Valid()
      modifies this
      ensures Valid() && Now() == Step(old(Now()), Lock)
      ensures draft.None? && known.None? && InFlight(Now()) == old(InFlight(Now()))
      ensures session == old(session) && savers == old(savers) && saving == old(saving)
      ensures discarded == old(discarded) + old(Unsettled(Now()) - InFlight(Now()))
    {
      StepKeeps(Now(), Lock);
      known := None;
      DiscardUnsent();
    }

    method DiscardUnsent()
      modifies `draft, `discarded
      ensures Now() == EndSession(old(Now()))
    {
      if draft.Some? {
        discarded := discarded + (Pending(Now()) - InFlight(Now()));
        draft := None;
      }
    }

    method ApplyState(revision: int, sync: bool)
      requires Valid()
      modifies this
      ensures Valid() && Now() == Step(old(Now()), if sync then Sync(revision) else Unlock(revision))
      ensures Unsettled(Now()) == old(Unsettled(Now())) && InFlight(Now()) == old(InFlight(Now()))
      ensures known == Some(revision) && session == old(session) && savers == old(savers) && saving == old(saving)
      ensures draft == if sync && old(draft).Some? then Some(Draft(revision, old(draft).value.edits)) else old(draft)
    {
      StepKeeps(Now(), if sync then Sync(revision) else Unlock(revision));
      known := Some(revision);
      if sync && draft.Some? { draft := Some(draft.value.(revision := revision)); }
    }

    /** Starts a saver unless one is running or nothing is unsaved. */
    method PersistDraft()
      modifies this
      ensures Now() == Persist(old(Now()))
    {
      if draft.None? || saving || saved >= change { return; }
      saving := true;
      savers := savers[nextId := Writing(session, change, draft.value, false, 1, 0)];
      nextId := nextId + 1;
    }

    /** The test at the head of the loop, with what follows it up to the next `await`. */
    method Loop(id: nat, mine: nat, retried: bool, calls: nat, accepted: nat)
      modifies this
      ensures Now() == LoopHead(old(Now()), id, mine, retried, calls, accepted)
    {
      if draft.Some? && mine == session && saved < change {
        savers := savers[id := Writing(mine, change, draft.value, retried, calls + 1, accepted)];
      } else {
        Leave(id, calls, accepted);
      }
    }

    method Leave(id: nat, calls: nat, accepted: nat)
      modifies this
      ensures Now() == Finish(old(Now()), id, calls, accepted)
    {
      saving := false;
      savers := savers - {id};
      runs := runs + [Run(calls, accepted)];
      if draft.Some? && saved < change { PersistDraft(); }
    }

    method Fail(id: nat, mine: nat, calls: nat, accepted: nat)
      modifies this
      ensures Now() == Finish(RollBack(old(Now()), mine), id, calls, accepted)
    {
      if draft.Some? && mine == session && known.Some? {
        rolledBack := rolledBack + Pending(Now());
        draft := Some(Draft(known.value, {}));
        saved := change;
      }
      Leave(id, calls, accepted);
    }

    /** A reply arrives and the saver that waits for it goes on to its next `await`. Only the saver of the
        open session touches the draft and the mark of what is saved. */
    method OnReply(id: nat, reply: Reply)
      requires Valid()
      modifies this
      ensures Valid() && Now() == Step(old(Now()), Settle(id, reply))
      ensures if id in old(savers) then Handled(old(Now()), id, reply, Now()) else Now() == old(Now())
      ensures counted == old(counted) && session == old(session) && change == old(change)
      ensures id in old(savers) && old(savers)[id].Writing? && reply.Accepted? ==>
                written == old(written) + old(savers)[id].payload.edits
      ensures id in old(savers) && old(savers)[id].Writing? && reply.Accepted?
              && old(draft).Some? && old(savers)[id].session == session ==>
                && known == Some(reply.revision) && draft == Some(Draft(reply.revision, old(draft).value.edits))
                && saved == old(savers)[id].version
                && (saved < change ==> id in savers && savers[id].Writing? && savers[id].payload == draft.value)
      ensures id in old(savers) && !Current(old(Now()), old(savers)[id].session) ==>
                draft == old(draft) && saved == old(saved) && rolledBack == old(rolledBack)
      ensures draft.Some? && saved < change ==> saving
    {
      hide Inv, Resume, InFlight, Pending;
      StepKeeps(Now(), Settle(id, reply));
      ReplyEffects(Now(), id, reply);
      if id in savers { ReplyIsHandled(Now(), id, reply); }
      SavedOrSaving(Step(Now(), Settle(id, reply)));
      if id !in savers { return; }
      if savers[id].Writing? { OnWritten(id, reply); } else { OnReloaded(id, reply); }
    }

    method OnWritten(id: nat, reply: Reply)
      requires id in savers && savers[id].Writing?
      modifies this
      ensures Now() == Resume(old(Now()), id, old(savers[id]), reply)
    {
      hide Persist, Finish, LoopHead, RollBack;
      var Writing(mine, version, payload, retried, calls, accepted) := savers[id];
      if reply.Accepted? {
        known := Some(reply.revision);
        written := written + payload.edits;
        if draft.None? || mine != session {
          Leave(id, calls, accepted + 1);
        } else {
          draft := Some(draft.value.(revision := reply.revision));
          saved := version;
          Loop(id, mine, false, calls, accepted + 1);
        }
      } else {
        if draft.None? || mine != session { discarded := discarded + (payload.edits - written); }
        if reply.Conflict? && !retried {
          savers := savers[id := Reloading(mine, calls, accepted)];
        } else {
          Fail(id, mine, calls, accepted);
        }
      }
    }

    method OnReloaded(id: nat, reply: Reply)
      requires id in savers && savers[id].Reloading?
      modifies this
      ensures Now() == Resume(old(Now()), id, old(savers[id]), reply)
    {
      var Reloading(mine, calls, accepted) := savers[id];
      if reply.Accepted? {
        known := Some(reply.revision);
        if draft.Some? && mine == session { draft := Some(draft.value.(revision := reply.revision)); }
        Loop(id, mine, true, calls, accepted);
      } else {
        Fail(id, mine, calls, accepted);
      }
    }
  }

  // ---------------------------------------------------------------- the books

  /** Every counted edit is open, in flight, or has exactly one of the three ends. */
  ghost predicate Books(counted: set<Edit>, open: set<Edit>, flying: set<Edit>, written: set<Edit>,
                        rolledBack: set<Edit>, discarded: set<Edit>) {
    && (forall x :: x in counted <==>
          x in open || x in flying || x in written || x in rolledBack || x in discarded)
    && (forall x :: x in open || x in flying ==> x !in written && x !in rolledBack && x !in discarded)
    && (forall x :: x in written ==> x !in rolledBack && x !in discarded)
    && forall x :: x in rolledBack ==> x !in discarded
  }

  /** `edits` are the ones given and, besides, only edits that were written. */
  ghost predicate Carries(edits: set<Edit>, given: set<Edit>, written: set<Edit>) {
    given <= edits <= given + written
  }

  lemma CarriesExactly(edits: set<Edit>, given: set<Edit>, written: set<Edit>)
    requires Carries(edits, given, written) && forall x :: x in given ==> x !in written
    ensures edits - written == given
  {
  }

  lemma Counting(c: set<Edit>, o: set<Edit>, f: set<Edit>, w: set<Edit>, r: set<Edit>, d: set<Edit>, x: Edit)
    requires Books(c, o, f, w, r, d) && x !in c
    ensures Books(c + {x}, o + {x}, f, w, r, d)
  {
  }

  lemma Sending(c: set<Edit>, o: set<Edit>, w: set<Edit>, r: set<Edit>, d: set<Edit>)
    requires Books(c, o, {}, w, r, d)
    ensures Books(c, o, o, w, r, d)
  {
  }

  /** A payload was accepted; `o` are the edits still open afterwards. */
  lemma Landing(c: set<Edit>, o: set<Edit>, f: set<Edit>, w: set<Edit>, r: set<Edit>, d: set<Edit>, payload: set<Edit>)
    requires Books(c, o + f, f, w, r, d) && payload - w == f && forall x :: x in f ==> x !in o
    ensures Books(c, o, {}, w + payload, r, d)
  {
    assert forall x :: x in payload ==> x in w || x in payload - w;
    assert forall x :: x in f ==> x in payload;
  }

  lemma LandingLate(c: set<Edit>, o: set<Edit>, f: set<Edit>, w: set<Edit>, r: set<Edit>, d: set<Edit>,
                    payload: set<Edit>)
    requires Books(c, o, f, w, r, d) && payload - w == f && forall x :: x in f ==> x !in o
    ensures Books(c, o, {}, w + payload, r, d)
  {
    assert forall x :: x in payload ==> x in w || x in payload - w;
    assert forall x :: x in f ==> x in payload;
  }

  lemma Losing(c: set<Edit>, o: set<Edit>, f: set<Edit>, w: set<Edit>, r: set<Edit>, d: set<Edit>)
    requires Books(c, o, f, w, r, d) && forall x :: x in f ==> x !in o
    ensures Books(c, o, {}, w, r, d + f)
  {
  }

  lemma Grounding(c: set<Edit>, o: set<Edit>, f: set<Edit>, w: set<Edit>, r: set<Edit>, d: set<Edit>)
    requires Books(c, o, f, w, r, d) && f <= o
    ensures Books(c, o, {}, w, r, d)
  {
  }

  lemma RollingBack(c: set<Edit>, o: set<Edit>, w: set<Edit>, r: set<Edit>, d: set<Edit>)
    requires Books(c, o, {}, w, r, d)
    ensures Books(c, {}, {}, w, r + o, d)
  {
  }

  lemma Discarding(c: set<Edit>, o: set<Edit>, f: set<Edit>, w: set<Edit>, r: set<Edit>, d: set<Edit>)
    requires Books(c, o, f, w, r, d)
    ensures Books(c, {}, f, w, r, d + (o - f))
  {
  }

  // ---------------------------------------------------------------- what every run keeps

  /** The edits of the open draft that are not saved. */
  ghost function Unsettled(s: State): set<Edit> {
    if s.draft.Some? then Pending(s) else {}
  }

  ghost predicate SaverSound(s: State, w: Saver) {
    && w.session <= s.session
    && (w.Writing? ==> w.calls <= 2 * w.accepted + if w.retried then 2 else 1)
    && (w.Reloading? ==> w.calls <= 2 * w.accepted + 1)
    && (w.Writing? ==> OfSession(w.payload.edits, w.session))
    && (w.Writing? && Current(s, w.session) ==>
          && s.saved <= w.version <= s.change
          && Carries(w.payload.edits, Edits(s.session, s.saved, w.version), s.written))
  }

  ghost predicate OfSession(edits: set<Edit>, session: nat) {
    forall x :: x in edits ==> x.session == session
  }

  /** An open draft holds its unsaved edits; all others of its session were written or rolled back. */
  ghost predicate DraftSound(s: State) {
    s.draft.Some? ==>
      && s.known.Some? && s.saved <= s.change
      && Carries(s.draft.value.edits, Pending(s), s.written) && OfSession(s.draft.value.edits, s.session)
      && Edits(s.session, 0, s.saved) <= s.written + s.rolledBack
      && NumberedTo(s.counted, s.session, s.change)
  }

  ghost predicate NumberedTo(counted: set<Edit>, session: nat, change: nat) {
    forall x :: x in counted && x.session == session ==> x.number <= change
  }

  ghost predicate Known(counted: set<Edit>, session: nat) {
    forall x :: x in counted ==> x.session <= session
  }

  ghost predicate Ledger(s: State, flying: set<Edit>) {
    Books(s.counted, Unsettled(s), flying, s.written, s.rolledBack, s.discarded) && Known(s.counted, s.session)
  }

  ghost predicate WithinBudget(runs: seq<Run>) {
    forall k :: 0 <= k < |runs| ==> runs[k].calls <= 2 * runs[k].accepted + 2
  }

  /** The invariant: the lock is held exactly by one saver; unsaved edits keep it held; draft, saver and books
      are in order; runs stay within their budget. */
  ghost predicate Inv(s: State) {
    && |s.savers| == (if s.saving then 1 else 0)
    && (forall id :: id in s.savers ==> id < s.nextId && SaverSound(s, s.savers[id]))
    && (Unsaved(s) ==> s.saving)
    && DraftSound(s) && Ledger(s, InFlight(s)) && WithinBudget(s.runs)
  }

  /** Inv without the demand that unsaved edits have a saver, as it stands while one is leaving. */
  ghost predicate Quiet(s: State) {
    s.savers == map[] && !s.saving && DraftSound(s) && Ledger(s, {}) && WithinBudget(s.runs)
  }

  function Alone(s: State): State {
    s.(savers := map[], saving := false)
  }

  /** With one saver the edits in flight are those of its payload. */
  lemma FlightOf(s: State, id: nat, w: Saver)
    requires s.savers == map[id := w]
    ensures InFlight(s) == if w.Writing? then w.payload.edits - s.written else {}
  {
    assert forall k :: k in s.savers ==> k == id && s.savers[k] == w;
    assert id in s.savers;
  }

  lemma NoFlight(written: set<Edit>)
    ensures Flying(map[], written) == {}
  {
  }

  lemma OpenIsUnwritten(c: set<Edit>, o: set<Edit>, f: set<Edit>, w: set<Edit>, r: set<Edit>, d: set<Edit>)
    requires Books(c, o, f, w, r, d)
    ensures forall x :: x in o ==> x !in w
  {
  }

  /** A saver that has just copied the draft: what is open is in flight. */
  lemma Launched(s: State, r: State, id: nat, w: Saver)
    requires DraftSound(s) && Ledger(s, {}) && s.draft.Some? && w.Writing? && w.payload == s.draft.value
    requires w.session == s.session && w.version == s.change
    requires w.calls <= 2 * w.accepted + if w.retried then 2 else 1
    requires r == s.(savers := map[id := w], saving := true, nextId := r.nextId, runs := r.runs)
    ensures SaverSound(r, w) && Ledger(r, InFlight(r)) && DraftSound(r)
  {
    hide Books, Edits, Flying, Carries, OfSession;
    FlightOf(r, id, w);
    OpenIsUnwritten(s.counted, Unsettled(s), {}, s.written, s.rolledBack, s.discarded);
    CarriesExactly(s.draft.value.edits, Pending(s), s.written);
    Sending(s.counted, Unsettled(s), s.written, s.rolledBack, s.discarded);
  }

  lemma PersistRestores(s: State)
    requires Quiet(s)
    ensures Inv(Persist(s))
  {
    hide Books, Edits, Flying, Carries, OfSession, Known, NumberedTo;
    var r := Persist(s);
    if Unsaved(s) {
      var w := Writing(s.session, s.change, s.draft.value, false, 1, 0);
      assert r.savers == map[s.nextId := w];
      Launched(s, r, s.nextId, w);
    } else {
      NoFlight(r.written);
    }
  }

  lemma OnlySaver(s: State, id: nat)
    requires Inv(s) && id in s.savers
    ensures s.saving && s.savers == map[id := s.savers[id]] && s.savers - {id} == map[]
  {
    hide Books, Edits, Flying, Carries, SaverSound, DraftSound, Ledger, WithinBudget;
    var others := s.savers.Keys - {id};
    assert |others| == |s.savers.Keys| - 1 == 0;
    assert forall k :: k in s.savers ==> k == id;
  }

  lemma FinishRestores(s: State, id: nat, calls: nat, accepted: nat)
    requires s.savers - {id} == map[] && calls <= 2 * accepted + 2 && Quiet(Alone(s))
    ensures Inv(Finish(s, id, calls, accepted))
  {
    hide Books, Edits, Flying, Carries, OfSession, Known, NumberedTo, Persist, Inv;
    var r := s.(saving := false, savers := s.savers - {id}, runs := s.runs + [Run(calls, accepted)]);
    assert Quiet(r);
    PersistRestores(r);
  }

  lemma LoopRestores(s: State, id: nat, session: nat, retried: bool, calls: nat, accepted: nat)
    requires s.savers.Keys == {id} && s.savers - {id} == map[] && s.saving && id < s.nextId && session <= s.session
    requires calls <= 2 * accepted + if retried then 1 else 0
    requires Quiet(Alone(s))
    ensures Inv(LoopHead(s, id, session, retried, calls, accepted))
  {
    hide Books, Edits, Flying, Carries, OfSession, Known, NumberedTo, Finish;
    if Unsaved(s) && session == s.session {
      var w := Writing(session, s.change, s.draft.value, retried, calls + 1, accepted);
      var r := s.(savers := s.savers[id := w]);
      assert r.savers == map[id := w];
      Launched(Alone(s), r, id, w);
    } else {
      FinishRestores(s, id, calls, accepted);
    }
  }

  lemma RollBackIsQuiet(s: State, session: nat)
    requires Quiet(Alone(s))
    ensures Quiet(Alone(RollBack(s, session)))
  {
    if Current(s, session) {
      var r := RollBack(s, session);
      assert Pending(r) == {} && Edits(s.session, 0, s.change) == Edits(s.session, 0, s.saved) + Pending(s);
      hide Books, Edits;
      RollingBack(s.counted, Unsettled(s), s.written, s.rolledBack, s.discarded);
    }
  }

  /** Of a saver whose session is over nothing is open. */
  lemma OtherSession(s: State, w: Saver)
    requires w.Writing? && SaverSound(s, w) && !Current(s, w.session)
    ensures forall x :: x in w.payload.edits - s.written ==> x !in Unsettled(s)
  {
  }

  /** What the saver of the open session carries. */
  lemma SameSession(s: State, w: Saver)
    requires w.Writing? && SaverSound(s, w) && Current(s, w.session) && Ledger(s, w.payload.edits - s.written)
    ensures w.payload.edits - s.written == Edits(s.session, s.saved, w.version) <= Unsettled(s)
  {
    assert Edits(s.session, s.saved, w.version) <= Pending(s);
    hide Edits;
    OpenIsUnwritten(s.counted, Unsettled(s), w.payload.edits - s.written, s.written, s.rolledBack, s.discarded);
    CarriesExactly(w.payload.edits, Edits(s.session, s.saved, w.version), s.written);
  }

  /** Without its saver the state is quiet, once the edits that nobody holds any more are discarded. */
  lemma WithoutSaver(s: State, id: nat)
    requires Inv(s) && id in s.savers
    ensures Quiet(Alone(LoseStale(s, s.savers[id])))
  {
    hide Books, Edits, Flying, Carries, OfSession, Known, NumberedTo;
    var w := s.savers[id];
    OnlySaver(s, id);
    FlightOf(s, id, w);
    if w.Writing? {
      var flying := w.payload.edits - s.written;
      if Current(s, w.session) {
        SameSession(s, w);
        Grounding(s.counted, Unsettled(s), flying, s.written, s.rolledBack, s.discarded);
      } else {
        OtherSession(s, w);
        Losing(s.counted, Unsettled(s), flying, s.written, s.rolledBack, s.discarded);
      }
    }
  }

  lemma AcceptedKeeps(s: State, id: nat, revision: int)
    requires Inv(s) && id in s.savers && s.savers[id].Writing?
    ensures Inv(Resume(s, id, s.savers[id], Accepted(revision)))
  {
    hide Books, Edits, Flying, Carries, OfSession, Known, NumberedTo, Finish, LoopHead, Quiet, WithinBudget;
    hide DraftSound, Ledger;
    OnlySaver(s, id);
    var w := s.savers[id];
    FlightOf(s, id, w);
    var next := s.(known := Some(revision), written := s.written + w.payload.edits);
    if !Current(s, w.session) {
      LateIsQuiet(s, w, next);
      FinishRestores(next, id, w.calls, w.accepted + 1);
    } else {
      var later := next.(draft := Some(s.draft.value.(revision := revision)), saved := w.version);
      WrittenIsQuiet(s, w, later);
      LoopRestores(later, id, w.session, false, w.calls, w.accepted + 1);
    }
  }

  lemma LateIsQuiet(s: State, w: Saver, next: State)
    requires w.Writing? && SaverSound(s, w) && !Current(s, w.session) && DraftSound(s)
    requires Ledger(s, w.payload.edits - s.written) && WithinBudget(s.runs)
    requires next == s.(known := next.known, written := s.written + w.payload.edits) && next.known.Some?
    ensures Quiet(Alone(next))
  {
    hide Books, Edits;
    OtherSession(s, w);
    LandingLate(s.counted, Unsettled(s), w.payload.edits - s.written, s.written, s.rolledBack, s.discarded,
                w.payload.edits);
  }

  lemma WrittenIsQuiet(s: State, w: Saver, later: State)
    requires w.Writing? && SaverSound(s, w) && Current(s, w.session) && DraftSound(s)
    requires Ledger(s, w.payload.edits - s.written) && WithinBudget(s.runs)
    requires later == s.(known := later.known, written := s.written + w.payload.edits, draft := later.draft,
                         saved := w.version)
    requires later.known.Some? && later.draft == Some(s.draft.value.(revision := later.known.value))
    ensures Quiet(Alone(later))
  {
    var sent := Edits(s.session, s.saved, w.version);
    SameSession(s, w);
    assert Edits(s.session, 0, w.version) == Edits(s.session, 0, s.saved) + sent;
    assert Pending(s) == Pending(later) + sent;
    assert forall x :: x in sent ==> x !in Pending(later);
    hide Books, Edits;
    Landing(s.counted, Unsettled(later), sent, s.written, s.rolledBack, s.discarded, w.payload.edits);
  }

  lemma ConflictKeeps(s: State, id: nat)
    requires Inv(s) && id in s.savers && s.savers[id].Writing? && !s.savers[id].retried
    ensures Inv(Resume(s, id, s.savers[id], Conflict))
  {
    hide Books, Edits, Flying, Carries, OfSession, Known, NumberedTo;
    OnlySaver(s, id);
    WithoutSaver(s, id);
    var w := s.savers[id];
    var r := Resume(s, id, w, Conflict);
    assert r.savers == map[id := Reloading(w.session, w.calls, w.accepted)];
    FlightOf(r, id, r.savers[id]);
    var t := Alone(LoseStale(s, w));
    assert Unsettled(t) == Unsettled(r);
  }

  lemma ReloadedKeeps(s: State, id: nat, revision: int)
    requires Inv(s) && id in s.savers && s.savers[id].Reloading?
    ensures Inv(Resume(s, id, s.savers[id], Accepted(revision)))
  {
    hide Books, Edits, Flying, Carries, OfSession, Known, NumberedTo, LoopHead;
    OnlySaver(s, id);
    WithoutSaver(s, id);
    var w := s.savers[id];
    var next := s.(known := Some(revision));
    var later := if Current(s, w.session)
                 then next.(draft := Some(s.draft.value.(revision := revision))) else next;
    LoopRestores(later, id, w.session, true, w.calls, w.accepted);
  }

  lemma FailureKeeps(s: State, id: nat)
    requires Inv(s) && id in s.savers
    ensures var w := s.savers[id]; Inv(Finish(RollBack(LoseStale(s, w), w.session), id, w.calls, w.accepted))
  {
    hide Books, Edits, Flying, Carries, OfSession, Known, NumberedTo, Finish, Quiet;
    OnlySaver(s, id);
    WithoutSaver(s, id);
    var w := s.savers[id];
    RollBackIsQuiet(LoseStale(s, w), w.session);
    FinishRestores(RollBack(LoseStale(s, w), w.session), id, w.calls, w.accepted);
  }

  lemma ResumeKeeps(s: State, id: nat, reply: Reply)
    requires Inv(s) && id in s.savers
    ensures Inv(Resume(s, id, s.savers[id], reply))
  {
    hide Inv, Finish, LoopHead, RollBack;
    FailureKeeps(s, id);
    if s.savers[id].Writing? {
      if reply.Accepted? { AcceptedKeeps(s, id, reply.revision); }
      if reply.Conflict? && !s.savers[id].retried { ConflictKeeps(s, id); }
    } else if reply.Accepted? {
      ReloadedKeeps(s, id, reply.revision);
    }
  }

  /** A new edit, before a saver is started for it. */
  lemma EditIsCounted(s: State, t: State)
    requires s.draft.Some? && DraftSound(s) && Ledger(s, InFlight(s))
    requires t == s.(draft := Some(s.draft.value.(edits := s.draft.value.edits + {Edit(s.session, s.change + 1)})),
                     change := s.change + 1, counted := s.counted + {Edit(s.session, s.change + 1)})
    ensures DraftSound(t) && Ledger(t, InFlight(t)) && InFlight(t) == InFlight(s)
    ensures Edit(s.session, s.change + 1) !in s.counted
  {
    var edit := Edit(s.session, s.change + 1);
    assert Pending(t) == Pending(s) + {edit};
    hide Books, Edits, Flying;
    Counting(s.counted, Unsettled(s), InFlight(s), s.written, s.rolledBack, s.discarded, edit);
  }

  lemma ChangeKeeps(s: State)
    requires Inv(s)
    ensures Inv(Step(s, Change))
  {
    hide Books, Edits, Flying, Carries, OfSession, Known, NumberedTo;
    if s.draft.Some? {
      var edit := Edit(s.session, s.change + 1);
      var t := s.(draft := Some(s.draft.value.(edits := s.draft.value.edits + {edit})), change := s.change + 1,
                  counted := s.counted + {edit});
      EditIsCounted(s, t);
      if s.saving {
        assert Persist(t) == t;
      } else {
        assert s.savers == map[];
        NoFlight(t.written);
        PersistRestores(t);
      }
    }
  }

  /** The draft goes away; in flight stays in flight. */
  lemma EndKeeps(s: State)
    requires Inv(s)
    ensures Inv(EndSession(s)) && InFlight(EndSession(s)) == InFlight(s)
  {
    hide Books, Edits, Flying, Carries, OfSession, Known, NumberedTo;
    if s.draft.Some? {
      Discarding(s.counted, Unsettled(s), InFlight(s), s.written, s.rolledBack, s.discarded);
    }
  }

  lemma BeginKeeps(s: State)
    requires Inv(s) && s.known.Some?
    ensures Inv(Step(s, Begin)) && InFlight(Step(s, Begin)) == InFlight(s)
  {
    hide Books, Edits, Flying, Carries, OfSession;
    EndKeeps(s);
    FreshDraft(EndSession(s), Step(s, Begin));
  }

  /** A new session opens with an empty draft. */
  lemma FreshDraft(t: State, r: State)
    requires Inv(t) && t.draft.None? && r.draft.Some? && r.draft.value.edits == {} && r.known.Some?
    requires r == t.(session := t.session + 1, draft := r.draft, change := 0, saved := 0)
    ensures Inv(r) && InFlight(r) == InFlight(t)
  {
    assert Edits(r.session, 0, 0) == {};
    hide Books, Edits, Flying;
  }

  lemma StepKeeps(s: State, e: Event)
    requires Inv(s)
    ensures Inv(Step(s, e))
    ensures !e.Settle? && !e.Change? ==> InFlight(Step(s, e)) == InFlight(s)
  {
    hide Inv, Resume, Flying, Edits, Persist;
    EndKeeps(s);
    var r := Step(s, e);
    match e
    case Change => ChangeKeeps(s);
    case Settle(id, reply) => if id in s.savers { ResumeKeeps(s, id, reply); }
    case Begin => if s.known.Some? { BeginKeeps(s); } else { NoStateNoDraft(s); LaterKeeps(s, r); }
    case Close => if s.draft.Some? { LaterKeeps(EndSession(s), r); }
    case Lock => LaterKeeps(EndSession(s), r);
    case Drop =>
    case _ => StateApplied(s, r);
  }

  lemma NoStateNoDraft(s: State)
    requires Inv(s) && s.known.None?
    ensures s.draft.None?
  {
  }

  /** Without a draft neither the session number nor the loaded state matters. */
  lemma LaterKeeps(s: State, r: State)
    requires Inv(s) && s.draft.None? && s.session <= r.session && r == s.(session := r.session, known := r.known)
    ensures Inv(r) && InFlight(r) == InFlight(s)
  {
    hide Books, Edits, Flying, Carries, OfSession;
  }

  lemma StateApplied(s: State, r: State)
    requires Inv(s) && r.known.Some? && r.draft.Some? == s.draft.Some?
    requires r == s.(known := r.known, draft := r.draft)
    requires s.draft.Some? ==> r.draft.value.edits == s.draft.value.edits
    ensures Inv(r) && InFlight(r) == InFlight(s) && Unsettled(r) == Unsettled(s)
  {
    hide Books, Edits, Flying, Carries, OfSession, Known, NumberedTo;
  }

  /** What a reply changes: only the saver of the open session touches the draft. */
  lemma ReplyEffects(s: State, id: nat, reply: Reply)
    ensures var r := Step(s, Settle(id, reply));
            && r.counted == s.counted && r.session == s.session && r.change == s.change
            && (id in s.savers && s.savers[id].Writing? && reply.Accepted? ==>
                  r.written == s.written + s.savers[id].payload.edits)
            && (id in s.savers && !Current(s, s.savers[id].session) ==>
                  r.draft == s.draft && r.saved == s.saved && r.rolledBack == s.rolledBack)
  {
    hide Persist, Finish, LoopHead, Pending, InFlight;
  }

  lemma EarlierSessions(s: State)
    requires Inv(s)
    ensures forall x :: x in s.counted ==> x.session < s.session + 1
    ensures s.known.None? ==> s.draft.None?
  {
  }

  lemma SavedOrSaving(s: State)
    requires Inv(s)
    ensures s.draft.Some? && s.saved < s.change ==> s.saving
  {
  }

  lemma {:induction false} RunKeeps(events: seq<Event>)
    ensures Inv(After(events))
  {
    if events != [] {
      RunKeeps(events[..|events| - 1]);
      StepKeeps(After(events[..|events| - 1]), events[|events| - 1]);
    } else {
      NoFlight({});
    }
  }

  /** What an edit of an open draft does. */
  lemma ChangeEffects(s: State)
    requires Inv(s) && s.draft.Some?
    ensures var r := Step(s, Change);
            var edit := Edit(s.session, s.change + 1);
            && edit !in s.counted && r.counted == s.counted + {edit}
            && r.draft == Some(Draft(s.draft.value.revision, s.draft.value.edits + {edit}))
            && r.change == s.change + 1 && r.saved == s.saved && r.session == s.session && r.known == s.known
            && r.saving
            && if s.saving then r.savers == s.savers
               else Waits(r, s.nextId, Writing(r.session, r.change, r.draft.value, false, 1, 0))
  {
    NewEdit(s);
    hide Inv, Pending, Flying;
  }

  lemma NewEdit(s: State)
    requires Inv(s) && s.draft.Some?
    ensures Edit(s.session, s.change + 1) !in s.counted && s.saved <= s.change
    ensures s.saving || s.savers == map[]
  {
    hide Pending, Flying, Books, Edits;
  }

  // ---------------------------------------------------------------- the theorems

  /** In every interleaving: at most one settings request is in flight, and unsaved edits always
      have a saver at work. */
  lemma OneRequestAtATime(events: seq<Event>, a: nat, b: nat)
    ensures var s := After(events);
            && (a in s.savers && b in s.savers ==> a == b)
            && (Unsaved(s) ==> exists id :: id in s.savers)
  {
    var s := After(events);
    RunKeeps(events);
    if a in s.savers { OnlySaver(s, a); }
    if Unsaved(s) {
      assert s.savers != map[];
    }
  }

  function Count(fate: bool): nat { if fate then 1 else 0 }

  /** In every interleaving, every edit that was ever counted, in any session, has exactly one of five fates: it
      waits in the open draft, it is in flight, it was inside an accepted write, it was rolled back, or it
      was discarded with its session. */
  lemma EveryEditHasOneFate(events: seq<Event>, x: Edit)
    ensures var s := After(events);
            Count(x in Unsettled(s) - InFlight(s)) + Count(x in InFlight(s)) + Count(x in s.written)
            + Count(x in s.rolledBack) + Count(x in s.discarded) == Count(x in s.counted)
  {
    RunKeeps(events);
  }

  /** Once no saver is at work the open draft holds nothing unsaved and nothing is in flight: every edit
      ever counted was written, rolled back or discarded. */
  lemma NothingIsLeftWaiting(events: seq<Event>)
    requires !After(events).saving
    ensures var s := After(events); s.counted == s.written + s.rolledBack + s.discarded
  {
    var s := After(events);
    RunKeeps(events);
    assert s.savers == map[];
    assert InFlight(s) == {} && Unsettled(s) == {};
  }

  /** Written, rolled back and discarded are final, and nothing that was counted is forgotten. */
  lemma FatesAreFinal(s: State, e: Event)
    ensures var r := Step(s, e);
            && s.counted <= r.counted && s.written <= r.written
            && s.rolledBack <= r.rolledBack && s.discarded <= r.discarded
  {
    hide Persist, EndSession, Resume;
    EndGrows(s);
    if e.Settle? && e.id in s.savers { ReplyGrows(s, e.id, s.savers[e.id], e.reply); }
  }

  lemma EndGrows(s: State)
    ensures EndSession(s) == s.(draft := None, discarded := EndSession(s).discarded)
    ensures s.discarded <= EndSession(s).discarded
  {
    hide Pending, InFlight;
  }

  lemma ReplyGrows(s: State, id: nat, w: Saver, reply: Reply)
    ensures var r := Resume(s, id, w, reply);
            && s.counted <= r.counted && s.written <= r.written
            && s.rolledBack <= r.rolledBack && s.discarded <= r.discarded
  {
    hide Finish, LoopHead, Pending, Current;
  }

  /** The event takes an open draft away. */
  predicate Ends(s: State, e: Event) {
    s.draft.Some? && (e.Close? || e.Drop? || e.Lock? || (e.Begin? && s.known.Some?))
  }

  /** A request of the open session is under way that carries the edits up to `number`. */
  ghost predicate Sent(s: State, number: nat) {
    exists id :: id in s.savers && s.savers[id].Writing? && s.savers[id].session == s.session
                 && number <= s.savers[id].version
  }

  /** A request is refused after its session has ended. */
  predicate FailsLate(s: State, e: Event) {
    && e.Settle? && e.id in s.savers && s.savers[e.id].Writing? && !e.reply.Accepted?
    && !Current(s, s.savers[e.id].session)
  }

  /** Edit x is lost here: the session ends while x is numbered above what is saved or under way, or the
      request that carried x fails after its session has ended. */
  ghost predicate LosesAt(s: State, e: Event, x: Edit) {
    || (Ends(s, e) && x.session == s.session && s.saved < x.number <= s.change && !Sent(s, x.number))
    || (FailsLate(s, e) && x in s.savers[e.id].payload.edits && x !in s.written)
  }

  lemma LostHere(s: State, e: Event, x: Edit)
    requires Inv(s)
    ensures x in Step(s, e).discarded <==> x in s.discarded || LosesAt(s, e, x)
  {
    hide Persist, Finish, LoopHead, Flying;
    if Ends(s, e) && x in Pending(s) { FlightIsSent(s, x); }
  }

  lemma FlightIsSent(s: State, x: Edit)
    requires Inv(s) && x in Unsettled(s)
    ensures x in InFlight(s) <==> Sent(s, x.number)
  {
    if id :| id in s.savers && s.savers[id].Writing? && s.savers[id].session == s.session
             && x.number <= s.savers[id].version {
      assert SaverSound(s, s.savers[id]);
      assert x in Edits(s.session, s.saved, s.savers[id].version);
    }
    if x in InFlight(s) {
      var id :| id in s.savers && s.savers[id].Writing? && x in s.savers[id].payload.edits && x !in s.written;
      assert SaverSound(s, s.savers[id]);
    }
  }

  ghost predicate LostAt(events: seq<Event>, k: nat, x: Edit)
    requires k < |events|
  {
    LosesAt(After(events[..k]), events[k], x)
  }

  /** Over every run, exactly these edits are lost. */
  lemma {:induction false} LostIff(events: seq<Event>, x: Edit)
    ensures x in After(events).discarded <==> exists k: nat :: k < |events| && LostAt(events, k, x)
  {
    if events != [] {
      var n := |events| - 1;
      var front := events[..n];
      LostIff(front, x);
      RunKeeps(front);
      LostHere(After(front), events[n], x);
      forall k: nat | k < n ensures LostAt(front, k, x) <==> LostAt(events, k, x) {
        assert front[..k] == events[..k];
      }
      hide Inv, LosesAt, Step;
      assert LostAt(events, n, x) <==> LosesAt(After(front), events[n], x);
    }
  }

  /** Closing while a request is under way loses what was edited since: the second edit of this run is
      neither written nor rolled back, and no draft and no saver holds it. */
  lemma ClosingLosesAnEdit()
    ensures var s := After([Unlock(1), Begin, Change, Change, Close, Settle(0, Accepted(2))]);
            && s.draft.None? && s.savers == map[] && Edit(1, 2) in s.counted && Edit(1, 2) !in s.written
            && Edit(1, 2) !in s.rolledBack && Edit(1, 2) in s.discarded
  {
    var e1 := [Unlock(1)];
    var e2 := e1 + [Begin];
    var e3 := e2 + [Change];
    var e4 := e3 + [Change];
    var e5 := e4 + [Close];
    var w := Writing(1, 1, Draft(1, {Edit(1, 1)}), false, 1, 0);
    var s2 := START.(known := Some(1), session := 1, draft := Some(Draft(1, {})));
    var s3 := s2.(draft := Some(Draft(1, {Edit(1, 1)})), change := 1, counted := {Edit(1, 1)}, saving := true,
                  savers := map[0 := w], nextId := 1);
    var s4 := s3.(draft := Some(Draft(1, {Edit(1, 1), Edit(1, 2)})), change := 2, counted := {Edit(1, 1), Edit(1, 2)});
    assert After([]) == START;
    assert e1 == [] + [Unlock(1)] && e5 + [Settle(0, Accepted(2))] ==
           [Unlock(1), Begin, Change, Change, Close, Settle(0, Accepted(2))];
    hide After;
    Appended([], Unlock(1));
    Appended(e1, Begin);
    Appended(e2, Change);
    Appended(e3, Change);
    Appended(e4, Close);
    Appended(e5, Settle(0, Accepted(2)));
    FirstEdit(s2, s3, w);
    SecondEdit(s3, s4, w);
    ClosedInFlight(s4, w);
  }

  lemma FirstEdit(s2: State, s3: State, w: Saver)
    requires w == Writing(1, 1, Draft(1, {Edit(1, 1)}), false, 1, 0)
    requires s2 == START.(known := Some(1), session := 1, draft := Some(Draft(1, {})))
    requires s3 == s2.(draft := Some(Draft(1, {Edit(1, 1)})), change := 1, counted := {Edit(1, 1)}, saving := true,
                       savers := map[0 := w], nextId := 1)
    ensures Step(START.(known := Some(1)), Begin) == s2 && Step(s2, Change) == s3
  {
    assert {} + {Edit(1, 1)} == {Edit(1, 1)};
  }

  lemma SecondEdit(s3: State, s4: State, w: Saver)
    requires s3.draft == Some(Draft(1, {Edit(1, 1)})) && s3.session == 1 && s3.change == 1 && s3.saving
    requires s3.counted == {Edit(1, 1)} && w.Writing?
    requires s4 == s3.(draft := Some(Draft(1, {Edit(1, 1), Edit(1, 2)})), change := 2,
                       counted := {Edit(1, 1), Edit(1, 2)})
    ensures Step(s3, Change) == s4
  {
    assert {Edit(1, 1)} + {Edit(1, 2)} == {Edit(1, 1), Edit(1, 2)};
  }

  lemma ClosedInFlight(s: State, w: Saver)
    requires w == Writing(1, 1, Draft(1, {Edit(1, 1)}), false, 1, 0) && s.savers == map[0 := w]
    requires s.draft.Some? && s.session == 1 && s.change == 2 && s.saved == 0 && s.written == {}
    requires s.rolledBack == {}
    ensures var r := Step(Step(s, Close), Settle(0, Accepted(2)));
            && r.draft.None? && r.savers == map[] && r.counted == s.counted && r.written == {Edit(1, 1)}
            && r.rolledBack == {} && Edit(1, 2) in r.discarded
  {
    FlightOf(s, 0, w);
    assert Edit(1, 2) in Pending(s) && Edit(1, 2) !in InFlight(s);
  }

  lemma Appended(events: seq<Event>, e: Event)
    ensures After(events + [e]) == Step(After(events), e)
  {
    assert (events + [e])[..|events|] == events;
  }

  /** In every interleaving: one saver run makes at most two settings requests for each accepted
      one, and two more. */
  lemma RunsStayInBudget(events: seq<Event>)
    ensures forall k :: 0 <= k < |After(events).runs| ==>
              After(events).runs[k].calls <= 2 * After(events).runs[k].accepted + 2
    ensures forall id :: id in After(events).savers ==>
              After(events).savers[id].calls <= 2 * After(events).savers[id].accepted + 2
  {
    RunKeeps(events);
  }

  /** A saver of another session never touches the draft, nor what counts as saved. */
  lemma StaleSaverIsHarmless(s: State, id: nat, reply: Reply)
    requires id in s.savers && s.savers[id].session != s.session
    ensures var r := Step(s, Settle(id, reply));
            r.draft == s.draft && r.saved == s.saved && r.change == s.change && r.session == s.session
            && r.rolledBack == s.rolledBack
  {
  }

  /** A closed or replaced draft leaves its saver stale: sessions never come back. */
  lemma SessionsNeverReturn(s: State, e: Event)
    ensures s.session <= Step(s, e).session
    ensures e.Begin? || (e.Close? && s.draft.Some?) ==> s.session < Step(s, e).session
  {
  }

  /** Only an accepted write of the current session, or a rollback, moves the mark of what is saved. */
  lemma SavedMovesOnlyByReply(s: State, e: Event)
    requires Inv(s) && Step(s, e).saved != s.saved && !e.Begin?
    ensures e.Settle? && e.id in s.savers && s.savers[e.id].session == s.session && s.draft.Some?
    ensures e.reply.Accepted? ==> s.savers[e.id].Writing? && Step(s, e).saved == s.savers[e.id].version
    ensures !e.reply.Accepted? ==> Step(s, e).saved == s.change && Pending(s) <= Step(s, e).rolledBack
  {
  }

  /** After a conflict and the reload a second request is sent exactly if the session is still open and edits
      are unsaved. It overwrites the other writer: the payload is the whole draft again, under the revision
      just read, whatever that state contains. */
  lemma ConflictRetryOverwrites(s: State, id: nat, revision: int)
    requires Inv(s) && id in s.savers && s.savers[id].Writing? && !s.savers[id].retried
    ensures var r := Step(Step(s, Settle(id, Conflict)), Settle(id, Accepted(revision)));
            && (id in r.savers <==> Unsaved(s) && s.savers[id].session == s.session)
            && (id in r.savers ==>
                  r.savers[id].Writing? && r.savers[id].version == s.change
                  && r.savers[id].payload == s.draft.value.(revision := revision))
  {
    OnlySaver(s, id);
  }
}
