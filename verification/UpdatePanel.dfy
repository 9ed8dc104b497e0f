/** Planning and applying an update from the panel. Requests wait in a queue in the order in which they
    were sent; each entry is the continuation of the call that awaits it. */
module UpdatePanel {
  import opened Collections
  import opened Wrappers

  /** A status that passed its validator. `owned` is the job it refers to, if any. */
  datatype Status = Status(routerId: string, revision: nat, busy: bool, legacy: bool, owned: Option<string>)

  /** Plans and jobs as they arrive; `sound` stands for the checks on their own fields. */
  datatype Plan = Plan(planId: string, routerId: string, revision: nat, sound: bool)
  datatype Job = Job(planId: Option<string>, isCheck: bool, routerId: string, sound: bool)

  datatype Action = Check | MakePlan | Settings | Apply(planId: string)

  datatype Call =
    | OpenStatus(sequence: nat, scope: nat)
    | OpenJob(sequence: nat, scope: nat, status: Status)
    | Act(action: Action, sequence: nat, scope: nat, previous: Status)

  datatype Reply = StatusReply(status: Status) | JobReply(job: Job) | PlanReply(plan: Plan) | Failure

  datatype Event =
    | Open | Close | ScopeChange
    | Press(action: Action)       // check, plan or settings
    | PressApply
    | Settle(index: nat, reply: Reply)

  datatype State = State(
    sequence: nat, scope: nat, current: Option<Status>, plan: Option<Plan>, job: Option<Job>,
    pending: bool, uncertain: bool, queue: seq<Call>, submitted: seq<string>)

  const START := State(0, 0, None, None, None, false, false, [], [])

  // ---------------------------------------------------------------- acceptance

  predicate AcceptsPlan(p: Plan, status: Status) {
    p.sound && p.routerId == status.routerId && p.revision == status.revision
  }

  predicate AcceptsJob(j: Job, routerId: string) {
    j.sound && j.routerId == routerId
  }

  predicate Fresh(s: State, c: Call) {
    c.sequence == s.sequence && c.scope == s.scope
  }

  // ---------------------------------------------------------------- the protocol as a function

  function OpenPanel(s: State): State {
    s.(sequence := s.sequence + 1, queue := s.queue + [OpenStatus(s.sequence + 1, s.scope)])
  }

  function Start(s: State, action: Action): State {
    if s.current.None? || s.pending || (s.uncertain && !action.Settings?) then s
    else if (action.MakePlan? || action.Apply?) && (s.current.value.legacy || s.current.value.busy)
    then s.(plan := None)
    else s.(pending := true, queue := s.queue + [Call.Act(action, s.sequence, s.scope, s.current.value)],
            submitted := if action.Apply? then s.submitted + [action.planId] else s.submitted)
  }

  function Step(s: State, e: Event): State {
    match e
    case Open => OpenPanel(s)
    case Close => s.(sequence := s.sequence + 1, plan := None, pending := false)
    case ScopeChange => s.(scope := s.scope + 1)
    case Press(action) => if action.Apply? then s else Start(s, action)
    case PressApply =>
      if s.plan.None? || s.pending || s.uncertain then s else Start(s, Apply(s.plan.value.planId))
    case Settle(index, reply) =>
      if index < |s.queue|
      then Resume(s.(queue := s.queue[..index] + s.queue[index + 1..]), s.queue[index], reply) else s
  }

  function Resume(s: State, c: Call, reply: Reply): State {
    match c
    case OpenStatus(sequence, scope) =>
      if !Fresh(s, c) then s
      else if reply.StatusReply? then
        var next := s.(current := Some(reply.status), plan := None);
        if reply.status.owned.Some?
        then next.(queue := s.queue + [OpenJob(sequence, scope, reply.status)])
        else next.(job := None, uncertain := false)
      else s.(current := None)
    case OpenJob(sequence, scope, status) =>
      if reply.JobReply? && AcceptsJob(reply.job, status.routerId) then
        var next := s.(job := Some(reply.job));  // assigned before the freshness test
        if Fresh(s, c) then next.(uncertain := false) else next
      else if Fresh(s, c) then s.(current := None) else s
    case Act(action, sequence, scope, previous) =>
      if !Fresh(s, c) then s else Finish(s.(pending := false), action, previous, reply)
  }

  /** What a fresh reply to an action does; the caller has already taken `pending` back. */
  function Finish(s: State, action: Action, previous: Status, reply: Reply): State {
    match action
    case Settings => if reply.StatusReply? then s.(current := Some(reply.status)) else s
    case MakePlan =>
      if reply.PlanReply? && AcceptsPlan(reply.plan, previous) then s.(plan := Some(reply.plan)) else s
    case Check =>
      if reply.JobReply? && AcceptsJob(reply.job, previous.routerId) && reply.job.isCheck
      then OpenPanel(s.(job := Some(reply.job), plan := None)) else s.(uncertain := true)
    case Apply(_) =>
      if reply.JobReply? && AcceptsJob(reply.job, previous.routerId)
         && s.plan.Some? && reply.job.planId == Some(s.plan.value.planId)
      then OpenPanel(s.(job := Some(reply.job), plan := None)) else s.(uncertain := true)
  }

  // ---------------------------------------------------------------- what a press and a reply do

  /** An action is sent with the status it was pressed under, unless there is none, another is under way, or the panel
      is in doubt and it is not a settings change; a plan or an apply that the status rules out drops the plan. */
  ghost predicate Pressed(s: State, action: Action, r: State) {
    if s.current.None? || s.pending || (s.uncertain && !action.Settings?) then r == s
    else if (action.MakePlan? || action.Apply?) && (s.current.value.legacy || s.current.value.busy) then
      r == s.(plan := None)
    else
      r == s.(pending := true, submitted := r.submitted,
              queue := s.queue + [Call.Act(action, s.sequence, s.scope, s.current.value)])
      && r.submitted == s.submitted + if action.Apply? then [action.planId] else []
  }

  /** The status read of an opening: it drops the plan, and without a job of its own it settles the doubt; otherwise
      the job is read next. */
  ghost predicate StatusRead(s: State, reply: Reply, r: State) {
    if !reply.StatusReply? then r == s.(current := None)
    else if reply.status.owned.None?
    then r == s.(current := Some(reply.status), plan := None, job := None, uncertain := false)
    else r == s.(current := Some(reply.status), plan := None,
                 queue := s.queue + [OpenJob(s.sequence, s.scope, reply.status)])
  }

  /** The job read of an opening settles the doubt and leaves the plan alone. */
  ghost predicate JobRead(s: State, status: Status, reply: Reply, r: State) {
    if reply.JobReply? && reply.job.sound && reply.job.routerId == status.routerId
    then r == s.(job := Some(reply.job), uncertain := false)
    else r == s.(current := None)
  }

  /** The answer to an action: settings show the new status, a plan that fits is in hand, and a check or an apply
      either was accepted for what was asked, and the panel opens again without the plan, or is in doubt. */
  ghost predicate ActionAnswered(s: State, action: Action, previous: Status, reply: Reply, r: State) {
    match action
    case Settings => r == s.(pending := false, current := if reply.StatusReply? then Some(reply.status) else s.current)
    case MakePlan =>
      var fits := reply.PlanReply? && reply.plan.sound && reply.plan.routerId == previous.routerId
                  && reply.plan.revision == previous.revision;
      r == s.(pending := false, plan := if fits then Some(reply.plan) else s.plan)
    case Check => WriteAnswered(s, previous, reply, reply.JobReply? && reply.job.isCheck, r)
    case Apply(_) =>
      WriteAnswered(s, previous, reply,
                    reply.JobReply? && s.plan.Some? && reply.job.planId == Some(s.plan.value.planId), r)
  }

  ghost predicate WriteAnswered(s: State, previous: Status, reply: Reply, asked: bool, r: State) {
    if asked && reply.JobReply? && reply.job.sound && reply.job.routerId == previous.routerId
    then r == s.(pending := false, job := Some(reply.job), plan := None, sequence := s.sequence + 1,
                 queue := s.queue + [OpenStatus(s.sequence + 1, s.scope)])
    else r == s.(pending := false, uncertain := true)
  }

  /** What a reply to entry `index` of the queue does. A reply of another sequence or scope at most shows a job. */
  ghost predicate Answered(s: State, index: nat, reply: Reply, r: State)
    requires index < |s.queue|
  {
    var c := s.queue[index];
    var t := s.(queue := s.queue[..index] + s.queue[index + 1..]);
    if c.sequence != s.sequence || c.scope != s.scope then
      r == if c.OpenJob? && reply.JobReply? && reply.job.sound && reply.job.routerId == c.status.routerId
           then t.(job := Some(reply.job)) else t
    else
      match c
      case OpenStatus(_, _) => StatusRead(t, reply, r)
      case OpenJob(_, _, status) => JobRead(t, status, reply, r)
      case Act(action, _, _, previous) => ActionAnswered(t, action, previous, reply, r)
  }

  lemma ReplyIsAnswered(s: State, index: nat, reply: Reply)
    ensures var r := Step(s, Settle(index, reply)); if index < |s.queue| then Answered(s, index, reply, r) else r == s
  {
  }

  // ---------------------------------------------------------------- the same protocol as the code runs it

  class Panel {
    var sequence: nat
    var scope: nat
    var current: Option<Status>
    var plan: Option<Plan>
    var job: Option<Job>
    var pending: bool
    var uncertain: bool
    var queue: seq<Call>
    ghost var submitted: seq<string>

    ghost function Now(): State
      reads this
    {
      State(sequence, scope, current, plan, job, pending, uncertain, queue, submitted)
    }

    /** A submitted plan still in hand keeps the panel uncertain, or pending on that submission. */
    ghost predicate Valid()
      reads this
    {
      Inv(Now())
    }

    constructor ()
      ensures Valid() && Now() == START
    {
      sequence, scope, current, plan, job := 0, 0, None, None, None;
      pending, uncertain, queue, submitted := false, false, [], [];
    }

    /** Closing outdates every request under way and drops the plan, but never the doubt. */
    method ClosePanel()
      requires Valid()
      modifies this
      ensures Valid() && Now() == Step(old(Now()), Close)
      ensures Now() == old(Now()).(sequence := old(sequence) + 1, plan := None, pending := false)
      ensures forall i :: 0 <= i < |queue| ==> !Fresh(Now(), queue[i])
    {
      StepKeeps(Now(), Close);
      sequence := sequence + 1;
      plan := None;
      pending := false;
    }

    /** Nor is anything fresh once the scope has changed; the doubt stays. */
    method ChangeScope()
      requires Valid()
      modifies this
      ensures Valid() && Now() == Step(old(Now()), ScopeChange)
      ensures Now() == old(Now()).(scope := old(scope) + 1)
      ensures forall i :: 0 <= i < |queue| ==> !Fresh(Now(), queue[i])
    {
      StepKeeps(Now(), ScopeChange);
      scope := scope + 1;
    }

    /** Opening asks for the status; of all requests under way only this one is fresh. */
    method Reopen()
      requires Valid()
      modifies this
      ensures Valid() && Now() == Step(old(Now()), Open)
      ensures Now() == old(Now()).(sequence := old(sequence) + 1, queue := old(queue) + [OpenStatus(sequence, scope)])
      ensures forall i :: 0 <= i < |queue| && Fresh(Now(), queue[i]) ==> i == |queue| - 1 && queue[i].OpenStatus?
    {
      StepKeeps(Now(), Open);
      OpenUpdates();
    }

    method OpenUpdates()
      modifies this
      ensures Now() == OpenPanel(old(Now()))
    {
      sequence := sequence + 1;
      queue := queue + [OpenStatus(sequence, scope)];
    }

    method StartAction(action: Action)
      modifies this
      ensures Now() == Start(old(Now()), action)
    {
      if current.None? || pending || (uncertain && action != Settings) { return; }
      var previous := current.value;
      if (action.MakePlan? || action.Apply?) && (previous.legacy || previous.busy) {
        plan := None;
        return;
      }
      pending := true;
      queue := queue + [Call.Act(action, sequence, scope, previous)];
      if action.Apply? { submitted := submitted + [action.planId]; }
    }

    /** A check, a plan or a settings change: submits nothing, and while in doubt only settings are sent. */
    method Act(action: Action)
      requires Valid() && !action.Apply?
      modifies this
      ensures Valid() && Now() == Step(old(Now()), Press(action)) && Pressed(old(Now()), action, Now())
      ensures submitted == old(submitted) && uncertain == old(uncertain)
      ensures queue != old(queue) ==>
                && !old(pending) && pending && old(current).Some? && (old(uncertain) ==> action.Settings?)
                && queue == old(queue) + [Call.Act(action, sequence, scope, old(current).value)]
    {
      StepKeeps(Now(), Press(action));
      StartAction(action);
    }

    /** Apply submits the plan in hand, once: neither pending nor in doubt, and an id never submitted before. */
    method ApplyPlan()
      requires Valid()
      modifies this
      ensures Valid() && Now() == Step(old(Now()), PressApply)
      ensures if old(plan).None? || old(pending) || old(uncertain) then Now() == old(Now())
              else Pressed(old(Now()), Apply(old(plan).value.planId), Now())
      ensures submitted != old(submitted) ==>
                && old(plan).Some? && !old(pending) && !old(uncertain) && pending
                && old(plan).value.planId !in old(submitted)
                && submitted == old(submitted) + [old(plan).value.planId]
    {
      StepKeeps(Now(), PressApply);
      if plan.None? || pending || uncertain { return; }
      StartAction(Apply(plan.value.planId));
    }

    /** A reply in any order, as long as plan ids are new and it does not clear the doubt about a submitted
        plan. An outdated one changes neither status, plan nor doubt; none submits anything. */
    method OnReply(index: nat, reply: Reply)
      requires Valid() && NewId(Now(), Settle(index, reply)) && !Clears(Now(), Settle(index, reply))
      modifies this
      ensures Valid() && Now() == Step(old(Now()), Settle(index, reply))
      ensures if index < |old(queue)| then Answered(old(Now()), index, reply, Now()) else Now() == old(Now())
      ensures submitted == old(submitted)
      ensures index < |old(queue)| && !Fresh(old(Now()), old(queue)[index]) ==>
                current == old(current) && plan == old(plan) && uncertain == old(uncertain) && pending == old(pending)
      ensures old(uncertain) && !uncertain ==> !Spent(Now())
    {
      hide Inv, Clears, Spent, NewId, Step, Distinct, Answered;
      StepKeeps(Now(), Settle(index, reply));
      DoubtClearsByReading(Now(), Settle(index, reply));
      StaleRepliesAreIgnored(Now(), index, reply);
      SubmitsNothing(Now(), index, reply);
      ReplyIsAnswered(Now(), index, reply);
      Continue(index, reply);
    }

    method Continue(index: nat, reply: Reply)
      modifies this
      ensures Now() == Step(old(Now()), Settle(index, reply))
    {
      if index >= |queue| { return; }
      var call := queue[index];
      queue := queue[..index] + queue[index + 1..];
      var isFresh := call.sequence == sequence && call.scope == scope;
      match call {
        case OpenStatus(mine, where) =>
          if !isFresh { return; }
          if reply.StatusReply? {
            current := Some(reply.status);
            plan := None;
            if reply.status.owned.Some? {
              queue := queue + [OpenJob(mine, where, reply.status)];
            } else {
              job := None;
              uncertain := false;
            }
          } else {
            current := None;
          }
        case OpenJob(_, _, status) =>
          if reply.JobReply? && AcceptsJob(reply.job, status.routerId) {
            job := Some(reply.job);
            if isFresh { uncertain := false; }
          } else if isFresh {
            current := None;
          }
        case Act(action, _, _, previous) =>
          if !isFresh { return; }
          pending := false;
          match action {
            case Settings => if reply.StatusReply? { current := Some(reply.status); }
            case MakePlan =>
              if reply.PlanReply? && AcceptsPlan(reply.plan, previous) { plan := Some(reply.plan); }
            case Check =>
              if reply.JobReply? && AcceptsJob(reply.job, previous.routerId) && reply.job.isCheck {
                job, plan := Some(reply.job), None;
                OpenUpdates();
              } else {
                uncertain := true;
              }
            case Apply(_) =>
              if reply.JobReply? && AcceptsJob(reply.job, previous.routerId)
                 && plan.Some? && reply.job.planId == Some(plan.value.planId) {
                job, plan := Some(reply.job), None;
                OpenUpdates();
              } else {
                uncertain := true;
              }
          }
      }
    }
  }

  // ---------------------------------------------------------------- the invariant, replies in any order

  /** The plan in hand has already been submitted. */
  predicate Spent(s: State) {
    s.plan.Some? && s.plan.value.planId in s.submitted
  }

  ghost predicate FreshActAt(s: State, i: int) {
    0 <= i < |s.queue| && s.queue[i].Act? && Fresh(s, s.queue[i])
  }

  ghost predicate FreshJobAt(s: State, i: int) {
    0 <= i < |s.queue| && s.queue[i].OpenJob? && Fresh(s, s.queue[i])
  }

  ghost predicate Queued(s: State) {
    && (forall i :: 0 <= i < |s.queue| ==> s.queue[i].sequence <= s.sequence && s.queue[i].scope <= s.scope)
    && (forall i :: FreshActAt(s, i) ==> s.pending)
    && forall i, j :: FreshActAt(s, i) && FreshActAt(s, j) ==> i == j
  }

  /** The submission is under way, or it was overtaken and the panel stays blocked until it is closed. */
  ghost predicate Awaited(s: State) {
    s.pending && forall i :: FreshActAt(s, i) ==> s.queue[i].action.Apply?
  }

  ghost predicate Inv(s: State) {
    Queued(s) && Distinct(s.submitted) && (Spent(s) ==> s.uncertain || Awaited(s))
  }

  /** A new plan never reuses the id of a plan that has been submitted. */
  predicate NewId(s: State, e: Event) {
    e.Settle? && e.reply.PlanReply? ==> e.reply.plan.planId !in s.submitted
  }

  /** A job read that is still heeded succeeds while a submitted plan is in doubt. */
  predicate Clears(s: State, e: Event) {
    && Spent(s) && s.uncertain && e.Settle? && e.index < |s.queue| && e.reply.JobReply?
    && s.queue[e.index].OpenJob? && Fresh(s, s.queue[e.index])
    && AcceptsJob(e.reply.job, s.queue[e.index].status.routerId)
  }

  /** Where entry i of a queue without entry `index` stood before. */
  function Before(i: int, index: int): int {
    if i < index then i else i + 1
  }

  /** The queue without one entry: what is fresh keeps its place or moves one forward. */
  lemma Removed(s: State, t: State, index: nat)
    requires Queued(s) && index < |s.queue| && t == s.(queue := s.queue[..index] + s.queue[index + 1..])
    ensures Queued(t) && (FreshActAt(s, index) ==> forall i :: !FreshActAt(t, i))
    ensures forall i :: FreshActAt(t, i) ==> FreshActAt(s, Before(i, index)) && t.queue[i] == s.queue[Before(i, index)]
    ensures forall i :: FreshJobAt(t, i) ==> FreshJobAt(s, Before(i, index))
    ensures Awaited(s) ==> Awaited(t)
  {
    assert forall i :: 0 <= i < |t.queue| ==> t.queue[i] == s.queue[Before(i, index)];
    forall i | FreshActAt(t, i) ensures FreshActAt(s, Before(i, index)) && Before(i, index) != index {
      assert t.queue[i] == s.queue[Before(i, index)];
    }
    forall i | FreshJobAt(t, i) ensures FreshJobAt(s, Before(i, index)) {
      assert t.queue[i] == s.queue[Before(i, index)];
    }
    forall i, j | FreshActAt(t, i) && FreshActAt(t, j) ensures i == j {
      assert Before(i, index) == Before(j, index);
    }
  }

  lemma SameQueue(a: State, b: State)
    requires a.queue == b.queue && a.sequence == b.sequence && a.scope == b.scope
    ensures forall i :: FreshActAt(a, i) <==> FreshActAt(b, i)
    ensures a.pending == b.pending ==> (Queued(a) ==> Queued(b)) && (Awaited(a) ==> Awaited(b))
  {
  }

  lemma OpenKeeps(s: State)
    requires Inv(s)
    ensures Inv(OpenPanel(s)) && forall i :: !FreshActAt(OpenPanel(s), i)
  {
    var r := OpenPanel(s);
    assert forall i :: 0 <= i < |s.queue| ==> r.queue[i] == s.queue[i];
  }

  lemma StartKeeps(s: State, action: Action)
    requires Inv(s) && (action.Apply? ==> !s.uncertain && s.plan.Some? && action.planId == s.plan.value.planId)
    ensures Inv(Start(s, action))
  {
    var r := Start(s, action);
    if r.queue == s.queue {
      SameQueue(s, r);
    } else {
      var n := |s.queue|;
      assert forall i :: 0 <= i < n ==> r.queue[i] == s.queue[i];
      assert forall i :: FreshActAt(r, i) && i != n ==> FreshActAt(s, i);
    }
  }

  lemma ReadKeeps(s: State, t: State, index: nat, reply: Reply)
    requires Inv(s) && index < |s.queue| && t == s.(queue := s.queue[..index] + s.queue[index + 1..])
    requires !s.queue[index].Act? && !Clears(s, Settle(index, reply))
    ensures Inv(Resume(t, s.queue[index], reply))
  {
    hide Distinct;
    Removed(s, t, index);
    var r := Resume(t, s.queue[index], reply);
    assert forall i :: 0 <= i < |t.queue| ==> r.queue[i] == t.queue[i];
    assert forall i :: FreshActAt(r, i) <==> FreshActAt(t, i);
  }

  lemma ActKeeps(s: State, t: State, index: nat, reply: Reply)
    requires Inv(s) && index < |s.queue| && t == s.(queue := s.queue[..index] + s.queue[index + 1..])
    requires s.queue[index].Act? && NewId(s, Settle(index, reply))
    ensures Inv(Resume(t, s.queue[index], reply))
  {
    hide Distinct;
    Removed(s, t, index);
    var c := s.queue[index];
    if Fresh(s, c) {
      assert FreshActAt(s, index);
      var u := t.(pending := false);
      SameQueue(t, u);
      assert Queued(u);
      var open := u.(job := if reply.JobReply? then Some(reply.job) else u.job, plan := None);
      SameQueue(u, open);
      OpenKeeps(open);
      var r := Resume(t, c, reply);
      if r.queue == u.queue { SameQueue(u, r); }
    }
  }

  /** Once the panel is closed or the scope has changed, nothing in the queue is fresh. */
  lemma LeavingKeeps(s: State, r: State)
    requires Inv(s) && (r == Step(s, Close) || r == Step(s, ScopeChange))
    ensures Inv(r) && forall i :: 0 <= i < |r.queue| ==> !Fresh(r, r.queue[i])
  {
    assert forall i :: !FreshActAt(r, i);
  }

  lemma StepKeeps(s: State, e: Event)
    requires Inv(s) && NewId(s, e) && !Clears(s, e)
    ensures Inv(Step(s, e))
    ensures e.Close? || e.ScopeChange? ==> forall i :: 0 <= i < |s.queue| ==> !Fresh(Step(s, e), s.queue[i])
  {
    hide Inv, Resume, Start, OpenPanel;
    match e
    case Open => OpenKeeps(s);
    case Close => LeavingKeeps(s, Step(s, e));
    case ScopeChange => LeavingKeeps(s, Step(s, e));
    case Press(action) => if !action.Apply? { StartKeeps(s, action); }
    case PressApply => if s.plan.Some? && !s.pending && !s.uncertain { StartKeeps(s, Apply(s.plan.value.planId)); }
    case Settle(index, reply) =>
      if index < |s.queue| {
        var t := s.(queue := s.queue[..index] + s.queue[index + 1..]);
        if s.queue[index].Act? { ActKeeps(s, t, index, reply); } else { ReadKeeps(s, t, index, reply); }
      }
  }

  // ---------------------------------------------------------------- runs

  ghost function After(events: seq<Event>): State {
    if events == [] then START else Step(After(events[..|events| - 1]), events[|events| - 1])
  }

  /** Replies in any order, with new plan ids; no job read clears the doubt about a submitted plan. */
  ghost predicate Undeceived(events: seq<Event>) {
    events == [] ||
    (var front := events[..|events| - 1];
     var e := events[|events| - 1];
     Undeceived(front) && NewId(After(front), e) && !Clears(After(front), e))
  }

  lemma {:induction false} RunKeeps(events: seq<Event>)
    requires Undeceived(events)
    ensures Inv(After(events))
  {
    hide Step, NewId, Clears;
    if events != [] {
      RunKeeps(events[..|events| - 1]);
      StepKeeps(After(events[..|events| - 1]), events[|events| - 1]);
    } else {
      EmptyPanel();
    }
  }

  lemma EmptyPanel()
    ensures Inv(START)
  {
  }

  // ---------------------------------------------------------------- the theorems

  /** With replies in any order: as long as no heeded job read clears the doubt about a submitted plan, no plan
      is applied twice, and a submitted plan still in hand keeps the panel pending or uncertain. */
  lemma AppliedAtMostOnce(events: seq<Event>)
    requires Undeceived(events)
    ensures Distinct(After(events).submitted)
    ensures Spent(After(events)) ==> After(events).pending || After(events).uncertain
  {
    hide Step, NewId, Clears, Distinct;
    RunKeeps(events);
    Guarded(After(events));
  }

  lemma Guarded(s: State)
    requires Inv(s)
    ensures Distinct(s.submitted) && (Spent(s) ==> s.pending || s.uncertain)
  {
  }

  /** While a submitted plan is in doubt, exactly these events leave it in hand without the doubt. */
  lemma ClearedIff(s: State, e: Event)
    requires Spent(s) && s.uncertain
    ensures Spent(Step(s, e)) && !Step(s, e).uncertain <==> Clears(s, e)
  {
  }

  /** What is then at stake: apply submits a second time exactly if a submitted plan is in hand and nothing
      else holds the panel back. */
  lemma SecondSubmissionIff(s: State)
    requires Distinct(s.submitted)
    ensures !Distinct(Step(s, PressApply).submitted) <==>
            && Spent(s) && !s.pending && !s.uncertain
            && s.current.Some? && !s.current.value.legacy && !s.current.value.busy
  {
    if s.plan.Some? {
      var id := s.plan.value.planId;
      if id in s.submitted {
        var i :| 0 <= i < |s.submitted| && s.submitted[i] == id;
        assert (s.submitted + [id])[i] == (s.submitted + [id])[|s.submitted|];
      }
    }
  }

  /** In any state and any order, doubt ends only by a fresh status read that shows no job and drops the plan,
      or by a fresh job read; a submitted plan survives it only in the second way. */
  lemma DoubtClearsByReading(s: State, e: Event)
    ensures s.uncertain && !Step(s, e).uncertain ==>
              && e.Settle? && e.index < |s.queue| && Fresh(s, s.queue[e.index])
              && ((s.queue[e.index].OpenStatus? && e.reply.StatusReply? && Step(s, e).plan.None?)
                  || (s.queue[e.index].OpenJob? && e.reply.JobReply?
                      && AcceptsJob(e.reply.job, s.queue[e.index].status.routerId)))
              && (Spent(Step(s, e)) ==> Clears(s, e))
  {
  }

  /** A reply to a request of an older sequence or another scope changes neither the status, nor the plan,
      nor the doubt, whatever the order in which requests settle. The job may change. */
  lemma StaleRepliesAreIgnored(s: State, index: nat, reply: Reply)
    ensures index < |s.queue| && !Fresh(s, s.queue[index]) ==>
              var r := Step(s, Settle(index, reply));
              r.current == s.current && r.plan == s.plan && r.uncertain == s.uncertain && r.pending == s.pending
  {
  }

  lemma SubmitsNothing(s: State, index: nat, reply: Reply)
    ensures Step(s, Settle(index, reply)).submitted == s.submitted
  {
  }

  lemma PlanMatchesItsStatus(s: State, e: Event)
    requires Step(s, e).plan != s.plan && Step(s, e).plan.Some?
    ensures e.Settle? && e.index < |s.queue| && s.queue[e.index].Act? && s.queue[e.index].action.MakePlan?
    ensures AcceptsPlan(Step(s, e).plan.value, s.queue[e.index].previous)
  {
  }

  // ---------------------------------------------------------------- replies in order

  /** Requests settle in the order in which they were sent, and plan ids are new. */
  ghost predicate Orderly(s: State, e: Event) {
    NewId(s, e) && (e.Settle? ==> e.index == 0)
  }

  ghost predicate OrderlyRun(events: seq<Event>) {
    events == [] ||
    (var front := events[..|events| - 1]; OrderlyRun(front) && Orderly(After(front), events[|events| - 1]))
  }

  /** No heeded job read waits while a submitted plan is in doubt, nor behind its submission. */
  ghost predicate NoneBehind(s: State) {
    Spent(s) ==>
      && (s.uncertain ==> forall j :: !FreshJobAt(s, j))
      && forall i, j :: FreshActAt(s, i) && FreshJobAt(s, j) ==> j < i
  }

  lemma InOrderNothingClears(s: State, e: Event)
    requires NoneBehind(s)
    ensures !Clears(s, e)
  {
    assert Clears(s, e) ==> FreshJobAt(s, e.index);
  }

  lemma NoneBehindKeeps(s: State, e: Event)
    requires Inv(s) && NoneBehind(s) && Orderly(s, e)
    ensures NoneBehind(Step(s, e))
  {
    var r := Step(s, e);
    match e
    case Open => assert forall j :: !FreshJobAt(r, j) && !FreshActAt(r, j);
    case Close =>
    case ScopeChange => assert forall j :: !FreshJobAt(r, j) && !FreshActAt(r, j);
    case Press(action) => if !action.Apply? { StartStaysBehind(s, action); }
    case PressApply =>
      if s.plan.Some? && !s.pending && !s.uncertain { StartStaysBehind(s, Apply(s.plan.value.planId)); }
    case Settle(index, reply) => if s.queue != [] { HeadStaysBehind(s, reply); }
  }

  lemma StartStaysBehind(s: State, action: Action)
    requires Inv(s) && NoneBehind(s)
    ensures NoneBehind(Start(s, action))
  {
    hide Distinct;
    var r, n := Start(s, action), |s.queue|;
    assert forall i :: 0 <= i < n ==> r.queue[i] == s.queue[i];
    assert forall i :: FreshActAt(r, i) && i != n ==> FreshActAt(s, i);
    assert forall i :: FreshJobAt(r, i) ==> FreshJobAt(s, i);
  }

  /** A reply after which a submitted plan is still in hand leaves the rest of the queue alone, and only one to
      a fresh action can raise a doubt. */
  lemma ReplyFrame(s: State, t: State, index: nat, reply: Reply)
    requires index < |s.queue| && t == s.(queue := s.queue[..index] + s.queue[index + 1..])
    requires NewId(s, Settle(index, reply)) && Spent(Step(s, Settle(index, reply)))
    ensures var r := Step(s, Settle(index, reply));
            && Spent(s) && r.queue == t.queue && r.sequence == s.sequence && r.scope == s.scope
            && (r.uncertain && !s.uncertain ==> FreshActAt(s, index))
  {
  }

  lemma HeadStaysBehind(s: State, reply: Reply)
    requires Inv(s) && NoneBehind(s) && s.queue != [] && NewId(s, Settle(0, reply))
    ensures NoneBehind(Step(s, Settle(0, reply)))
  {
    var t := s.(queue := s.queue[..0] + s.queue[1..]);
    var r := Step(s, Settle(0, reply));
    Removed(s, t, 0);
    if Spent(r) {
      ReplyFrame(s, t, 0, reply);
      hide Step, Distinct, NewId, Spent;
      assert forall i :: FreshActAt(r, i) ==> FreshActAt(t, i) && FreshActAt(s, Before(i, 0));
      assert forall i :: FreshJobAt(r, i) ==> FreshJobAt(t, i) && FreshJobAt(s, Before(i, 0));
    }
  }

  lemma {:induction false} OrderlyIsUndeceived(events: seq<Event>)
    requires OrderlyRun(events)
    ensures Undeceived(events) && NoneBehind(After(events))
  {
    hide Step, NoneBehind, Clears, NewId;
    if events != [] {
      var front, e := events[..|events| - 1], events[|events| - 1];
      OrderlyIsUndeceived(front);
      RunKeeps(front);
      InOrderNothingClears(After(front), e);
      NoneBehindKeeps(After(front), e);
    } else {
      NothingBehindAtStart();
    }
  }

  lemma NothingBehindAtStart()
    ensures NoneBehind(START)
  {
  }

  /** Replies in the order of the requests are one way to keep it. */
  lemma InOrderAppliedAtMostOnce(events: seq<Event>)
    requires OrderlyRun(events)
    ensures Distinct(After(events).submitted)
    ensures Spent(After(events)) ==> After(events).pending || After(events).uncertain
  {
    hide Step, Distinct;
    OrderlyIsUndeceived(events);
    AppliedAtMostOnce(events);
  }

  /** Order matters: when a job read settles after requests that were sent later, a spent plan can be applied
      again. The run opens the panel, leaves the job read waiting, plans, applies, loses the reply,
      and then gets the old job reply. */
  lemma OutOfOrderAppliesTwice()
    ensures exists events :: After(events).submitted == ["p", "p"]
  {
    var v := Status("r", 1, false, false, Some("j"));
    var p := Plan("p", "r", 1, true);
    var j := Job(None, true, "r", true);
    var e1 := [Open];
    var e2 := e1 + [Settle(0, StatusReply(v))];
    var e3 := e2 + [Press(MakePlan)];
    var e4 := e3 + [Settle(1, PlanReply(p))];
    var e5 := e4 + [PressApply];
    var e6 := e5 + [Settle(1, Failure)];
    var e7 := e6 + [Settle(0, JobReply(j))];
    var e8 := e7 + [PressApply];
    assert After([]) == START;
    hide After;
    PlanIsMade(v, p, e1, e2, e3, e4);
    ApplyIsLost(v, p, e4, e5, e6);
    ApplyIsRepeated(v, p, j, e6, e7, e8);
  }

  lemma PlanIsMade(v: Status, p: Plan, e1: seq<Event>, e2: seq<Event>, e3: seq<Event>, e4: seq<Event>)
    requires v == Status("r", 1, false, false, Some("j")) && p == Plan("p", "r", 1, true) && After([]) == START
    requires e1 == [] + [Open] && e2 == e1 + [Settle(0, StatusReply(v))]
    requires e3 == e2 + [Press(MakePlan)] && e4 == e3 + [Settle(1, PlanReply(p))]
    ensures After(e4) == State(1, 0, Some(v), Some(p), None, false, false, [OpenJob(1, 0, v)], [])
  {
    hide After;
    Appended([], Open);
    Appended(e1, Settle(0, StatusReply(v)));
    Appended(e2, Press(MakePlan));
    Appended(e3, Settle(1, PlanReply(p)));
  }

  lemma ApplyIsLost(v: Status, p: Plan, e4: seq<Event>, e5: seq<Event>, e6: seq<Event>)
    requires v == Status("r", 1, false, false, Some("j")) && p == Plan("p", "r", 1, true)
    requires After(e4) == State(1, 0, Some(v), Some(p), None, false, false, [OpenJob(1, 0, v)], [])
    requires e5 == e4 + [PressApply] && e6 == e5 + [Settle(1, Failure)]
    ensures After(e6) == State(1, 0, Some(v), Some(p), None, false, true, [OpenJob(1, 0, v)], ["p"])
  {
    hide After;
    Appended(e4, PressApply);
    Appended(e5, Settle(1, Failure));
  }

  lemma ApplyIsRepeated(v: Status, p: Plan, j: Job, e6: seq<Event>, e7: seq<Event>, e8: seq<Event>)
    requires v == Status("r", 1, false, false, Some("j")) && p == Plan("p", "r", 1, true)
    requires j == Job(None, true, "r", true)
    requires After(e6) == State(1, 0, Some(v), Some(p), None, false, true, [OpenJob(1, 0, v)], ["p"])
    requires e7 == e6 + [Settle(0, JobReply(j))] && e8 == e7 + [PressApply]
    ensures After(e8).submitted == ["p", "p"]
  {
    hide After;
    Appended(e6, Settle(0, JobReply(j)));
    Appended(e7, PressApply);
  }

  lemma Appended(events: seq<Event>, e: Event)
    ensures After(events + [e]) == Step(After(events), e)
  {
    assert (events + [e])[..|events|] == events;
  }
}
