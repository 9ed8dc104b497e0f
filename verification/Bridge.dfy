/** The pending-request table of the panel bridge. A request settles through `settle`, which only
    acts on ids that are still in the table. */
module Bridge {
  import opened Wrappers

  /** The clock reading and the running number that make up a request id. */
  datatype Id = Id(stamp: int, number: nat)

  datatype Outcome = Resolved(result: string) | Rejected(code: string)

  /** A pending request; only direct requests have an abort controller. */
  datatype Request = Request(direct: bool)

  /** What arrives from outside. A message carries the id it claims to answer and whether it passed the
      origin, source-window and source-name checks. */
  datatype Event =
    | Send(stamp: int)
    | Message(genuine: bool, id: Id, outcome: Outcome)
    | Timeout(id: Id)
    | Fetched(id: Id, outcome: Outcome)  // a direct reply, after it has been read and classified
    | FetchFailed(id: Id, aborted: bool)
    | CancelAll

  datatype Settled = Settled(id: Id, outcome: Outcome)

  /** The table and the timers, and the history: ids issued, fetches aborted, settlements in order. */
  datatype State = State(
    embedded: bool, pending: map<Id, Request>, sequence: nat, timers: set<Id>,
    issued: set<Id>, aborted: set<Id>, log: seq<Settled>)

  // ---------------------------------------------------------------- the protocol as a function

  function Settle(s: State, id: Id, outcome: Outcome): State {
    if id !in s.pending then s
    else s.(pending := s.pending - {id}, timers := s.timers - {id}, log := s.log + [Settled(id, outcome)])
  }

  function Abort(s: State, id: Id): State {
    if id in s.pending && s.pending[id].direct then s.(aborted := s.aborted + {id}) else s
  }

  /** Every request of `before` that is not in `rest` has been rejected as locked, once, and nothing else
      has happened. */
  ghost predicate Cancelling(before: State, s: State, rest: set<Id>) {
    && rest == s.pending.Keys && rest <= before.pending.Keys
    && s == before.(pending := before.pending - (before.pending.Keys - rest),
                    timers := before.timers - (before.pending.Keys - rest), aborted := s.aborted, log := s.log)
    && s.aborted == before.aborted + (set id | id in before.pending && id !in rest && before.pending[id].direct)
    && before.log <= s.log
    && Rejects(before.pending.Keys - rest, s.log[|before.log|..])
  }

  ghost predicate Mentions(log: seq<Settled>, id: Id) {
    exists k :: 0 <= k < |log| && log[k].id == id
  }

  /** The list rejects each of the ids as locked, exactly once, and no other. */
  ghost predicate Rejects(ids: set<Id>, log: seq<Settled>) {
    && (forall k :: 0 <= k < |log| ==> log[k].id in ids && log[k].outcome == Rejected("locked"))
    && (forall id {:trigger Mentions(log, id)} :: id in ids ==> Mentions(log, id))
    && forall j, k :: 0 <= j < k < |log| ==> log[j].id != log[k].id
  }

  ghost predicate Cancels(before: State, after: State) {
    Cancelling(before, after, {})
  }

  /** One event. Timers fire only while armed; the order in which `cancelPending` visits the table is
      the only thing that is left open. */
  ghost predicate Next(s: State, e: Event, r: State) {
    match e
    case Send(stamp) =>
      var id := Id(stamp, s.sequence + 1);
      r == s.(pending := s.pending[id := Request(!s.embedded)], sequence := s.sequence + 1,
              timers := s.timers + {id}, issued := s.issued + {id})
    case Message(genuine, id, outcome) => r == if s.embedded && genuine then Settle(s, id, outcome) else s
    case Timeout(id) => r == if id in s.timers then Settle(Abort(s, id), id, Rejected("unavailable")) else s
    case Fetched(id, outcome) => r == if s.embedded then s else Settle(s, id, outcome)
    case FetchFailed(id, aborted) =>
      r == if s.embedded || aborted then s else Settle(s, id, Rejected("unavailable"))
    case CancelAll => Cancels(s, r)
  }

  /** Request `id` leaves the table with this outcome, its timer with it, and nothing else changes. */
  ghost predicate Leaves(s: State, id: Id, outcome: Outcome, r: State) {
    r == State(s.embedded, s.pending - {id}, s.sequence, s.timers - {id}, s.issued, s.aborted,
               s.log + [Settled(id, outcome)])
  }

  // ---------------------------------------------------------------- the same protocol as the code runs it

  class Table {
    const embedded: bool
    var pending: map<Id, Request>
    var sequence: nat
    var timers: set<Id>
    ghost var issued: set<Id>
    ghost var aborted: set<Id>
    ghost var log: seq<Settled>

    ghost function Now(): State
      reads this
    {
      State(embedded, pending, sequence, timers, issued, aborted, log)
    }

    /** Every issued request is either pending with an armed timer or has settled, once. */
    ghost predicate Valid()
      reads this
    {
      Inv(Now())
    }

    constructor (embedded: bool)
      ensures Valid() && Now() == State(embedded, map[], 0, {}, {}, {}, [])
    {
      this.embedded := embedded;
      pending, sequence, timers, issued, aborted, log := map[], 0, {}, {}, {}, [];
    }

    /** A pending request settles now, for the first and only time; for any other id nothing happens. */
    method SettleRequest(id: Id, outcome: Outcome)
      requires Valid()
      modifies this
      ensures Valid() && Now() == Settle(old(Now()), id, outcome)
      ensures id !in pending && id !in timers
      ensures if id in old(pending) then !old(Logged(Now(), id)) && Leaves(old(Now()), id, outcome, Now())
              else Now() == old(Now())
    {
      SettleKeeps(Now(), id, outcome);
      if id !in pending { return; }
      pending := pending - {id};
      timers := timers - {id};
      log := log + [Settled(id, outcome)];
    }

    method AbortRequest(id: Id)
      requires Valid()
      modifies `aborted
      ensures Valid() && Now() == Abort(old(Now()), id)
      ensures aborted == old(aborted) + if id in pending && pending[id].direct then {id} else {}
    {
      AbortKeeps(Now(), id);
      if id in pending && pending[id].direct { aborted := aborted + {id}; }
    }

    /** frameRequest and directRequest: the window decides which one runs. The id is new, and the request is
        pending with an armed timer. */
    method SendRequest(stamp: int) returns (id: Id)
      requires Valid()
      modifies this
      ensures Valid() && Next(old(Now()), Send(stamp), Now()) && id == Id(stamp, old(sequence) + 1)
      ensures id !in old(issued) && id !in old(pending) && id in pending && id in timers && !Logged(Now(), id)
      ensures Now() == State(embedded, old(pending)[id := Request(!embedded)], old(sequence) + 1, old(timers) + {id},
                             old(issued) + {id}, old(aborted), old(log))
    {
      ghost var before := Now();
      sequence := sequence + 1;
      id := Id(stamp, sequence);
      timers := timers + {id};
      pending := pending[id := Request(!embedded)];
      issued := issued + {id};
      NextKeeps(before, Send(stamp), Now());
    }

    /** Only a genuine message inside a frame settles, and only a request that is pending. */
    method OnMessage(genuine: bool, id: Id, outcome: Outcome)
      requires Valid()
      modifies this
      ensures Valid() && Next(old(Now()), Message(genuine, id, outcome), Now())
      ensures if embedded && genuine && id in old(pending) then Leaves(old(Now()), id, outcome, Now())
              else Now() == old(Now())
    {
      if !embedded || !genuine { return; }
      SettleRequest(id, outcome);
    }

    /** An armed timer belongs to a pending request, which is rejected, and aborted if it is direct. */
    method OnTimeout(id: Id)
      requires Valid()
      modifies this
      ensures Valid() && Next(old(Now()), Timeout(id), Now())
      ensures if id in old(timers)
              then && id in old(pending)
                   && Leaves(old(Now()).(aborted := aborted), id, Rejected("unavailable"), Now())
                   && aborted == old(aborted) + if old(pending)[id].direct then {id} else {}
              else Now() == old(Now())
    {
      if id !in timers { return; }
      AbortRequest(id);
      SettleRequest(id, Rejected("unavailable"));
    }

    /** A direct reply settles its request if that is still pending; the failure of an aborted fetch does not. */
    method OnFetch(id: Id, outcome: Option<Outcome>, abortError: bool)
      requires Valid()
      modifies this
      ensures Valid()
      ensures Next(old(Now()), if outcome.Some? then Fetched(id, outcome.value) else FetchFailed(id, abortError), Now())
      ensures if !embedded && (outcome.Some? || !abortError) && id in old(pending)
              then Leaves(old(Now()), id, if outcome.Some? then outcome.value else Rejected("unavailable"), Now())
              else Now() == old(Now())
    {
      if embedded { return; }
      if outcome.Some? {
        SettleRequest(id, outcome.value);
      } else if !abortError {
        SettleRequest(id, Rejected("unavailable"));
      }
    }

    /** Every pending request is rejected as locked, once, and none is left. */
    method CancelPending()
      requires Valid()
      modifies this
      ensures Valid() && Next(old(Now()), CancelAll, Now())
      ensures pending == map[] && timers == {} && sequence == old(sequence) && issued == old(issued)
      ensures aborted == old(aborted) + set id | id in old(pending) && old(pending)[id].direct
      ensures old(log) <= log
      ensures forall id :: Settled(id, Rejected("locked")) in log[|old(log)|..] <==> id in old(pending)
      ensures forall k :: |old(log)| <= k < |log| ==> log[k].outcome == Rejected("locked")
    {
      ghost var before := Now();
      var rest := pending.Keys;
      CancelNone(before);
      while rest != {}
        invariant Valid() && Cancelling(before, Now(), rest)
        decreases |rest|
      {
        var id :| id in rest;
        CancelOne(before, Now(), rest, id);
        AbortRequest(id);
        SettleRequest(id, Rejected("locked"));
        rest := rest - {id};
      }
      AllAreLocked(before, Now());
    }
  }

  lemma AllAreLocked(before: State, s: State)
    requires Cancelling(before, s, {})
    ensures before.log <= s.log
    ensures forall id :: Settled(id, Rejected("locked")) in s.log[|before.log|..] <==> id in before.pending
    ensures forall k :: |before.log| <= k < |s.log| ==> s.log[k].outcome == Rejected("locked")
    ensures s.aborted == before.aborted + set id | id in before.pending && before.pending[id].direct
  {
    var more := s.log[|before.log|..];
    assert before.pending.Keys - {} == before.pending.Keys;
    forall id ensures Settled(id, Rejected("locked")) in more <==> id in before.pending {
      if id in before.pending {
        assert Mentions(more, id);
        var k :| 0 <= k < |more| && more[k].id == id;
        assert more[k] == Settled(id, Rejected("locked"));
      }
    }
    forall k | |before.log| <= k < |s.log| ensures s.log[k].outcome == Rejected("locked") {
      assert s.log[k] == more[k - |before.log|];
    }
  }

  lemma CancelNone(s: State)
    ensures Cancelling(s, s, s.pending.Keys)
  {
  }

  lemma CancelOne(before: State, s: State, rest: set<Id>, id: Id)
    requires Cancelling(before, s, rest) && id in rest
    ensures Cancelling(before, Settle(Abort(s, id), id, Rejected("locked")), rest - {id})
  {
    var r := Settle(Abort(s, id), id, Rejected("locked"));
    var gone := before.pending.Keys - rest;
    assert before.pending.Keys - (rest - {id}) == gone + {id};
    RejectOne(gone, s.log[|before.log|..], id);
    assert r.log[|before.log|..] == s.log[|before.log|..] + [Settled(id, Rejected("locked"))];
  }

  lemma RejectOne(ids: set<Id>, log: seq<Settled>, id: Id)
    requires Rejects(ids, log) && id !in ids
    ensures Rejects(ids + {id}, log + [Settled(id, Rejected("locked"))])
  {
    var longer := log + [Settled(id, Rejected("locked"))];
    forall x | x in ids + {id} ensures Mentions(longer, x) {
      if x == id {
        assert longer[|log|].id == x;
      } else {
        assert Mentions(log, x);
        var k :| 0 <= k < |log| && log[k].id == x;
        assert longer[k].id == x;
      }
    }
  }

  // ---------------------------------------------------------------- what every run keeps

  ghost predicate Logged(s: State, id: Id) {
    Mentions(s.log, id)
  }

  /** Every issued request is either pending with an armed timer or has settled, and nothing settles twice. */
  ghost predicate Inv(s: State) {
    && s.timers == s.pending.Keys
    && (forall id :: id in s.issued ==> id.number <= s.sequence)
    && (forall id :: id in s.issued <==> id in s.pending || Logged(s, id))
    && (forall id :: id in s.pending ==> !Logged(s, id))
    && forall j, k :: 0 <= j < k < |s.log| ==> s.log[j].id != s.log[k].id
  }

  lemma SettleKeeps(s: State, id: Id, outcome: Outcome)
    requires Inv(s)
    ensures Inv(Settle(s, id, outcome))
  {
    var r := Settle(s, id, outcome);
    if id in s.pending {
      assert r.log[|s.log|].id == id;
      forall x ensures Logged(r, x) <==> Logged(s, x) || x == id {
        if Logged(s, x) {
          var k :| 0 <= k < |s.log| && s.log[k].id == x;
          assert r.log[k].id == x;
        }
      }
      assert !Logged(s, id);
    }
  }

  lemma AbortKeeps(s: State, id: Id)
    requires Inv(s)
    ensures Inv(Abort(s, id))
  {
    var r := Abort(s, id);
    assert forall x :: Logged(r, x) <==> Logged(s, x);
  }

  lemma CancelKeeps(s: State, r: State)
    requires Inv(s) && Cancels(s, r)
    ensures Inv(r)
  {
    var more := r.log[|s.log|..];
    assert r.log == s.log + more && r.pending == map[];
    forall id ensures Logged(r, id) <==> Logged(s, id) || id in s.pending {
      if Logged(s, id) {
        var k :| 0 <= k < |s.log| && s.log[k].id == id;
        assert r.log[k].id == id;
      }
      if id in s.pending {
        assert Mentions(more, id);
        var k :| 0 <= k < |more| && more[k].id == id;
        assert r.log[|s.log| + k].id == id;
      }
    }
    forall j, k | 0 <= j < k < |r.log| ensures r.log[j].id != r.log[k].id {
      if j < |s.log| {
        assert Logged(s, r.log[j].id);
        if k >= |s.log| { assert r.log[k] == more[k - |s.log|]; }
      } else {
        assert r.log[j] == more[j - |s.log|] && r.log[k] == more[k - |s.log|];
      }
    }
  }

  lemma NextKeeps(s: State, e: Event, r: State)
    requires Inv(s) && Next(s, e, r)
    ensures Inv(r)
  {
    match e
    case Send(stamp) =>
      assert Id(stamp, s.sequence + 1) !in s.issued;
      assert forall id :: Logged(r, id) <==> Logged(s, id);
    case Message(genuine, id, outcome) => SettleKeeps(s, id, outcome);
    case Timeout(id) =>
      var t := Abort(s, id);
      AbortKeeps(s, id);
      SettleKeeps(t, id, Rejected("unavailable"));
    case Fetched(id, outcome) => SettleKeeps(s, id, outcome);
    case FetchFailed(id, aborted) => SettleKeeps(s, id, Rejected("unavailable"));
    case CancelAll => CancelKeeps(s, r);
  }

  /** A run of the bridge: states[0] is fresh and each event leads to the next state. */
  ghost predicate IsRun(events: seq<Event>, states: seq<State>) {
    && |states| == |events| + 1
    && states[0] == State(states[0].embedded, map[], 0, {}, {}, {}, [])
    && forall i :: 0 <= i < |events| ==> Next(states[i], events[i], states[i + 1])
  }

  lemma {:induction false} RunKeeps(events: seq<Event>, states: seq<State>, n: nat)
    requires IsRun(events, states) && n <= |events|
    ensures Inv(states[n])
  {
    if n > 0 {
      RunKeeps(events, states, n - 1);
      NextKeeps(states[n - 1], events[n - 1], states[n - 1 + 1]);
    }
  }

  // ---------------------------------------------------------------- the theorems

  ghost function Settlements(log: seq<Settled>, id: Id): nat {
    if log == [] then 0
    else Settlements(log[..|log| - 1], id) + if log[|log| - 1].id == id then 1 else 0
  }

  lemma {:induction false} SettlementsOf(log: seq<Settled>, id: Id)
    requires forall j, k :: 0 <= j < k < |log| ==> log[j].id != log[k].id
    ensures Settlements(log, id) == if Mentions(log, id) then 1 else 0
  {
    if log != [] {
      var n := |log| - 1;
      SettlementsOf(log[..n], id);
      if log[n].id == id {
        assert forall k :: 0 <= k < n ==> log[..n][k].id != id;
      } else if k :| 0 <= k < |log| && log[k].id == id {
        assert log[..n][k].id == id;
      }
    }
  }

  /** At every point of every run, each request that was sent is either pending, with its timer armed and
      not yet settled, or settled exactly once, with its timer cleared. */
  lemma SettlesExactlyOnce(events: seq<Event>, states: seq<State>, n: nat, id: Id)
    requires IsRun(events, states) && n <= |events| && id in states[n].issued
    ensures var s := states[n];
            if id in s.pending then id in s.timers && Settlements(s.log, id) == 0
            else id !in s.timers && Settlements(s.log, id) == 1
  {
    var s := states[n];
    RunKeeps(events, states, n);
    SettlementsOf(s.log, id);
    assert id in s.pending ==> !Logged(s, id);
    assert id !in s.pending ==> Logged(s, id);
  }

  /** A reply for a request that is not pending, a message that fails the checks, a timer that is no longer
      armed and a reply of an aborted fetch all change nothing. */
  lemma LateAndForeignAreIgnored(s: State, e: Event, r: State)
    requires Inv(s) && Next(s, e, r)
    requires match e
             case Message(genuine, id, outcome) => !genuine || id !in s.pending
             case Timeout(id) => id !in s.pending
             case Fetched(id, outcome) => id !in s.pending
             case FetchFailed(id, aborted) => aborted || id !in s.pending
             case _ => false
    ensures r == s
  {
  }

  /** Once settled, a request stays settled, and with the same outcome. */
  lemma {:induction false} SettledForGood(events: seq<Event>, states: seq<State>, m: nat, n: nat)
    requires IsRun(events, states) && m <= n <= |events|
    ensures states[m].log <= states[n].log && states[m].issued <= states[n].issued
    decreases n
  {
    if m < n {
      SettledForGood(events, states, m, n - 1);
      LogGrows(states[n - 1], events[n - 1], states[n - 1 + 1]);
    }
  }

  lemma LogGrows(s: State, e: Event, r: State)
    requires Next(s, e, r)
    ensures s.log <= r.log && s.issued <= r.issued
  {
  }

  /** After `cancelPending` no request sent before it is pending, then or ever again. */
  lemma NothingSurvivesCancel(events: seq<Event>, states: seq<State>, c: nat, n: nat, id: Id)
    requires IsRun(events, states) && c < n <= |events| && events[c] == CancelAll
    requires id in states[c].issued
    ensures id !in states[n].pending && Settlements(states[n].log, id) == 1
  {
    RunKeeps(events, states, c + 1);
    RunKeeps(events, states, n);
    assert Next(states[c], events[c], states[c + 1]);
    SettledForGood(events, states, c + 1, n);
    assert id in states[c + 1].issued && id !in states[c + 1].pending && Logged(states[c + 1], id);
    var k :| 0 <= k < |states[c + 1].log| && states[c + 1].log[k].id == id;
    assert states[n].log[k].id == id;
    assert Logged(states[n], id);
    SettlesExactlyOnce(events, states, n, id);
  }
}
