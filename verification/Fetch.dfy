/** The recovery fetch as the callbacks of one client run: redirects, the output descriptor, the write loop
    and the exit status. The HTTP library, the network and the descriptor are the environment. */
module Fetch {
  import opened Collections
  import opened HttpsPolicy
  import opened Wrappers

  /** The outcome of one write call: interrupted, failed, or a number of bytes taken. */
  datatype Write = Interrupted | Broken | Wrote(n: nat)

  /** One block read from the connection, with the write calls made for it. */
  datatype Block = Block(data: seq<byte>, writes: seq<Write>)

  /** `init` is what a further request start would return; `followed` is the answer of the library's redirect
      call, `range` says whether the range header of a partial answer is usable, and `opens` whether the output
      file can be opened. */
  datatype Event =
    | HeaderDone(status: int, redirect: bool, location: Option<Text>, followed: int, range: bool, init: int,
                 opens: bool)
    | DataReady(blocks: seq<Block>)
    | Eof(complete: bool, init: int)
    | Failed(code: int, init: int)

  datatype State = State(pending: seq<Text>, resume: bool, curResume: bool, noOutput: bool, redirects: nat,
                         requested: seq<Text>, output: bool, exit: int, ended: bool, outBytes: nat,
                         received: seq<byte>, written: seq<byte>)

  const MAX_REDIRECTS := 10

  // ---------------------------------------------------------------- the environment

  /** The write calls for `length` bytes make progress until all are written or one fails. */
  predicate Settles(offset: nat, length: nat, writes: seq<Write>)
    decreases |writes|
  {
    if offset >= length then offset == length
    else
      writes != [] &&
      match writes[0]
      case Interrupted => Settles(offset, length, writes[1..])
      case Broken => true
      case Wrote(n) => offset + n <= length && Settles(offset + n, length, writes[1..])
  }

  /** What the library may report: it follows only an announced redirect with a location. */
  ghost predicate Possible(e: Event) {
    && (e.HeaderDone? && e.followed > 0 ==> e.redirect && e.location.Some?)
    && (e.DataReady? ==> forall k :: 0 <= k < |e.blocks| ==>
          0 < |e.blocks[k].data| <= 256 && Settles(0, |e.blocks[k].data|, e.blocks[k].writes))
    && (e.Failed? ==> e.code in {1, 4, 5})
  }

  // ---------------------------------------------------------------- the steps

  /** How far the write calls get from `offset`, and whether one of them failed. */
  function WriteFrom(offset: nat, length: nat, writes: seq<Write>): (r: (nat, bool))
    requires Settles(offset, length, writes)
    ensures offset <= r.0 <= length && (!r.1 ==> r.0 == length)
    decreases |writes|
  {
    if offset >= length then (offset, false)
    else
      match writes[0]
      case Interrupted => WriteFrom(offset, length, writes[1..])
      case Broken => (offset, true)
      case Wrote(n) => WriteFrom(offset + n, length, writes[1..])
  }

  /** A new request: the counters start again. */
  function Restart(s: State, url: Text): State {
    s.(requested := s.requested + [url], redirects := 0, outBytes := 0)
  }

  function RequestDone(s: State, init: int): (r: State)
    ensures r.written == s.written && r.received == s.received && r.output == s.output
    ensures s.pending == [] ==> r == s.(ended := true)
    ensures s.pending != [] ==>
              r == s.(pending := s.pending[1..], curResume := s.resume, redirects := 0, outBytes := 0, exit := init,
                      requested := s.requested + [s.pending[0]], ended := s.ended || init != 0)
  {
    if s.pending != [] then
      var next := Restart(s, s.pending[0]).(pending := s.pending[1..], curResume := s.resume, exit := init);
      if init == 0 then next else next.(ended := true)
    else s.(ended := true)
  }

  ghost predicate RedirectAllowed(s: State, e: Event)
    requires e.HeaderDone?
  {
    !e.redirect || (s.redirects < MAX_REDIRECTS && e.location.Some? && InGrammar(e.location.value))
  }

  function AfterStatus(s: State, e: Event): State
    requires e.HeaderDone?
  {
    if e.status == 416 then RequestDone(s, e.init)
    else if e.status == 206 && (!s.curResume || !e.range) then RequestDone(s.(exit := 8), e.init)
    else if e.status == 206 || e.status == 204 || e.status == 200 then
      if s.noOutput then s
      else if e.opens then s.(output := true)
      else RequestDone(s.(output := false, exit := 3), e.init)
    else RequestDone(s, e.init).(exit := 8)
  }

  ghost function AfterHeader(s: State, e: Event): State
    requires e.HeaderDone? && Possible(e)
  {
    if !RedirectAllowed(s, e) then RequestDone(s.(exit := 8), e.init)
    else if s.redirects < MAX_REDIRECTS && e.followed < 0 then RequestDone(s.(exit := 8), e.init)
    else if s.redirects < MAX_REDIRECTS && e.followed > 0 then
      s.(redirects := s.redirects + 1, requested := s.requested + [e.location.value])
    else if e.status == 204 && s.curResume then
      var t := s.(curResume := false, redirects := 0, outBytes := 0);
      if e.init != 0 then RequestDone(t.(exit := 4), e.init) else t
    else AfterStatus(s, e)
  }

  /** One block read and, unless output is off, written as far as the write calls get. */
  function TakeBlock(s: State, block: Block): (State, bool)
    requires Settles(0, |block.data|, block.writes)
  {
    var t := s.(received := s.received + block.data, outBytes := s.outBytes + |block.data|);
    if s.noOutput then (t, false)
    else
      var (done, broken) := WriteFrom(0, |block.data|, block.writes);
      (t.(written := t.written + block.data[..done]), broken)
  }

  ghost function Deliver(s: State, blocks: seq<Block>): State
    requires forall k :: 0 <= k < |blocks| ==> Settles(0, |blocks[k].data|, blocks[k].writes)
    decreases |blocks|
  {
    if blocks == [] || s.ended || (!s.noOutput && !s.output) then s
    else
      var (t, broken) := TakeBlock(s, blocks[0]);
      if broken then RequestDone(t.(exit := 2), 0) else Deliver(t, blocks[1..])
  }

  /** Nothing is called back after the run has ended. */
  ghost function Step(s: State, e: Event): State
    requires Possible(e)
  {
    if s.ended then s
    else
      match e
      case HeaderDone(_, _, _, _, _, _, _) => AfterHeader(s, e)
      case DataReady(blocks) => Deliver(s, blocks)
      case Eof(complete, init) => RequestDone(if complete then s else s.(exit := 4), init)
      case Failed(code, init) => RequestDone(s.(exit := code), init)
  }

  // ---------------------------------------------------------------- what an answer and a block do

  /** A redirect outside the policy, the eleventh, or one that the library refuses. */
  ghost predicate Refused(s: State, e: Event)
    requires e.HeaderDone?
  {
    || (e.redirect && (s.redirects >= 10 || e.location.None? || !InGrammar(e.location.value)))
    || (s.redirects < 10 && e.followed < 0)
  }

  ghost predicate Followed(s: State, e: Event)
    requires e.HeaderDone?
  {
    !Refused(s, e) && s.redirects < 10 && e.followed > 0
  }

  /** An answer as the client reads it: refused, followed, opened for its body, empty, or an error. */
  ghost predicate AnswerRead(s: State, e: Event, r: State)
    requires e.HeaderDone?
  {
    && r.written == s.written && r.received == s.received
    && if Followed(s, e) then
         && !r.ended && r.exit == 0 && r.output == s.output
         && r.redirects == s.redirects + 1 && e.location.Some? && r.requested == s.requested + [e.location.value]
       else
         && r.redirects == s.redirects && r.requested == s.requested
         && if !Refused(s, e) && e.status in {200, 204} && e.opens then !r.ended && r.exit == 0 && r.output
            else
              && r.ended
              && r.exit == if Refused(s, e) then 8 else if e.status == 416 then 0
                           else if e.status in {200, 204} then 3 else 8
  }

  /** The answers of a resumed download, which the argument gate rules out: a 204 starts the whole download over, and a
      206 with a usable range goes on. */
  lemma ResumedAnswers(s: State, e: Event)
    requires !s.ended && s.curResume && !s.noOutput && s.pending == [] && e.HeaderDone? && Possible(e)
    requires !Refused(s, e) && !Followed(s, e)
    ensures var over := s.(curResume := false, redirects := 0, outBytes := 0);
            e.status == 204 ==> Step(s, e) == if e.init == 0 then over else over.(exit := 4, ended := true)
    ensures e.status == 206 && e.range ==>
              Step(s, e) == if e.opens then s.(output := true) else s.(output := false, exit := 3, ended := true)
    ensures e.status == 206 && !e.range ==> Step(s, e) == s.(exit := 8, ended := true)
  {
    hide InGrammar, Deliver;
  }

  lemma AnswerIsRead(s: State, e: Event)
    requires Inv(s) && !s.ended && e.HeaderDone? && Possible(e)
    ensures AnswerRead(s, e, Step(s, e))
  {
    hide InGrammar, Deliver;
  }

  predicate Unbroken(writes: seq<Write>) {
    forall k :: 0 <= k < |writes| ==> !writes[k].Broken?
  }

  function Taken(writes: seq<Write>): nat {
    if writes == [] then 0
    else
      var last := writes[|writes| - 1];
      Taken(writes[..|writes| - 1]) + if last.Wrote? then last.n else 0
  }

  lemma {:induction false} TakenPrepends(w: Write, writes: seq<Write>)
    ensures Taken([w] + writes) == (if w.Wrote? then w.n else 0) + Taken(writes)
  {
    var all := [w] + writes;
    if writes == [] {
      assert all == [w];
    } else {
      assert all[..|all| - 1] == [w] + writes[..|writes| - 1];
      TakenPrepends(w, writes[..|writes| - 1]);
    }
  }

  /** The calls made are those up to the one that completes the block or fails; the bytes written are the sum of
      what they took. */
  lemma {:induction false} WritesAddUp(offset: nat, length: nat, writes: seq<Write>) returns (calls: nat)
    requires Settles(offset, length, writes)
    ensures calls <= |writes| && Unbroken(writes[..calls])
    ensures var (done, broken) := WriteFrom(offset, length, writes);
            && done == offset + Taken(writes[..calls])
            && if broken then calls < |writes| && writes[calls].Broken? && done < length else done == length
    decreases |writes|
  {
    calls := 0;
    if offset < length && !writes[0].Broken? {
      var taken := if writes[0].Wrote? then writes[0].n else 0;
      var more := WritesAddUp(offset + taken, length, writes[1..]);
      calls := more + 1;
      assert writes[..calls] == [writes[0]] + writes[1..][..more];
      TakenPrepends(writes[0], writes[1..][..more]);
    }
  }

  // ---------------------------------------------------------------- the argument gate

  /** `plain` is false as soon as any option but the certificate file is given. */
  datatype Settings = Settings(plain: bool, ca: Option<Text>, urls: seq<Text>)

  method ReadOptions(args: seq<Text>) returns (s: Settings)
    requires ArgumentsOk(args)
    ensures s.plain && s.urls == [args[|args| - 1]] && InGrammar(s.urls[0])
    ensures s.ca == if |args| == 4 then Some(args[2]) else None
  {
    GateShapes(args);
    s := Settings(true, None, []);
    var i := 1;
    while i < |args|
      invariant s.plain
      invariant |args| == 2 ==> if i < 2 then i == 1 && s.urls == [] && s.ca == None
                                else i == 2 && s.urls == [args[1]] && s.ca == None
      invariant |args| == 4 ==> if i == 1 then s.urls == [] && s.ca == None
                                else s.ca == Some(args[2]) &&
                                     if i == 3 then s.urls == [] else i == 4 && s.urls == [args[3]]
    {
      if args[i] == CaOption() && i + 1 < |args| {
        s := s.(ca := Some(args[i + 1]));
        i := i + 2;
      } else if |args[i]| >= 2 && args[i][0] == 45 {
        s := s.(plain := false);
        i := i + 1;
      } else {
        s := s.(urls := s.urls + [args[i]]);
        i := i + 1;
      }
    }
  }

  lemma GateShapes(args: seq<Text>)
    requires ArgumentsOk(args)
    ensures InGrammar(args[|args| - 1]) && args[|args| - 1][..8] == Scheme()
    ensures |args| == 4 ==> args[1] == CaOption() && args[2][0] == SLASH
  {
    var url := args[|args| - 1];
    var u :| WellFormed(u) && Render(u) == url;
    assert Render(u)[..8] == Scheme();
  }

  ghost predicate Started(s: State, url: Text) {
    s == State([], false, false, false, 0, [url], false, 0, false, 0, [], [])
  }

  // ---------------------------------------------------------------- the client

  class Client {
    var pending: seq<Text>
    var resume: bool
    var curResume: bool
    var noOutput: bool
    var redirects: nat
    var requested: seq<Text>
    var output: bool
    var exit: int
    var ended: bool
    var outBytes: nat
    ghost var received: seq<byte>
    ghost var written: seq<byte>

    ghost function Now(): State
      reads this
    {
      State(pending, resume, curResume, noOutput, redirects, requested, output, exit, ended, outBytes, received,
            written)
    }

    /** What holds throughout a run that passed the gate. */
    ghost predicate Valid()
      reads this
    {
      Inv(Now())
    }

    /** The main loop starts in order for settings that passed the gate: one URL, and it is in the grammar. */
    constructor (s: Settings)
      requires s.plain && |s.urls| >= 1
      ensures Now() == State(s.urls[1..], false, false, false, 0, [s.urls[0]], false, 0, false, 0, [], [])
      ensures |s.urls| == 1 && InGrammar(s.urls[0]) ==> Valid() && Started(Now(), s.urls[0])
    {
      pending, resume, curResume, noOutput := s.urls[1..], false, false, false;
      redirects, requested, output, exit, ended := 0, [s.urls[0]], false, 0, false;
      outBytes, received, written := 0, [], [];
    }

    method Done(init: int)
      modifies this
      ensures Now() == RequestDone(old(Now()), init)
    {
      if pending != [] {
        requested, redirects, outBytes := requested + [pending[0]], 0, 0;
        pending, curResume, exit := pending[1..], resume, init;
        if init == 0 { return; }
      }
      ended := true;
    }

    /** The headers of an answer: at most one new URL is requested, for an allowed redirect, and nothing is
        written; success without a body is status 416. */
    method HeaderDone(e: Event)
      requires Valid() && e.HeaderDone? && Possible(e) && !ended
      modifies this
      ensures Valid() && Now() == Step(old(Now()), e)
      ensures || (requested == old(requested) && redirects == old(redirects))
              || (&& e.redirect && e.location.Some? && InGrammar(e.location.value)
                  && requested == old(requested) + [e.location.value] && redirects == old(redirects) + 1 <= 10)
      ensures written == old(written) && received == old(received)
      ensures ended && exit == 0 ==> e.status == 416
      ensures AnswerRead(old(Now()), e, Now())
    {
      StepKeeps(Now(), e);
      CounterIsNeverReset(Now(), e);
      HeadersWriteNothing(Now(), e);
      AnswerIsRead(Now(), e);
      if Step(Now(), e).ended { ZeroMeansComplete(Now(), e); }
      Headers(e);
    }

    method Headers(e: Event)
      requires e.HeaderDone? && Possible(e) && !ended
      modifies this
      ensures Now() == Step(old(Now()), e)
    {
      var allowed := !e.redirect;
      if e.redirect && redirects < MAX_REDIRECTS && e.location.Some? {
        allowed := HttpsUrl(e.location.value);
      }
      if !allowed {
        exit := 8;
        Done(e.init);
        return;
      }
      if redirects < MAX_REDIRECTS {
        if e.followed < 0 {
          exit := 8;
          Done(e.init);
          return;
        }
        if e.followed > 0 {
          redirects, requested := redirects + 1, requested + [e.location.value];
          return;
        }
      }
      if e.status == 204 && curResume {
        curResume, redirects, outBytes := false, 0, 0;
        if e.init != 0 {
          exit := 4;
          Done(e.init);
        }
        return;
      }
      ReadStatus(e);
    }

    method ReadStatus(e: Event)
      requires e.HeaderDone?
      modifies this
      ensures Now() == AfterStatus(old(Now()), e)
    {
      if e.status == 416 {
        Done(e.init);
      } else if e.status == 206 && (!curResume || !e.range) {
        exit := 8;
        Done(e.init);
      } else if e.status == 206 || e.status == 204 || e.status == 200 {
        if noOutput { return; }
        output := e.opens;
        if !output {
          exit := 3;
          Done(e.init);
        }
      } else {
        Done(e.init);
        exit := 8;
      }
    }

    /** The write loop for one block: resumes after a short or an interrupted write. */
    method WriteBlock(block: Block) returns (offset: nat, broken: bool)
      requires Settles(0, |block.data|, block.writes)
      modifies `written
      ensures (offset, broken) == WriteFrom(0, |block.data|, block.writes)
      ensures Unbroken(block.writes) ==> !broken && offset == |block.data|
      ensures written == old(written) + block.data[..offset]
    {
      ghost var made := WritesAddUp(0, |block.data|, block.writes);
      offset, broken := 0, false;
      var calls := block.writes;
      while offset < |block.data|
        invariant offset <= |block.data| && Settles(offset, |block.data|, calls)
        invariant WriteFrom(offset, |block.data|, calls) == WriteFrom(0, |block.data|, block.writes)
        invariant written == old(written) + block.data[..offset] && !broken
        decreases |calls|
      {
        var n := calls[0];
        if n.Broken? { return offset, true; }
        if n.Wrote? {
          written := written + block.data[offset..offset + n.n];
          assert block.data[..offset + n.n] == block.data[..offset] + block.data[offset..offset + n.n];
          offset := offset + n.n;
        }
        calls := calls[1..];
      }
    }

    /** Data is read and written on, and only once an answer has opened the output; the run goes on exactly as
        long as everything read is written. */
    method ReadData(blocks: seq<Block>)
      requires Valid() && Possible(DataReady(blocks)) && !ended
      modifies this
      ensures Valid() && Now() == Step(old(Now()), DataReady(blocks))
      ensures old(written) <= written <= received && old(received) <= received && requested == old(requested)
      ensures !old(output) ==> Now() == old(Now())
      ensures if ended then exit == 2 else written == received
      ensures old(output) ==> exists k: nat :: Delivered(old(Now()), blocks, Now(), k)
    {
      StepKeeps(Now(), DataReady(blocks));
      DeliverKeeps(Now(), blocks);
      CounterIsNeverReset(Now(), DataReady(blocks));
      ghost var k: nat := 0;
      if output { k := DeliveredUpTo(Now(), blocks); }
      Blocks(blocks);
    }

    method Blocks(blocks: seq<Block>)
      requires Possible(DataReady(blocks)) && !ended
      modifies this
      ensures Now() == Step(old(Now()), DataReady(blocks))
    {
      if !noOutput && !output { return; }
      var rest := blocks;
      while rest != []
        invariant forall k :: 0 <= k < |rest| ==> Settles(0, |rest[k].data|, rest[k].writes)
        invariant !ended && (noOutput || output)
        invariant Deliver(Now(), rest) == Deliver(old(Now()), blocks)
        decreases |rest|
      {
        var broken := Take(rest[0]);
        if broken {
          exit := 2;
          Done(0);
          return;
        }
        rest := rest[1..];
      }
    }

    method Take(block: Block) returns (broken: bool)
      requires Settles(0, |block.data|, block.writes)
      modifies `received, `outBytes, `written
      ensures (Now(), broken) == TakeBlock(old(Now()), block)
    {
      received, outBytes := received + block.data, outBytes + |block.data|;
      broken := false;
      if !noOutput {
        var offset;
        offset, broken := WriteBlock(block);
      }
    }

    /** The end of the data ends the run, with status 0 exactly if it is complete. */
    method EndOfData(complete: bool, init: int)
      requires Valid() && !ended
      modifies this
      ensures Valid() && Now() == Step(old(Now()), Eof(complete, init))
      ensures ended && exit == (if complete then 0 else 4) && written == received == old(received)
    {
      StepKeeps(Now(), Eof(complete, init));
      if !complete { exit := 4; }
      Done(init);
    }

    /** A connection error ends the run, always with a status other than 0. */
    method Error(code: int, init: int)
      requires Valid() && Possible(Failed(code, init)) && !ended
      modifies this
      ensures Valid() && Now() == Step(old(Now()), Failed(code, init))
      ensures ended && exit == code && exit != 0
    {
      StepKeeps(Now(), Failed(code, init));
      exit := code;
      Done(init);
    }
  }

  // ---------------------------------------------------------------- runs

  ghost predicate AllPossible(events: seq<Event>) {
    forall k :: 0 <= k < |events| ==> Possible(events[k])
  }

  ghost function Run(s: State, events: seq<Event>): State
    requires AllPossible(events)
    decreases |events|
  {
    if events == [] then s else Step(Run(s, events[..|events| - 1]), events[|events| - 1])
  }

  /** What holds throughout a run that passed the gate. */
  ghost predicate Inv(s: State) {
    && s.pending == [] && !s.resume && !s.curResume && !s.noOutput
    && |s.requested| == s.redirects + 1 && s.redirects <= MAX_REDIRECTS
    && (forall k :: 0 <= k < |s.requested| ==> InGrammar(s.requested[k]))
    && s.outBytes == |s.received| && s.written <= s.received
    && (s.written != s.received ==> s.ended && s.exit == 2)
    && (!s.output && !s.ended ==> s.received == [])
    && (!s.ended ==> s.exit == 0)
  }

  lemma HeadersWriteNothing(s: State, e: Event)
    requires e.HeaderDone? && Possible(e)
    ensures Step(s, e).written == s.written && Step(s, e).received == s.received
  {
    hide Deliver, InGrammar, Restart;
  }

  lemma {:induction false} DeliverKeeps(s: State, blocks: seq<Block>)
    requires forall k :: 0 <= k < |blocks| ==> Settles(0, |blocks[k].data|, blocks[k].writes)
    requires Inv(s) && !s.ended
    ensures Inv(Deliver(s, blocks)) && Extends(s, Deliver(s, blocks))
    ensures Deliver(s, blocks).ended ==> Deliver(s, blocks).exit == 2
    ensures Deliver(s, blocks).redirects == s.redirects
    decreases |blocks|
  {
    if blocks != [] && s.output {
      var data := blocks[0].data;
      var (done, _) := WriteFrom(0, |data|, blocks[0].writes);
      var (t, broken) := TakeBlock(s, blocks[0]);
      assert t.written == t.received[..|s.received| + done];
      if !broken {
        assert data[..done] == data;
        DeliverKeeps(t, blocks[1..]);
      }
    }
  }

  /** What was requested, received and written is never taken back, and the redirect counter never falls. */
  ghost predicate Extends(s: State, t: State) {
    && s.requested <= t.requested && s.received <= t.received && s.written <= t.written
    && s.redirects <= t.redirects && (s.ended ==> t == s)
  }

  lemma StepKeeps(s: State, e: Event)
    requires Inv(s) && Possible(e)
    ensures Inv(Step(s, e)) && Extends(s, Step(s, e))
  {
    hide Deliver, InGrammar;
    if e.DataReady? && !s.ended { DeliverKeeps(s, e.blocks); }
  }

  lemma {:induction false} RunKeeps(s: State, events: seq<Event>)
    requires Inv(s) && AllPossible(events)
    ensures Inv(Run(s, events)) && Extends(s, Run(s, events))
    decreases |events|
  {
    if events != [] {
      RunKeeps(s, events[..|events| - 1]);
      StepKeeps(Run(s, events[..|events| - 1]), events[|events| - 1]);
    }
  }

  /** In every run past the gate: only policy URLs are requested, at most ten redirects are followed, one new
      URL per redirect, and what was written is what was read unless a write failed. */
  lemma EveryRunIsSafe(s: State, url: Text, events: seq<Event>)
    requires Started(s, url) && InGrammar(url) && AllPossible(events)
    ensures var t := Run(s, events);
            && (forall k :: 0 <= k < |t.requested| ==> InGrammar(t.requested[k]))
            && t.redirects == |t.requested| - 1 <= 10 && t.requested[0] == url
            && t.written <= t.received && (t.exit != 2 ==> t.written == t.received)
  {
    RunKeeps(s, events);
  }

  /** The redirect counter counts over the whole run: it is the same at a step or one larger, never reset. */
  lemma CounterIsNeverReset(s: State, e: Event)
    requires Inv(s) && Possible(e)
    ensures Step(s, e).redirects == s.redirects ||
            (Step(s, e).redirects == s.redirects + 1 && e.HeaderDone? && e.redirect && s.redirects < 10
             && Step(s, e).requested == s.requested + [e.location.value])
  {
    if e.DataReady? && !s.ended { DeliverKeeps(s, e.blocks); }
  }

  /** What ends a run with status 0: a complete end of data, or status 416 in an answer that is neither refused
      nor followed as a redirect. */
  ghost predicate EndsWell(s: State, e: Event) {
    || (e.Eof? && e.complete)
    || (e.HeaderDone? && e.status == 416 && RedirectAllowed(s, e) && (s.redirects == MAX_REDIRECTS || e.followed == 0))
  }

  /** A step ends the run with status 0 exactly in these cases, and then all that was read is written; a 416
      straight after the first headers leaves nothing written at all. */
  lemma ZeroMeansComplete(s: State, e: Event)
    requires Inv(s) && Possible(e) && !s.ended
    ensures Step(s, e).ended && Step(s, e).exit == 0 <==> EndsWell(s, e)
    ensures EndsWell(s, e) ==> Step(s, e).written == Step(s, e).received == s.received
    ensures EndsWell(s, e) && !s.output ==> Step(s, e).written == []
  {
    if e.DataReady? { DeliverKeeps(s, e.blocks); }
  }

  ghost predicate EndsWellAt(s: State, events: seq<Event>, k: nat)
    requires k < |events| && AllPossible(events)
  {
    !Run(s, events[..k]).ended && EndsWell(Run(s, events[..k]), events[k])
  }

  lemma LastStep(s: State, e: Event)
    requires Inv(s) && Possible(e)
    ensures var r := Step(s, e);
            && (r.ended && r.exit == 0 <==> (s.ended && s.exit == 0) || (!s.ended && EndsWell(s, e)))
            && (s.ended ==> r == s)
            && (r.ended && r.exit == 0 ==> r.written == r.received)
  {
    StepKeeps(s, e);
    if !s.ended {
      ZeroMeansComplete(s, e);
      hide Step, EndsWell, InGrammar;
    }
  }

  /** Over every run past the gate: it has ended with status 0 exactly if such an event came while it was still
      going on; and then everything read is written. */
  lemma {:induction false} ZeroExactlyIf(s: State, url: Text, events: seq<Event>)
    requires Started(s, url) && InGrammar(url) && AllPossible(events)
    ensures var t := Run(s, events);
            && (t.ended && t.exit == 0 <==> exists k: nat :: k < |events| && EndsWellAt(s, events, k))
            && (t.ended && t.exit == 0 ==> t.written == t.received)
    decreases |events|
  {
    hide Inv, EndsWell, EndsWellAt, Step, Extends, Possible, InGrammar;
    if events != [] {
      var n := |events| - 1;
      var front := events[..n];
      ZeroExactlyIf(s, url, front);
      RunKeeps(s, front);
      LastStep(Run(s, front), events[n]);
      EndsEarlier(s, events);
    }
  }

  /** A good end of the run is one of the run without its last event, or the last event. */
  lemma EndsEarlier(s: State, events: seq<Event>)
    requires events != [] && AllPossible(events)
    ensures var front, n := events[..|events| - 1], |events| - 1;
            (exists k: nat :: k < |events| && EndsWellAt(s, events, k)) <==>
            (exists k: nat :: k < n && EndsWellAt(s, front, k))
            || (!Run(s, front).ended && EndsWell(Run(s, front), events[n]))
  {
    hide EndsWell, Step, Possible, Run;
    var front, n := events[..|events| - 1], |events| - 1;
    forall k: nat | k < n ensures EndsWellAt(s, front, k) <==> EndsWellAt(s, events, k) {
      assert front[..k] == events[..k];
    }
    assert EndsWellAt(s, events, n) <==> !Run(s, front).ended && EndsWell(Run(s, front), events[n]);
  }

  /** The data of all blocks of all deliveries. */
  function DataOf(events: seq<Event>): seq<byte> {
    if events == [] then []
    else
      var e := events[|events| - 1];
      DataOf(events[..|events| - 1]) + if e.DataReady? then BlockData(e.blocks) else []
  }

  function BlockData(blocks: seq<Block>): seq<byte> {
    if blocks == [] then [] else blocks[0].data + BlockData(blocks[1..])
  }

  /** Deliveries in which no write call fails. */
  predicate Flowing(events: seq<Event>) {
    forall k :: 0 <= k < |events| ==>
      events[k].DataReady? && forall b :: 0 <= b < |events[k].blocks| ==> Unbroken(events[k].blocks[b].writes)
  }

  lemma {:induction false} DeliveredIsWritten(s: State, blocks: seq<Block>)
    requires Inv(s) && !s.ended && s.output && Possible(DataReady(blocks))
    requires forall b :: 0 <= b < |blocks| ==> Unbroken(blocks[b].writes)
    ensures var t := Deliver(s, blocks);
            Inv(t) && !t.ended && t.output && t.written == s.written + BlockData(blocks)
    decreases |blocks|
  {
    if blocks != [] {
      var data := blocks[0].data;
      var calls := WritesAddUp(0, |data|, blocks[0].writes);
      var (t, broken) := TakeBlock(s, blocks[0]);
      assert data[..|data|] == data;
      DeliveredIsWritten(t, blocks[1..]);
      assert s.written + data + BlockData(blocks[1..]) == s.written + (data + BlockData(blocks[1..]));
    }
  }

  /** A delivery goes through as a whole, or up to the write call that fails in block k. */
  ghost predicate Delivered(s: State, blocks: seq<Block>, t: State, k: nat) {
    && k <= |blocks| && (t.ended <==> k < |blocks|)
    && (forall b :: 0 <= b < k ==> Settles(0, |blocks[b].data|, blocks[b].writes)
                                   && !WriteFrom(0, |blocks[b].data|, blocks[b].writes).1)
    && if k == |blocks| then t.received == s.received + BlockData(blocks) && t.written == s.written + BlockData(blocks)
       else
         && Settles(0, |blocks[k].data|, blocks[k].writes) && WriteFrom(0, |blocks[k].data|, blocks[k].writes).1
         && t.received == s.received + BlockData(blocks[..k]) + blocks[k].data
         && t.written == s.written + BlockData(blocks[..k])
                         + blocks[k].data[..WriteFrom(0, |blocks[k].data|, blocks[k].writes).0]
  }

  lemma {:induction false} DeliveredUpTo(s: State, blocks: seq<Block>) returns (k: nat)
    requires Inv(s) && !s.ended && s.output && Possible(DataReady(blocks))
    ensures Delivered(s, blocks, Deliver(s, blocks), k)
    decreases |blocks|
  {
    k := 0;
    if blocks != [] {
      var (t, broken) := TakeBlock(s, blocks[0]);
      TakenBlock(s, blocks[0]);
      if broken {
        assert blocks[..0] == [] && BlockData(blocks[..0]) == [];
      } else {
        var more := DeliveredUpTo(t, blocks[1..]);
        k := more + 1;
        hide Inv, TakeBlock, Deliver;
        OneMoreDelivered(s, blocks, t, Deliver(t, blocks[1..]), more);
      }
    }
  }

  lemma TakenBlock(s: State, block: Block)
    requires Inv(s) && !s.ended && s.output && 0 < |block.data| <= 256 && Settles(0, |block.data|, block.writes)
    ensures var (t, broken) := TakeBlock(s, block);
            var (done, stopped) := WriteFrom(0, |block.data|, block.writes);
            && broken == stopped && t.received == s.received + block.data && t.written == s.written + block.data[..done]
            && !t.ended && t.output && (!broken ==> Inv(t) && t.written == s.written + block.data)
  {
    var (done, _) := WriteFrom(0, |block.data|, block.writes);
    if done == |block.data| { assert block.data[..done] == block.data; }
    hide InGrammar, Settles;
  }

  lemma OneMoreDelivered(s: State, blocks: seq<Block>, t: State, r: State, k: nat)
    requires blocks != [] && Delivered(t, blocks[1..], r, k)
    requires Settles(0, |blocks[0].data|, blocks[0].writes) && !WriteFrom(0, |blocks[0].data|, blocks[0].writes).1
    requires t.received == s.received + blocks[0].data && t.written == s.written + blocks[0].data
    ensures Delivered(s, blocks, r, k + 1)
  {
    hide Settles, WriteFrom;
    BlockDataPrepends(blocks, k + 1);
    assert blocks[..k + 1][1..] == blocks[1..][..k];
    assert forall b :: 0 <= b < k ==> blocks[1..][b] == blocks[b + 1];
  }

  lemma BlockDataPrepends(blocks: seq<Block>, k: nat)
    requires 1 <= k <= |blocks|
    ensures BlockData(blocks[..k]) == blocks[0].data + BlockData(blocks[1..][..k - 1])
  {
    assert blocks[..k][1..] == blocks[1..][..k - 1];
  }

  lemma {:induction false} FlowIsWritten(s: State, body: seq<Event>)
    requires Inv(s) && !s.ended && s.output && AllPossible(body) && Flowing(body)
    ensures var t := Run(s, body); Inv(t) && !t.ended && t.output && t.written == s.written + DataOf(body)
    decreases |body|
  {
    if body != [] {
      var front, e := body[..|body| - 1], body[|body| - 1];
      FlowIsWritten(s, front);
      DeliveredIsWritten(Run(s, front), e.blocks);
    }
  }

  lemma RunSnoc(s: State, events: seq<Event>, e: Event)
    requires AllPossible(events) && Possible(e)
    ensures AllPossible(events + [e]) && Run(s, events + [e]) == Step(Run(s, events), e)
  {
    assert (events + [e])[..|events|] == events;
  }

  lemma {:induction false} RunAppends(s: State, a: seq<Event>, b: seq<Event>)
    requires AllPossible(a) && AllPossible(b)
    ensures AllPossible(a + b) && Run(s, a + b) == Run(Run(s, a), b)
    decreases |b|
  {
    hide Step, Possible;
    if b == [] {
      assert a + b == a;
    } else {
      var front, e := b[..|b| - 1], b[|b| - 1];
      assert b == front + [e] && Possible(e);
      hide Run;
      RunAppends(s, a, front);
      RunSnoc(Run(s, a), front, e);
      RunSnoc(s, a + front, e);
      assert a + b == a + front + [e];
    }
  }

  /** A whole download: after any beginning, an answer of 200 or 204 that is neither refused nor followed and whose
      output file can be opened, deliveries without a broken write, and a complete end. The run ends with status 0,
      and what the answer brought is written; without an earlier answer that is all that is written. */
  lemma BodyIsWritten(s: State, url: Text, before: seq<Event>, answer: Event, body: seq<Event>, init: int)
    requires Started(s, url) && InGrammar(url) && AllPossible(before) && !Run(s, before).ended
    requires answer.HeaderDone? && Possible(answer) && answer.status in {200, 204} && answer.opens
    requires !Refused(Run(s, before), answer) && !Followed(Run(s, before), answer)
    requires AllPossible(body) && Flowing(body)
    ensures AllPossible(before + [answer] + body + [Eof(true, init)])
    ensures var t := Run(s, before + [answer] + body + [Eof(true, init)]);
            && t.ended && t.exit == 0 && t.written == Run(s, before).written + DataOf(body)
            && (!Run(s, before).output ==> t.written == DataOf(body))
  {
    hide InGrammar, Step, Run, AllPossible, Possible, Refused, Followed;
    var open := Step(Run(s, before), answer);
    RunKeeps(s, before);
    StepKeeps(Run(s, before), answer);
    AnswerIsRead(Run(s, before), answer);
    RunSnoc(s, before, answer);
    RunAppends(s, before + [answer], body);
    FlowIsWritten(open, body);
    assert Possible(Eof(true, init)) by { NothingToAsk(init); }
    RunSnoc(s, before + [answer] + body, Eof(true, init));
    EndIsGood(Run(open, body), init);
  }

  lemma NothingToAsk(init: int)
    ensures Possible(Eof(true, init))
  {
  }

  lemma EndIsGood(s: State, init: int)
    requires Inv(s) && !s.ended
    ensures var t := Step(s, Eof(true, init)); t.ended && t.exit == 0 && t.written == s.written
  {
  }

  /** Status 0 does not mean that a body arrived: a first answer of 416 ends the run so. */
  lemma EmptySuccess(url: Text) returns (s: State, e: Event)
    requires InGrammar(url)
    ensures Started(s, url) && Possible(e) && Step(s, e).ended && Step(s, e).exit == 0 && Step(s, e).written == []
  {
    s := State([], false, false, false, 0, [url], false, 0, false, 0, [], []);
    e := HeaderDone(416, false, None, 0, false, 0, true);
  }

  /** A redirect outside the policy is refused before it is requested. */
  lemma BadRedirectIsRefused(s: State, e: Event)
    requires Inv(s) && Possible(e) && !s.ended && e.HeaderDone? && e.redirect
    requires s.redirects >= 10 || e.location.None? || !InGrammar(e.location.value)
    ensures Step(s, e) == s.(ended := true, exit := 8)
  {
  }
}
