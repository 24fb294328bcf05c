/** The two halves of reporting together: an agent's buffer, a channel that loses, delays
    and repeats, and a server that deduplicates. A reading that leaves the buffer as
    acknowledged was counted, it or one that the server takes for it. */
module ReportRuns {
  import opened Basics
  import opened Calendar
  import opened RollupTable
  import opened Telemetry
  import opened Ingest
  import opened IngestRuns
  import opened AtMostOnce
  import A = AgentBuffer
  import Runs = AgentRuns

  type Reading = A.Reading
  type Content = Reading -> Sample

  /** What a report says beyond the fields that the buffer looks at: its sample has the
      reading's time and number, and sessions keep apart. */
  ghost predicate Faithful(content: Content) {
    && (forall r :: content(r).at == r.sampledAt && content(r).sequence == r.sequence && content(r).agent == r.agent)
    && (forall r, s :: content(r).session == content(s).session <==> r.session == s.session)
  }

  /** The steps of the agent, the events at the server, and the channel: requests by
      number, a heartbeat carrying no reading, and the replies with status 200, which say
      whether the host is paused. `waiting` is the request the sender waits on. */
  datatype Joint = Joint(steps: seq<A.Step>, events: seq<Event>, sent: map<nat, Option<Reading>>,
                         replies: set<(nat, bool)>, ids: nat, waiting: Option<nat>)

  const START := Joint([], [], map[], {}, 0, None)

  datatype Move =
    | Act(step: A.Step)                                             // of the agent alone
    | Send(now: int)
    | Deliver(id: nat, validated: int, now: int, cfg: Settings)     // perhaps again, perhaps late
    | Receive(paused: bool)
    | Sweeping(sweep: Sweep, now: int)

  ghost function Agent(j: Joint): A.Client {
    Runs.After(j.steps)
  }

  ghost function Server(j: Joint): World
    requires AllValid(j.events)
  {
    Run(j.events, 0)
  }

  ghost function Acting(j: Joint, step: A.Step): Joint {
    var steps := j.steps + [step];
    j.(steps := steps, waiting := if Runs.After(steps).phase == A.Awaiting then j.waiting else None)
  }

  ghost function Sending(j: Joint, now: int): Joint {
    var steps := j.steps + [A.Take(now)];
    j.(steps := steps, sent := j.sent[j.ids := Runs.After(steps).sending], ids := j.ids + 1, waiting := Some(j.ids))
  }

  ghost function Delivering(j: Joint, id: nat, r: Reading, e: Event): Joint
    requires AllValid(j.events) && ValidEvent(e) && e.Arrival?
  {
    var reply := Answer(Server(j).host, e.m, e.validated, e.cfg);
    j.(events := j.events + [e],
       replies := if reply.Accepted? then j.replies + {(id, false)}
                  else if reply.Suspended? then j.replies + {(id, true)}
                  else j.replies)
  }

  ghost function Moved(j: Joint, move: Move, content: Content): Joint
    requires AllValid(j.events)
  {
    match move
    case Act(step) => if step.Take? || step.Apply? then j else Acting(j, step)
    case Send(now) => if Agent(j).reporting && Agent(j).phase == A.Idle then Sending(j, now) else j
    case Deliver(id, validated, now, cfg) =>
      if id !in j.sent then j
      else if j.sent[id].None? then j.(replies := j.replies + {(id, cfg.paused)})
      else
        var e := Arrival(content(j.sent[id].value), validated, now, cfg);
        if ValidEvent(e) then Delivering(j, id, j.sent[id].value, e) else j
    case Receive(paused) =>
      if j.waiting.Some? && (j.waiting.value, paused) in j.replies then Acting(j, A.Apply(paused)) else j
    case Sweeping(sweep, now) => j.(events := j.events + [Cleanup(sweep, now)])
  }

  lemma MovedIsValid(j: Joint, move: Move, content: Content)
    requires AllValid(j.events)
    ensures AllValid(Moved(j, move, content).events)
  {
    hide Runs.After, Run, Answer, ValidReport;
  }

  ghost function After(moves: seq<Move>, content: Content): (j: Joint)
    ensures AllValid(j.events)
  {
    if |moves| == 0 then START
    else
      var before := After(moves[..|moves| - 1], content);
      MovedIsValid(before, moves[|moves| - 1], content);
      Moved(before, moves[|moves| - 1], content)
  }

  // ---- the invariant ----

  /** The server counted the reading's sample, or another of its identity or second. */
  ghost predicate Known(j: Joint, m: Sample)
    requires AllValid(j.events)
  {
    exists c :: c in Server(j).counted && Collides(c, m)
  }

  ghost predicate Numbered(j: Joint) {
    && (forall id :: id in j.sent ==> id < j.ids)
    && (forall p :: p in j.replies ==> p.0 in j.sent)
    && (j.waiting.Some? <==> Agent(j).phase == A.Awaiting)
    && (j.waiting.Some? ==> j.waiting.value in j.sent && j.sent[j.waiting.value] == Agent(j).sending)
  }

  /** A reply that is not a pause acknowledges what is known. */
  ghost predicate Honest(j: Joint, content: Content)
    requires AllValid(j.events)
  {
    forall id :: (id, false) in j.replies && id in j.sent && j.sent[id].Some? ==> Known(j, content(j.sent[id].value))
  }

  /** The removal of a reading that was not discarded by a pause. */
  predicate Acknowledges(c: A.Client, step: A.Step, r: Reading) {
    step.Remove? && c.phase == A.Removing && c.sending == Some(r) && !c.paused
  }

  ghost predicate About(j: Joint, content: Content)
    requires AllValid(j.events)
  {
    var c := Agent(j);
    c.phase == A.Removing && c.sending.Some? && !c.paused ==> Known(j, content(c.sending.value))
  }

  ghost predicate Past(j: Joint, content: Content)
    requires AllValid(j.events)
  {
    forall k, r :: 0 <= k < |j.steps| && Acknowledges(Runs.After(j.steps[..k]), j.steps[k], r) ==> Known(j, content(r))
  }

  ghost predicate Inv(j: Joint, content: Content) {
    AllValid(j.events) && Numbered(j) && Honest(j, content) && About(j, content) && Past(j, content)
  }

  // ---- each move keeps it ----

  lemma CountedStays(j: Joint, e: Event)
    requires AllValid(j.events) && ValidEvent(e)
    ensures AllValid(j.events + [e])
    ensures Run(j.events + [e], 0) == Step(Run(j.events, 0), e)
    ensures forall m :: m in Run(j.events, 0).counted ==> m in Run(j.events + [e], 0).counted
  {
    var events := j.events + [e];
    assert events[..|events| - 1] == j.events;
    StepCounts(Run(j.events, 0), e);
  }

  lemma StepCounts(w: World, e: Event)
    requires ValidEvent(e)
    ensures forall m :: m in w.counted ==> m in Step(w, e).counted
  {
    hide Derive, Contribution, Apportioned, Answer, Ordered, Swept;
  }

  lemma ServerMoveKeeps(j: Joint, k: Joint, content: Content)
    requires Inv(j, content) && AllValid(k.events) && k.steps == j.steps && k.sent == j.sent && k.ids == j.ids
    requires k.waiting == j.waiting
    requires forall m :: m in Server(j).counted ==> m in Server(k).counted
    requires forall p :: p in k.replies ==> p.0 in k.sent
    requires forall id :: (id, false) in k.replies && (id, false) !in j.replies && k.sent[id].Some? ==>
      Known(k, content(k.sent[id].value))
    ensures Inv(k, content)
  {
    hide Run, Runs.After, Collides;
    forall m | Known(j, m) ensures Known(k, m) {
      var c :| c in Server(j).counted && Collides(c, m);
      assert c in Server(k).counted;
    }
    hide Known;
  }

  lemma DeliverKeeps(j: Joint, move: Move, content: Content)
    requires Inv(j, content) && move.Deliver?
    ensures Inv(Moved(j, move, content), content)
  {
    var id := move.id;
    if id in j.sent {
      hide Inv;
      var k := Moved(j, move, content);
      if j.sent[id].Some? {
        var e := Arrival(content(j.sent[id].value), move.validated, move.now, move.cfg);
        if ValidEvent(e) {
          CountedStays(j, e);
          if Answer(Server(j).host, e.m, e.validated, e.cfg).Accepted? {
            AcknowledgementMeans(j.events, 0, e);
            assert Known(k, e.m);
          }
        }
      }
      assert AllValid(k.events) && k.steps == j.steps && k.sent == j.sent by { MovedIsValid(j, move, content); }
      Replied(j, content);
      hide Known, Run, Runs.After, Answer, ValidEvent;
      ServerMoveKeeps(j, k, content);
    }
  }

  lemma Replied(j: Joint, content: Content)
    requires Inv(j, content)
    ensures forall p :: p in j.replies ==> p.0 in j.sent
  {}

  lemma SweepKeeps(j: Joint, sweep: Sweep, now: int, content: Content)
    requires Inv(j, content)
    ensures Inv(Moved(j, Sweeping(sweep, now), content), content)
  {
    CountedStays(j, Cleanup(sweep, now));
    Replied(j, content);
    hide Inv, Known, Run, Runs.After;
    ServerMoveKeeps(j, Moved(j, Sweeping(sweep, now), content), content);
  }

  lemma StepUnfolds(steps: seq<A.Step>, step: A.Step)
    ensures Runs.After(steps + [step]) == A.Next(Runs.After(steps), step)
    ensures forall k :: 0 <= k <= |steps| ==> (steps + [step])[..k] == steps[..k]
  {
    hide A.Next;
    assert (steps + [step])[..|steps|] == steps;
  }

  /** The agent's step from c to d, with request numbers that fit. */
  lemma AgentMoveKeeps(j: Joint, k: Joint, step: A.Step, content: Content)
    requires Inv(j, content) && k.events == j.events && k.replies == j.replies && k.steps == j.steps + [step]
    requires Numbered(k)
    requires forall id :: id in j.sent ==> id in k.sent && k.sent[id] == j.sent[id]
    requires About(k, content)
    ensures Inv(k, content)
  {
    StepUnfolds(j.steps, step);
    hide Run, Runs.After, A.Next;
    assert forall m :: Known(j, m) ==> Known(k, m);
    hide Known;
    forall i, r | 0 <= i < |k.steps| && Acknowledges(Runs.After(k.steps[..i]), k.steps[i], r)
      ensures Known(k, content(r))
    {
      if i < |j.steps| {
        assert k.steps[..i] == j.steps[..i] && k.steps[i] == j.steps[i];
      } else {
        assert k.steps[..i] == j.steps;
      }
    }
  }

  /** A step of the agent alone starts no removal and sends nothing. */
  lemma QuietPhases(c: A.Client, step: A.Step)
    requires !step.Take? && !step.Apply?
    requires c.reporting || c.phase == A.Idle
    ensures var d := A.Next(c, step);
      && (d.phase == A.Removing ==> c.phase == A.Removing && d.sending == c.sending && d.paused == c.paused)
      && (d.phase == A.Awaiting ==> c.phase == A.Awaiting && d.sending == c.sending)
  {
    hide A.Fitted, A.Without, A.Chosen, A.Capped;
  }

  lemma ActKeeps(j: Joint, step: A.Step, content: Content)
    requires Inv(j, content) && !step.Take? && !step.Apply?
    ensures Inv(Acting(j, step), content)
  {
    StepUnfolds(j.steps, step);
    Runs.RunKeeps(j.steps);
    var c := Agent(j);
    assert c.reporting || c.phase == A.Idle;
    QuietPhases(c, step);
    hide Run, Runs.After, A.Next, Known, Runs.Inv;
    AgentMoveKeeps(j, Acting(j, step), step, content);
  }

  lemma SendKeeps(j: Joint, now: int, content: Content)
    requires Inv(j, content) && Agent(j).reporting && Agent(j).phase == A.Idle
    ensures Inv(Sending(j, now), content)
  {
    StepUnfolds(j.steps, A.Take(now));
    hide Run, Runs.After, A.Young, Known;
    AgentMoveKeeps(j, Sending(j, now), A.Take(now), content);
  }

  lemma ReceiveKeeps(j: Joint, paused: bool, content: Content)
    requires Inv(j, content) && j.waiting.Some? && (j.waiting.value, paused) in j.replies
    ensures Inv(Acting(j, A.Apply(paused)), content)
  {
    StepUnfolds(j.steps, A.Apply(paused));
    Runs.RunKeeps(j.steps);
    var c := Agent(j);
    assert c.reporting;
    var k := Acting(j, A.Apply(paused));
    assert About(k, content) by {
      if !paused && c.sending.Some? {
        assert j.sent[j.waiting.value] == Some(c.sending.value);
        assert Known(j, content(c.sending.value)) && Server(k) == Server(j);
      }
      hide Run, Runs.After, Known;
    }
    hide Run, Runs.After, Known, About, Runs.Inv;
    AgentMoveKeeps(j, k, A.Apply(paused), content);
  }

  lemma MoveKeeps(j: Joint, move: Move, content: Content)
    requires Inv(j, content)
    ensures Inv(Moved(j, move, content), content)
  {
    match move
    case Act(step) => if !step.Take? && !step.Apply? { ActKeeps(j, step, content); }
    case Send(now) => if Agent(j).reporting && Agent(j).phase == A.Idle { SendKeeps(j, now, content); }
    case Deliver(_, _, _, _) => DeliverKeeps(j, move, content);
    case Receive(paused) =>
      if j.waiting.Some? && (j.waiting.value, paused) in j.replies { ReceiveKeeps(j, paused, content); }
    case Sweeping(sweep, now) => SweepKeeps(j, sweep, now, content);
  }

  lemma {:induction false} RunKeeps(moves: seq<Move>, content: Content)
    ensures Inv(After(moves, content), content)
  {
    hide Moved;
    if |moves| > 0 {
      RunKeeps(moves[..|moves| - 1], content);
      MoveKeeps(After(moves[..|moves| - 1], content), moves[|moves| - 1], content);
    } else {
      NothingYet(content);
    }
    hide Inv;
  }

  lemma NothingYet(content: Content)
    ensures Inv(START, content) && After([], content) == START
  {}

  // ---- whose samples were counted ----

  /** Collected at some step of the agent. */
  ghost predicate Collected(steps: seq<A.Step>, r: Reading) {
    exists i :: 0 <= i < |steps| && Runs.New(Runs.After(steps[..i]), steps[i], r)
  }

  /** Only collected readings are sent, and only their samples counted. */
  ghost predicate Sourced(j: Joint, content: Content)
    requires AllValid(j.events)
  {
    && (forall id :: id in j.sent && j.sent[id].Some? ==> Collected(j.steps, j.sent[id].value))
    && (forall m :: m in Server(j).counted ==> exists q :: Collected(j.steps, q) && content(q) == m)
  }

  lemma StillCollected(steps: seq<A.Step>, step: A.Step, r: Reading)
    requires Collected(steps, r)
    ensures Collected(steps + [step], r)
  {
    StepUnfolds(steps, step);
    hide Runs.After, Runs.New;
    var i :| 0 <= i < |steps| && Runs.New(Runs.After(steps[..i]), steps[i], r);
    assert (steps + [step])[..i] == steps[..i] && (steps + [step])[i] == steps[i];
  }

  lemma OnlyThisIsCounted(w: World, e: Event)
    requires ValidEvent(e)
    ensures forall m :: m in Step(w, e).counted ==> m in w.counted || (e.Arrival? && m == e.m)
  {
    hide Derive, Contribution, Apportioned, Answer, Ordered, Swept;
  }

  lemma AgentMoveIsSourced(j: Joint, k: Joint, step: A.Step, content: Content)
    requires AllValid(j.events) && Sourced(j, content)
    requires k.events == j.events && k.steps == j.steps + [step]
    requires forall id :: id in k.sent ==>
      (id in j.sent && k.sent[id] == j.sent[id]) || k.sent[id] == Runs.After(k.steps).sending
    ensures Sourced(k, content)
  {
    forall r | Collected(j.steps, r) ensures Collected(k.steps, r) { StillCollected(j.steps, step, r); }
    forall r | Runs.After(k.steps).sending == Some(r) ensures Collected(k.steps, r) {
      Runs.OnlyCollectedReadings(k.steps, r);
    }
    hide Collected, Runs.After, Run;
    assert Server(k) == Server(j);
  }

  lemma EventIsSourced(j: Joint, k: Joint, e: Event, content: Content)
    requires AllValid(j.events) && Sourced(j, content) && ValidEvent(e) && k.events == j.events + [e]
    requires k.steps == j.steps && k.sent == j.sent
    requires e.Arrival? ==> exists q :: Collected(j.steps, q) && content(q) == e.m
    ensures AllValid(k.events) && Sourced(k, content)
  {
    CountedStays(j, e);
    OnlyThisIsCounted(Server(j), e);
    hide Collected, Run, Step, ValidEvent;
  }

  lemma MoveIsSourced(j: Joint, move: Move, content: Content)
    requires Inv(j, content) && Sourced(j, content)
    ensures AllValid(Moved(j, move, content).events) && Sourced(Moved(j, move, content), content)
  {
    MovedIsValid(j, move, content);
    hide Inv, Collected, Runs.After, Run, Answer, ValidReport;
    var k := Moved(j, move, content);
    assert k.events == j.events ==> Server(k) == Server(j);
    match move
    case Act(step) => if !step.Take? && !step.Apply? { AgentMoveIsSourced(j, k, step, content); }
    case Send(now) => if k != j { AgentMoveIsSourced(j, k, A.Take(now), content); }
    case Deliver(id, validated, now, cfg) =>
      if id in j.sent && j.sent[id].Some? {
        var e := Arrival(content(j.sent[id].value), validated, now, cfg);
        if ValidEvent(e) { EventIsSourced(j, k, e, content); }
      }
    case Receive(paused) => if k != j { AgentMoveIsSourced(j, k, A.Apply(paused), content); }
    case Sweeping(sweep, now) => EventIsSourced(j, k, Cleanup(sweep, now), content);
  }

  lemma {:induction false} RunIsSourced(moves: seq<Move>, content: Content)
    ensures Sourced(After(moves, content), content)
  {
    hide Moved, Inv;
    if |moves| > 0 {
      RunKeeps(moves[..|moves| - 1], content);
      RunIsSourced(moves[..|moves| - 1], content);
      hide Sourced;
      MoveIsSourced(After(moves[..|moves| - 1], content), moves[|moves| - 1], content);
    } else {
      NothingYet(content);
    }
  }

  /** A reading of the same second, the reading itself or another, was counted. */
  ghost predicate SecondCounted(j: Joint, content: Content, r: Reading)
    requires AllValid(j.events)
  {
    exists q :: Collected(j.steps, q) && content(q) in Server(j).counted && q.sampledAt / SECOND == r.sampledAt / SECOND
  }

  /** Identities at the server are keys in the buffer, and samples collide there when their
      readings have one key or were taken in one second. */
  lemma KeysAreIdentities(content: Content, r: Reading, s: Reading)
    requires Faithful(content)
    ensures Id(content(r)) == Id(content(s)) <==> A.SameKey(r, s)
    ensures Collides(content(r), content(s)) <==> A.SameKey(r, s) || r.sampledAt / SECOND == s.sampledAt / SECOND
  {}

  /** What the server knows, in terms of readings: as no key is used twice, a reading is
      known exactly when one of its second was counted. */
  lemma KnownBySecond(moves: seq<Move>, content: Content, r: Reading)
    requires Faithful(content) && Collected(After(moves, content).steps, r)
    ensures var j := After(moves, content); Known(j, content(r)) <==> SecondCounted(j, content, r)
  {
    RunIsSourced(moves, content);
    var j := After(moves, content);
    hide After, Run, Runs.After, Faithful;
    if Known(j, content(r)) {
      var m :| m in Server(j).counted && Collides(m, content(r));
      var q :| Collected(j.steps, q) && content(q) == m;
      KeysAreIdentities(content, q, r);
      OneReadingPerKey(j.steps, q, r);
    }
    if SecondCounted(j, content, r) {
      var q :| Collected(j.steps, q) && content(q) in Server(j).counted && q.sampledAt / SECOND == r.sampledAt / SECOND;
      KeysAreIdentities(content, q, r);
    }
  }

  lemma OneReadingPerKey(steps: seq<A.Step>, q: Reading, r: Reading)
    requires Collected(steps, q) && Collected(steps, r)
    ensures A.SameKey(q, r) <==> q == r
  {
    hide Runs.New, Runs.After;
    var i :| 0 <= i < |steps| && Runs.New(Runs.After(steps[..i]), steps[i], q);
    var k :| 0 <= k < |steps| && Runs.New(Runs.After(steps[..k]), steps[k], r);
    Runs.KeysAreUsedOnce(steps, i, k, q, r);
  }

  // ---- main results ----

  /** When the agent is about to remove a reading it did not discard by a pause, the server
      has counted its sample, or another of its identity or second; of all readings that
      were collected, one of the same second. */
  lemma AcknowledgedWasCounted(moves: seq<Move>, content: Content)
    requires Agent(After(moves, content)).phase == A.Removing && !Agent(After(moves, content)).paused
    ensures var j := After(moves, content);
      Agent(j).sending.Some? && exists c :: c in Server(j).counted && Collides(c, content(Agent(j).sending.value))
    ensures var j := After(moves, content);
      Faithful(content) ==> SecondCounted(j, content, Agent(j).sending.value)
  {
    RunKeeps(moves, content);
    var j := After(moves, content);
    Runs.RunKeeps(j.steps);
    Runs.OnlyCollectedReadings(j.steps, Agent(j).sending.value);
    if Faithful(content) { KnownBySecond(moves, content, Agent(j).sending.value); }
    hide After, Run, Runs.After, Collides, Faithful, SecondCounted;
  }

  /** End to end, under any interleaving of collector, sender, channel, server, crashes and
      clean-ups: a reading that was collected is still held, or known to the server, or
      was lost at a named step to a cause other than an acknowledgement. Known to the
      server means that a reading of the same second was counted, and if reports are
      stored in time, nothing was counted twice. */
  lemma EveryReadingArrivesOrIsExplained(moves: seq<Move>, content: Content, i: nat, r: Reading)
    requires var j := After(moves, content); i < |j.steps| && Runs.New(Runs.After(j.steps[..i]), j.steps[i], r)
    ensures var j := After(moves, content);
      || r in Runs.Held(Agent(j))
      || Known(j, content(r))
      || exists k :: i <= k < |j.steps| && Runs.LostAt(Runs.After(j.steps[..k]), j.steps[k], r)
           && !Acknowledges(Runs.After(j.steps[..k]), j.steps[k], r)
    ensures var j := After(moves, content);
      Faithful(content) ==> (Known(j, content(r)) <==> SecondCounted(j, content, r))
    ensures var j := After(moves, content); Timely(j.events, 0, SLACK) ==> NoRepeats(Server(j).counted)
  {
    RunKeeps(moves, content);
    var j := After(moves, content);
    if Timely(j.events, 0, SLACK) { CountedAtMostOnce(j.events, 0); }
    Runs.EveryReadingIsAccountedFor(j.steps, i, r);
    if Faithful(content) { KnownBySecond(moves, content, r); }
    hide After, Known, Faithful, SecondCounted, Runs.LostAt, Runs.After, Acknowledges, Runs.New;
  }

  /** The cause that is left out is the acknowledgement of this very reading: whatever else
      a removal loses was never saved, and the process ended. */
  lemma RemovalLosesOnlyIt(steps: seq<A.Step>, writable: bool, r: Reading)
    requires Runs.LostAt(Runs.After(steps), A.Remove(writable), r)
    ensures var c := Runs.After(steps);
      Acknowledges(c, A.Remove(writable), r) || (!writable && !c.collecting && r !in c.file)
  {
    Runs.RunKeeps(steps);
    Runs.KeysNameReadings(steps);
    var c := Runs.After(steps);
    hide Runs.After, A.Next;
    if writable || c.collecting { assert Runs.Has(c, r) && Runs.Has(c, c.sending.value); }
  }

  // ---- a run in which a reading arrives ----

  lemma AfterMove(moves: seq<Move>, move: Move, content: Content)
    ensures After(moves + [move], content) == Moved(After(moves, content), move, content)
  {
    assert (moves + [move])[..|moves|] == moves;
    hide Moved;
  }

  const STARTED := A.Boot("agent", 0, None, true, {})
  const COLLECTED := A.Collect(0, 100, true)
  const ONLY := A.Reading("agent", 1, 1, 0, 100)

  function SessionName(n: nat): (r: string)
    ensures |r| == n
  {
    seq(n, _ => 's')
  }

  /** The plain sample with the identity and the time of a reading. */
  function Sampled(r: Reading): Sample {
    BLANK.(agent := r.agent, session := SessionName(r.session), sequence := r.sequence, at := r.sampledAt)
  }

  lemma SampledIsFaithful()
    ensures Faithful(Sampled) && Sampled(ONLY) == BLANK
  {
    assert SessionName(1) == "s";
    hide SessionName;
  }

  lemma FirstReading()
    ensures Runs.After([STARTED] + [COLLECTED])
      == A.Client("agent", true, true, false, [ONLY], [ONLY], 1, 1, A.Idle, None)
    ensures Runs.After([STARTED]) == A.Client("agent", true, true, false, [], [], 1, 0, A.Idle, None)
  {
    StepUnfolds([], STARTED);
    StepUnfolds([STARTED], COLLECTED);
    assert [] + [STARTED] == [STARTED];
    assert Runs.After([]) == A.NEW by { NoSteps(); }
    hide Runs.After;
    var none: A.Queue := [];
    assert A.Encoded([ONLY]) == 102 by { assert [ONLY][1..] == none; }
    assert none + [ONLY] == [ONLY];
  }

  lemma NoSteps()
    ensures Runs.After([]) == A.NEW
  {}

  lemma ReadingIsSent()
    ensures var c := Runs.After([STARTED] + [COLLECTED] + [A.Take(0)]);
      && c == A.Client("agent", true, true, false, [ONLY], [ONLY], 1, 1, A.Awaiting, Some(ONLY))
      && Runs.After([STARTED] + [COLLECTED] + [A.Take(0)] + [A.Apply(false)]) == c.(phase := A.Removing)
  {
    FirstReading();
    StepUnfolds([STARTED] + [COLLECTED], A.Take(0));
    StepUnfolds([STARTED] + [COLLECTED] + [A.Take(0)], A.Apply(false));
    hide Runs.After;
  }

  const COLLECTING := [STARTED] + [COLLECTED]
  const SENT := Joint(COLLECTING + [A.Take(0)], [], map[0 := Some(ONLY)], {}, 1, Some(0))
  const ANSWERED := SENT.(events := [Arrival(BLANK, 0, 0, PLAIN)], replies := {(0, false)})

  lemma ReportIsSent(content: Content)
    ensures After([Act(STARTED)] + [Act(COLLECTED)] + [Send(0)], content) == SENT
  {
    FirstReading();
    ReadingIsSent();
    AfterMove([], Act(STARTED), content);
    AfterMove([Act(STARTED)], Act(COLLECTED), content);
    AfterMove([Act(STARTED)] + [Act(COLLECTED)], Send(0), content);
    assert After([], content) == START by { NothingYet(content); }
    hide After, Runs.After;
    assert [] + [Act(STARTED)] == [Act(STARTED)] && [] + [STARTED] == [STARTED];
    assert After([Act(STARTED)] + [Act(COLLECTED)], content) == START.(steps := COLLECTING);
  }

  lemma ReportIsAnswered(content: Content)
    requires content(ONLY) == BLANK
    ensures AllValid(SENT.events) && Moved(SENT, Deliver(0, 0, 0, PLAIN), content) == ANSWERED
  {
    BlankIsAnswered(FRESH, 0);
    NothingReported();
    hide Runs.After, Answer, ValidReport, Run;
    assert SENT.replies + {(0, false)}
        == {(0, false)} && SENT.events + [Arrival(BLANK, 0, 0, PLAIN)] == ANSWERED.events;
  }

  lemma AnswerIsReceived(content: Content)
    requires AllValid(ANSWERED.events)
    ensures Moved(ANSWERED, Receive(false), content)
        == ANSWERED.(steps := SENT.steps + [A.Apply(false)], waiting := None)
  {
    ReadingIsSent();
    hide Runs.After;
  }

  /** Nothing stands in the way of the theorems above: a reading is collected, reported,
      counted and acknowledged. */
  lemma OneReadingArrives()
    ensures Faithful(Sampled) && Sampled(ONLY) == BLANK
    ensures var moves := [Act(STARTED)] + [Act(COLLECTED)] + [Send(0)] + [Deliver(0, 0, 0, PLAIN)] + [Receive(false)];
      var j := After(moves, Sampled);
      && Agent(j).phase == A.Removing && !Agent(j).paused && Agent(j).sending == Some(ONLY)
      && j.events == [Arrival(BLANK, 0, 0, PLAIN)]
  {
    var content: Content := Sampled;
    SampledIsFaithful();
    var sent := [Act(STARTED)] + [Act(COLLECTED)] + [Send(0)];
    ReportIsSent(content);
    ReportIsAnswered(content);
    AfterMove(sent, Deliver(0, 0, 0, PLAIN), content);
    AfterMove(sent + [Deliver(0, 0, 0, PLAIN)], Receive(false), content);
    hide After, Moved, Runs.After, PLAIN, BLANK;
    assert After(sent + [Deliver(0, 0, 0, PLAIN)], content) == ANSWERED;
    AnswerIsReceived(content);
    ReadingIsSent();
  }

  lemma NothingReported()
    ensures AllValid([]) && Run([], 0).host == FRESH
  {}
}
