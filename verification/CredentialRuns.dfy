/** Runs of the credential protocol: one binding, one agent, and a channel that may lose,
    delay, reorder and repeat anything that was ever sent. */
module CredentialRuns {
  import opened Basics
  import opened Credentials

  /** `retired`, `revoked` and `failed` only record history: the credentials that were
      promoted over, those that were valid when the binding was disabled, and the
      requests that the server refused, at least once, for a reason of its own. */
  datatype World = World(server: Server, agent: Agent, sent: map<nat, Request>, replies: set<(nat, Reply)>,
                         ids: nat, tokens: Token, retired: set<Token>, revoked: set<Token>, failed: set<nat>)

  const START :=
    World(Server(true, None, None, None, {}), Agent(Config(None, None), None, None), map[], {}, 0, 0, {}, {}, {})

  datatype Step =
    | Enable
    | Issue
    | Expire(reg: Token)
    | Rotate
    | Disable
    | Install(reg: Token)             // the operator writes a new configuration file
    | Boot
    | Crash                           // the process, or its whole host
    | Send
    | GiveUp                          // a timeout: the request or its reply was lost
    | Deliver(id: nat, o: Outcome)    // the server handles a request, perhaps again
    | Receive(reply: Reply, saved: bool)

  /** The credentials the server accepts. */
  function Valid(s: Server): (valid: set<Token>)
    ensures forall t :: t in valid <==> Accepts(s, t)
  {
    (if s.enabled && s.report.Some? then {s.report.value} else {})
    + (if s.enabled && s.pending.Some? then {s.pending.value} else {})
  }

  /** The server refuses the request whatever credential it carries. */
  predicate Refuses(q: Request, o: Outcome) {
    o.LookupFails? || (o.NamesAnother? && q.Report?)
  }

  function Next(w: World, step: Step): World {
    match step
    case Enable => w.(server := Enabled(w.server))
    case Issue => w.(server := Issued(w.server, w.tokens), tokens := w.tokens + 1)
    case Expire(r) => w.(server := w.server.(regs := w.server.regs - {r}))
    case Rotate => w.(server := Rotating(w.server, w.tokens), tokens := w.tokens + 1)
    case Disable => w.(server := Disabled(w.server), revoked := w.revoked + Valid(w.server))
    case Install(r) => if r >= w.tokens then w else w.(agent := Agent(Config(Some(r), None), None, None))
    case Boot => if w.agent.memory.Some? then w else w.(agent := w.agent.(memory := Some(w.agent.disk)))
    case Crash => w.(agent := Exited(w.agent))
    case Send =>
      if !CanSend(w.agent) then w
      else w.(agent := w.agent.(waiting := Some(w.ids)),
             sent := w.sent[w.ids := Asks(w.agent.memory.value)], ids := w.ids + 1)
    case GiveUp => w.(agent := w.agent.(waiting := None))
    case Deliver(id, o) =>
      if id !in w.sent then w
      else
        var s := Served(w.server, w.sent[id], w.tokens, o);
        w.(server := s, tokens := w.tokens + 1,
           replies := w.replies + {(id, Answer(w.server, w.sent[id], w.tokens, o))},
           retired := w.retired + (Valid(w.server) - Valid(s)),
           failed := if Refuses(w.sent[id], o) then w.failed + {id} else w.failed)
    case Receive(reply, saved) =>
      if w.agent.waiting.None? || w.agent.memory.None? || (w.agent.waiting.value, reply) !in w.replies then w
      else w.(agent := Received(w.agent, reply, saved))
  }

  function After(w: World, steps: seq<Step>): World {
    if |steps| == 0 then w else Next(After(w, steps[..|steps| - 1]), steps[|steps| - 1])
  }

  // ---- the invariant ----

  predicate Below(t: Option<Token>, bound: Token) {
    t.None? || t.value < bound
  }

  predicate RequestBelow(q: Request, bound: Token) {
    q.token < bound
  }

  predicate ReplyBelow(r: Reply, bound: Token) {
    match r
    case Registered(n) => n < bound
    case Reported(x) => Below(x, bound)
    case _ => true
  }

  /** Everything drawn so far is below the next token. */
  ghost predicate Drawn(w: World) {
    && Below(w.server.report, w.tokens) && Below(w.server.pending, w.tokens)
    && (forall r :: r in w.server.regs ==> r < w.tokens)
    && Below(w.agent.disk.report, w.tokens) && Below(w.agent.disk.reg, w.tokens)
    && (forall id :: id in w.sent ==> RequestBelow(w.sent[id], w.tokens))
    && (forall p :: p in w.replies ==> ReplyBelow(p.1, w.tokens))
    && (forall t :: t in w.retired ==> t < w.tokens) && (forall t :: t in w.revoked ==> t < w.tokens)
  }

  /** The binding row: a pending credential only beside a different current one, and
      nothing at all while disabled. */
  predicate Row(s: Server) {
    && (s.pending.Some? ==> s.report.Some? && s.report != s.pending)
    && s.secret == s.pending
    && (!s.enabled ==> s.report.None? && s.regs == {})
    && (forall a, b :: a in s.regs && b in s.regs ==> a == b)
  }

  /** The process works with the configuration that is on disk, and its requests have
      numbers of their own. */
  ghost predicate Process(w: World) {
    && (w.agent.memory.Some? ==> w.agent.memory.value == w.agent.disk)
    && (w.agent.waiting.Some? ==>
        && w.agent.memory.Some? && w.agent.waiting.value in w.sent
        && (w.agent.disk.report.Some? || w.agent.disk.reg.Some?)
        && w.sent[w.agent.waiting.value] == Asks(w.agent.disk))
    && (forall id :: id in w.sent ==> id < w.ids)
    && (forall p :: p in w.replies ==> p.0 < w.ids)
    && (forall id :: id in w.failed ==> (id, Denied) in w.replies)
  }

  predicate Dead(w: World, t: Token) {
    t in w.retired || t in w.revoked
  }

  /** The credential on disk works, unless the binding was disabled since. */
  predicate Held(w: World) {
    w.agent.disk.report.Some? ==> Accepts(w.server, w.agent.disk.report.value) || w.agent.disk.report.value in w.revoked
  }

  /** A pending credential is used in a request only once it is on disk. */
  ghost predicate Careful(w: World) {
    forall id :: id in w.sent && w.sent[id].Report? && w.server.pending == Some(w.sent[id].token) ==>
      w.agent.disk.report.None? || w.agent.disk.report == w.server.pending || w.agent.disk.report.value in w.revoked
  }

  ghost predicate NoReportUses(w: World, t: Option<Token>) {
    forall id :: id in w.sent && w.sent[id].Report? ==> t != Some(w.sent[id].token)
  }

  /** What the replies that the agent may still accept say. */
  ghost predicate Honest(w: World, reply: Reply)
    requires w.agent.waiting.Some?
  {
    match reply
    case Registered(n) =>
      w.agent.disk.report.None?
      && (n in w.revoked || (w.server.enabled && w.server.report == Some(n) && NoReportUses(w, w.server.pending)))
    case Reported(Some(x)) =>
      w.agent.disk.report.Some?
      && (x in w.revoked || (w.server.enabled && w.server.pending == Some(x) && w.server.report == w.agent.disk.report))
    case Reported(None) => w.agent.disk.report.Some?
    case Denied =>
      w.agent.disk.report.Some? ==> w.agent.disk.report.value in w.revoked || w.agent.waiting.value in w.failed
    case Unavailable => true
  }

  ghost predicate Replies(w: World) {
    w.agent.waiting.Some? ==> forall p :: p in w.replies && p.0 == w.agent.waiting.value ==> Honest(w, p.1)
  }

  /** No credential that was promoted over or revoked is valid. */
  ghost predicate Gone(w: World) {
    forall t :: Accepts(w.server, t) ==> !Dead(w, t)
  }

  ghost predicate Inv(w: World) {
    Drawn(w) && Row(w.server) && Process(w) && Held(w) && Careful(w) && Replies(w) && Gone(w)
  }

  // ---- each step keeps it ----

  lemma ServerStepKeeps(w: World, step: Step)
    requires Inv(w) && (step.Enable? || step.Issue? || step.Expire? || step.Rotate?)
    ensures Inv(Next(w, step))
  {
    var n := Next(w, step);
    forall t | Accepts(n.server, t) ensures !Dead(n, t) {
      assert Accepts(w.server, t) || t == w.tokens;
    }
  }

  lemma DisableKeeps(w: World)
    requires Inv(w)
    ensures Inv(Next(w, Disable))
  {}

  lemma AgentStepKeeps(w: World, step: Step)
    requires Inv(w) && (step.Install? || step.Boot? || step.Crash? || step.GiveUp?)
    ensures Inv(Next(w, step))
  {}

  lemma SendKeeps(w: World)
    requires Inv(w)
    ensures Inv(Next(w, Send))
  {}

  lemma UndoneDeliveryKeeps(w: World, id: nat, o: Outcome)
    requires Inv(w) && id in w.sent && Undone(w.sent[id], o)
    ensures Inv(Next(w, Deliver(id, o)))
  {
    Unchanged(w, id, o);
    hide Next;
  }

  lemma Unchanged(w: World, id: nat, o: Outcome)
    requires id in w.sent && Undone(w.sent[id], o)
    ensures Next(w, Deliver(id, o))
         == w.(tokens := w.tokens + 1, replies := w.replies + {(id, Answer(w.server, w.sent[id], w.tokens, o))},
               failed := if Refuses(w.sent[id], o) then w.failed + {id} else w.failed)
  {
    assert w.retired + (Valid(w.server) - Valid(w.server)) == w.retired;
  }

  lemma DeliverRegisterKeeps(w: World, id: nat, o: Outcome)
    requires Inv(w) && id in w.sent && w.sent[id].Register? && !Undone(w.sent[id], o)
    ensures Inv(Next(w, Deliver(id, o)))
  {}

  lemma DeliverReportKeeps(w: World, id: nat, o: Outcome)
    requires Inv(w) && id in w.sent && w.sent[id].Report? && !Undone(w.sent[id], o)
    ensures Inv(Next(w, Deliver(id, o)))
  {}

  lemma DeliverKeeps(w: World, id: nat, o: Outcome)
    requires Inv(w)
    ensures Inv(Next(w, Deliver(id, o)))
  {
    if id in w.sent {
      hide Inv, Next, Undone;
      if Undone(w.sent[id], o) {
        UndoneDeliveryKeeps(w, id, o);
      } else if w.sent[id].Register? {
        DeliverRegisterKeeps(w, id, o);
      } else {
        DeliverReportKeeps(w, id, o);
      }
    }
  }

  lemma ReceiveKeeps(w: World, reply: Reply, saved: bool)
    requires Inv(w)
    ensures Inv(Next(w, Receive(reply, saved)))
  {}

  lemma StepKeeps(w: World, step: Step)
    requires Inv(w)
    ensures Inv(Next(w, step))
  {
    hide Inv, Next;
    match step
    case Disable => DisableKeeps(w);
    case Send => SendKeeps(w);
    case Deliver(id, o) => DeliverKeeps(w, id, o);
    case Receive(reply, saved) => ReceiveKeeps(w, reply, saved);
    case Enable => ServerStepKeeps(w, step);
    case Issue => ServerStepKeeps(w, step);
    case Expire(_) => ServerStepKeeps(w, step);
    case Rotate => ServerStepKeeps(w, step);
    case Install(_) => AgentStepKeeps(w, step);
    case Boot => AgentStepKeeps(w, step);
    case Crash => AgentStepKeeps(w, step);
    case GiveUp => AgentStepKeeps(w, step);
  }

  lemma {:induction false} RunKeeps(w: World, steps: seq<Step>)
    requires Inv(w)
    ensures Inv(After(w, steps))
  {
    if |steps| > 0 {
      RunKeeps(w, steps[..|steps| - 1]);
      StepKeeps(After(w, steps[..|steps| - 1]), steps[|steps| - 1]);
    }
  }

  ghost predicate Reachable(w: World) {
    exists steps :: w == After(START, steps)
  }

  lemma ReachableInv(w: World)
    requires Reachable(w)
    ensures Inv(w)
  {
    var steps :| w == After(START, steps);
    RunKeeps(START, steps);
  }

  // ---- main results ----

  /** In every reachable state the credential in the agent's file is one the server
      accepts, unless the binding was disabled since it was issued; with no rotation
      pending it is the current one; and at most two credentials are valid. */
  lemma NeverLockedOut(w: World)
    requires Reachable(w)
    ensures w.agent.disk.report.Some? && w.agent.disk.report.value !in w.revoked ==>
      && Accepts(w.server, w.agent.disk.report.value)
      && (w.server.pending.None? ==> w.server.report == w.agent.disk.report)
    ensures |Valid(w.server)| <= 2
  {
    ReachableInv(w);
  }

  /** Exactly when a request of the running agent is refused: its credential was revoked,
      the server could not read the binding, or the sample names another agent. */
  lemma RefusedExactly(w: World, o: Outcome)
    requires Reachable(w) && w.agent.waiting.Some? && w.agent.disk.report.Some?
    ensures w.agent.waiting.value in w.sent
    ensures Answer(w.server, w.sent[w.agent.waiting.value], w.tokens, o) == Denied <==>
      w.agent.disk.report.value in w.revoked || o.LookupFails? || o.NamesAnother?
  {
    ReachableInv(w);
  }

  /** No loss, delay, repetition, failed save or crash makes the agent give up: if it is
      told that its credential is invalid, the binding was disabled, or the server
      refused this very request for a reason of its own. */
  lemma RefusedForCause(w: World)
    requires Reachable(w) && w.agent.waiting.Some? && w.agent.disk.report.Some?
    requires (w.agent.waiting.value, Denied) in w.replies
    ensures w.agent.disk.report.value in w.revoked || w.agent.waiting.value in w.failed
  {
    ReachableInv(w);
    assert Honest(w, Denied);
  }

  lemma {:induction false} DeadStaysDead(w: World, steps: seq<Step>, t: Token)
    requires Dead(w, t)
    ensures Dead(After(w, steps), t)
  {
    if |steps| > 0 { DeadStaysDead(w, steps[..|steps| - 1], t); }
  }

  lemma {:induction false} AfterSplit(w: World, a: seq<Step>, b: seq<Step>)
    ensures After(After(w, a), b) == After(w, a + b)
  {
    if |b| == 0 {
      assert a + b == a;
    } else {
      AfterSplit(w, a, b[..|b| - 1]);
      assert (a + b)[..|a + b| - 1] == a + b[..|b| - 1];
    }
  }

  /** A credential that was promoted over, or valid when the binding was disabled, is
      never accepted again, whatever happens afterwards. */
  lemma SpentCredentialsStaySpent(w: World, steps: seq<Step>, t: Token)
    requires Reachable(w) && Dead(w, t)
    ensures !Accepts(After(w, steps).server, t)
  {
    ReachableInv(w);
    RunKeeps(w, steps);
    DeadStaysDead(w, steps, t);
  }

  /** A credential leaves the set of valid ones only by being promoted over or by
      disabling the binding, and it is then spent. */
  lemma OnlyPromotionOrDisablingEnds(w: World, step: Step, t: Token)
    requires Reachable(w) && Accepts(w.server, t)
    ensures !Accepts(Next(w, step).server, t) <==>
      || step.Disable?
      || (step.Deliver? && step.id in w.sent && w.sent[step.id].Report? && step.o.Completes?
          && w.server.report == Some(t) && w.server.pending == Some(w.sent[step.id].token))
    ensures !Accepts(Next(w, step).server, t) ==> Dead(Next(w, step), t)
  {
    ReachableInv(w);
  }

  /** The process, started if need be, has sent a request. */
  function Asking(w: World): World {
    Next(Next(Next(w, GiveUp), Boot), Send)
  }

  /** One undisturbed exchange: a report is sent, the server handles it, and the reply
      arrives and can be saved. */
  function Exchange(w: World): World {
    var asked := Asking(w);
    if asked.agent.waiting.None? then asked
    else
      var id := asked.agent.waiting.value;
      var served := Next(asked, Deliver(id, Completes));
      if id !in asked.sent then served
      else Next(served, Receive(Answer(asked.server, asked.sent[id], asked.tokens, Completes), true))
  }

  lemma AskingReports(w: World)
    requires Inv(w) && w.agent.disk.report.Some?
    ensures var a := Asking(w);
      && Inv(a) && a.server == w.server && a.revoked == w.revoked && a.agent.disk == w.agent.disk
      && a.agent.memory == Some(w.agent.disk) && a.agent.waiting.Some? && a.agent.waiting.value in a.sent
      && a.sent[a.agent.waiting.value] == Report(w.agent.disk.report.value)
  {
    StepKeeps(w, GiveUp);
    StepKeeps(Next(w, GiveUp), Boot);
    StepKeeps(Next(Next(w, GiveUp), Boot), Send);
    hide Inv;
    assert w.agent.memory.Some? ==> w.agent.memory.value == w.agent.disk by { ProcessOf(w); }
  }

  lemma ProcessOf(w: World)
    requires Inv(w)
    ensures Process(w) && Held(w) && Row(w.server)
  {}

  /** One exchange puts the pending credential on disk, or promotes it if it is there. */
  lemma ExchangeAdvances(w: World)
    requires Inv(w) && w.agent.disk.report.Some? && w.agent.disk.report.value !in w.revoked
    ensures Inv(Exchange(w))
    ensures Exchange(w).agent.disk.report.Some? && Exchange(w).agent.disk.report.value !in Exchange(w).revoked
    ensures w.server.pending.None? || w.server.pending == w.agent.disk.report ==>
      && Exchange(w).server.pending.None? && Exchange(w).agent.disk.report == Exchange(w).server.report
      && Exchange(w).agent.disk.report == w.agent.disk.report
    ensures w.server.pending.Some? && w.server.pending == w.agent.disk.report ==>
      w.server.report.Some? && w.server.report.value in Exchange(w).retired
    ensures w.server.pending.Some? && w.server.pending != w.agent.disk.report ==>
      && Exchange(w).server.pending == w.server.pending && Exchange(w).agent.disk.report == w.server.pending
      && Exchange(w).server.report == w.server.report
  {
    hide Inv, Asking, Process;
    AskingReports(w);
    ProcessOf(w);
    var asked := Asking(w);
    var id := asked.agent.waiting.value;
    var served := Next(asked, Deliver(id, Completes));
    StepKeeps(asked, Deliver(id, Completes));
    StepKeeps(served, Receive(Answer(asked.server, asked.sent[id], asked.tokens, Completes), true));
    if w.server.pending.Some? { PendingIsLive(w); }
  }

  lemma PendingIsLive(w: World)
    requires Inv(w) && w.server.pending.Some?
    ensures w.server.pending.value !in w.revoked
  {
    assert Accepts(w.server, w.server.pending.value);
  }

  /** No rotation is pending and the file holds the one valid credential. */
  ghost predicate Finished(w: World) {
    w.server.pending.None? && w.agent.disk.report.Some? && Valid(w.server) == {w.agent.disk.report.value}
  }

  /** Whatever was lost before, two undisturbed exchanges finish a rotation. */
  lemma TwoExchangesFinish(w: World)
    requires Reachable(w) && w.agent.disk.report.Some? && w.agent.disk.report.value !in w.revoked
    ensures Finished(Exchange(Exchange(w)))
  {
    ReachableInv(w);
    hide Exchange, Inv, Reachable, Finished;
    var x := Exchange(w);
    ExchangeAdvances(w);
    ExchangeAdvances(x);
    Settles(Exchange(x));
  }

  /** Rotation starts exactly when it may, from every reachable state: a credential that
      was never used before is pending, and both it and the current one are accepted. */
  lemma RotationStartsExactly(w: World)
    requires Reachable(w)
    ensures var v := Next(w, Rotate);
      if w.server.enabled && w.server.report.Some? && w.server.pending.None? then
        && v.server.pending == Some(w.tokens) && v.server.report == w.server.report
        && Accepts(v.server, w.tokens) && Accepts(v.server, w.server.report.value)
        && !Accepts(w.server, w.tokens) && !Dead(v, w.tokens)
      else v.server == w.server
  {
    ReachableInv(w);
  }

  /** And it ends: two undisturbed exchanges after it was started, the file holds the new
      credential, the only one that is accepted, and the old one is retired. */
  lemma RotationReplaces(w: World)
    requires Reachable(w) && w.server.enabled && w.server.report.Some? && w.server.pending.None?
    requires w.agent.disk.report.Some? && w.agent.disk.report.value !in w.revoked
    ensures var v := Exchange(Exchange(Next(w, Rotate)));
      && v.agent.disk.report == Some(w.tokens) && Valid(v.server) == {w.tokens}
      && w.server.report.value in v.retired && w.agent.disk.report == w.server.report
  {
    ReachableInv(w);
    RotationStartsExactly(w);
    StepKeeps(w, Rotate);
    var v := Next(w, Rotate);
    HeldIsCurrent(w);
    assert v.agent == w.agent && v.revoked == w.revoked;
    hide Exchange, Inv, Reachable, Next;
    ExchangeAdvances(v);
    ExchangeAdvances(Exchange(v));
    Settles(Exchange(Exchange(v)));
  }

  lemma HeldIsCurrent(w: World)
    requires Inv(w) && w.server.pending.None? && w.agent.disk.report.Some?
    requires w.agent.disk.report.value !in w.revoked
    ensures w.agent.disk.report == w.server.report
    ensures w.agent.disk.report.value < w.tokens
  {}

  lemma Settles(w: World)
    requires Inv(w) && w.agent.disk.report.Some? && w.agent.disk.report.value !in w.revoked
    requires w.server.pending.None? && w.agent.disk.report == w.server.report
    ensures Finished(w)
  {}

  // ---- registration has no second phase ----

  /** The server registered the agent but the agent will never learn its credential. */
  ghost predicate Stranded(w: World) {
    && w.server.enabled && w.server.report.Some?
    && w.agent.disk.report.None?
    && (w.agent.waiting.Some? ==> forall n :: (w.agent.waiting.value, Registered(n)) !in w.replies)
  }

  lemma StrandedStep(w: World, step: Step)
    requires Inv(w) && Stranded(w) && !step.Disable?
    ensures Stranded(Next(w, step))
  {}

  ghost predicate NeverDisabled(steps: seq<Step>) {
    forall s :: s in steps ==> !s.Disable?
  }

  /** A lost registration reply, or a first save that fails, is final: no retry with any
      registration token succeeds until the binding is disabled. */
  lemma {:induction false} LostRegistrationIsFinal(w: World, steps: seq<Step>)
    requires Reachable(w) && Stranded(w) && NeverDisabled(steps)
    ensures Stranded(After(w, steps))
    ensures forall r: Token, drawn: Token, o: Outcome :: Answer(After(w, steps).server, Register(r), drawn, o) == Denied
  {
    if |steps| > 0 {
      var before := steps[..|steps| - 1];
      LostRegistrationIsFinal(w, before);
      ReachableInv(w);
      RunKeeps(w, before);
      StrandedStep(After(w, before), steps[|steps| - 1]);
    }
  }

  /** The reply that ends a registration is there for the agent to receive. */
  ghost predicate Answered(w: World, n: Token) {
    w.agent.waiting.Some? && w.agent.memory.Some? && (w.agent.waiting.value, Registered(n)) in w.replies
  }

  /** Exactly which registered agents are lost for good: those without an outstanding
      request that a registration answers. Any other obtains its credential by receiving
      that reply, and the server accepts it unless the binding was disabled since. */
  lemma StrandedExactly(w: World)
    requires Reachable(w) && w.server.enabled && w.server.report.Some? && w.agent.disk.report.None?
    ensures Stranded(w) <==> forall steps :: NeverDisabled(steps) ==> After(w, steps).agent.disk.report.None?
    ensures Stranded(w) <==> forall n: Token :: !Answered(w, n)
    ensures forall n: Token :: Answered(w, n) ==>
      var v := Next(w, Receive(Registered(n), true));
      v.agent.disk.report == Some(n) && (Accepts(v.server, n) || n in v.revoked)
  {
    ReachableInv(w);
    assert w.agent.waiting.Some? ==> w.agent.memory.Some? by { ProcessOf(w); }
    forall n: Token | Answered(w, n)
      ensures Next(w, Receive(Registered(n), true)).agent.disk.report == Some(n)
      ensures Accepts(w.server, n) || n in w.revoked
    {
      assert Honest(w, Registered(n));
    }
    hide Inv, Reachable, Next;
    if Stranded(w) {
      forall steps | NeverDisabled(steps)
        ensures After(w, steps).agent.disk.report.None?
      {
        LostRegistrationIsFinal(w, steps);
      }
    } else {
      var n: Token :| Answered(w, n);
      var steps := [Receive(Registered(n), true)];
      assert After(w, steps[..0]) == w;
      assert NeverDisabled(steps) && After(w, steps) == Next(w, steps[0]);
    }
  }

  lemma AfterStep(w: World, before: seq<Step>, step: Step)
    ensures After(w, before + [step]) == Next(After(w, before), step)
  {
    hide Next;
    assert (before + [step])[..|before|] == before;
  }

  const REGISTERING := Config(Some(0), None)
  const REPORTING := Config(None, Some(1))

  /** A first request is out. */
  const ASKED := World(Server(true, None, None, None, {0}), Agent(REGISTERING, Some(REGISTERING), Some(0)),
                       map[0 := Register(0)], {}, 1, 1, {}, {}, {})

  const FIRST := [Issue, Install(0), Boot, Send]

  lemma FirstRequest()
    ensures After(START, FIRST) == ASKED
  {
    AfterStep(START, [], Issue);
    AfterStep(START, [Issue], Install(0));
    AfterStep(START, [Issue, Install(0)], Boot);
    AfterStep(START, [Issue, Install(0), Boot], Send);
    assert [] + [Issue] == [Issue] && [Issue] + [Install(0)] == [Issue, Install(0)];
    assert [Issue, Install(0)] + [Boot] == [Issue, Install(0), Boot] && [Issue, Install(0), Boot] + [Send] == FIRST;
    hide After;
    assert After(START, []) == START by { StartsThere(); }
  }

  lemma StartsThere()
    ensures After(START, []) == START
  {}

  /** The registration is stored. */
  lemma FirstDelivery()
    ensures Next(ASKED, Deliver(0, Completes))
      == ASKED.(server := Server(true, Some(1), None, None, {}), replies := {(0, Registered(1))}, tokens := 2)
  {
    assert Valid(ASKED.server) == {} && {0} - {0} == {};
    assert {} + {(0, Registered(1))} == {(0, Registered(1))};
  }

  /** Such a state is reached by losing a single reply. */
  lemma OneLostReplyStrands()
    ensures var w := After(START, FIRST + [Deliver(0, Completes)] + [GiveUp]); Reachable(w) && Stranded(w)
  {
    FirstRequest();
    FirstDelivery();
    AfterStep(START, FIRST, Deliver(0, Completes));
    AfterStep(START, FIRST + [Deliver(0, Completes)], GiveUp);
    hide After;
  }

  /** The agent has its credential and reports with it. */
  const REPORTED := World(Server(true, Some(1), None, None, {}), Agent(REPORTING, Some(REPORTING), Some(1)),
                          map[0 := Register(0), 1 := Report(1)], {(0, Registered(1))}, 2, 2, {}, {}, {})

  const SECOND := FIRST + [Deliver(0, Completes)] + [Receive(Registered(1), true)] + [Send]

  lemma FirstReport()
    ensures After(START, SECOND) == REPORTED
  {
    FirstRequest();
    FirstDelivery();
    AfterStep(START, FIRST, Deliver(0, Completes));
    AfterStep(START, FIRST + [Deliver(0, Completes)], Receive(Registered(1), true));
    AfterStep(START, FIRST + [Deliver(0, Completes)] + [Receive(Registered(1), true)], Send);
    hide After, Served, Answer, Valid, FIRST;
    var w := ASKED.(server := Server(true, Some(1), None, None, {}), replies := {(0, Registered(1))}, tokens := 2);
    assert Next(w, Receive(Registered(1), true)) == w.(agent := Agent(REPORTING, Some(REPORTING), None));
  }

  /** A lookup that fails once makes a correctly credentialed agent give up: its process
      ends although the server accepts the credential in its file, which the next start
      of the process then uses. */
  lemma OneFailedLookupStops()
    ensures var w := After(START, SECOND + [Deliver(1, LookupFails)] + [Receive(Denied, true)]);
      && Reachable(w) && w.agent.memory.None? && w.agent.disk.report == Some(1)
      && Accepts(w.server, 1) && w.revoked == {}
  {
    FirstReport();
    AfterStep(START, SECOND, Deliver(1, LookupFails));
    AfterStep(START, SECOND + [Deliver(1, LookupFails)], Receive(Denied, true));
    hide After, SECOND, Valid;
  }

  // ---- registration tokens and revocation ----

  /** At most one registration token is open, and a token that is not, because it was
      used, replaced, expired or revoked, never registers an agent again. */
  lemma {:induction false} RegistrationIsOneTime(w: World, steps: seq<Step>, r: Token)
    requires Reachable(w) && r < w.tokens && r !in w.server.regs
    ensures r < After(w, steps).tokens && r !in After(w, steps).server.regs
    ensures forall drawn, o :: Answer(After(w, steps).server, Register(r), drawn, o) == Denied
    ensures forall a, b :: a in w.server.regs && b in w.server.regs ==> a == b
  {
    ReachableInv(w);
    hide Inv, Reachable;
    if |steps| > 0 {
      RegistrationIsOneTime(w, steps[..|steps| - 1], r);
      ClosedStaysClosed(After(w, steps[..|steps| - 1]), steps[|steps| - 1], r);
    }
    assert forall a, b :: a in w.server.regs && b in w.server.regs ==> a == b by { ProcessOf(w); }
  }

  lemma ClosedStaysClosed(w: World, step: Step, r: Token)
    requires r < w.tokens && r !in w.server.regs
    ensures r < Next(w, step).tokens && r !in Next(w, step).server.regs
  {}

  /** Registering succeeds exactly while the token is open and no credential exists, and if
      nothing fails. It uses up the token and makes the credential in the reply the only
      valid one; any other answer leaves the binding as it was. */
  lemma RegisteringSwaps(w: World, r: Token, o: Outcome)
    requires Reachable(w)
    ensures var reply, s := Answer(w.server, Register(r), w.tokens, o), Served(w.server, Register(r), w.tokens, o);
      var open := r in w.server.regs && w.server.enabled && w.server.report.None?;
      && (reply == Denied <==> o.LookupFails? || !open)
      && (reply == Unavailable <==> o.StoreFails? && open)
      && (reply == Registered(w.tokens) <==> open && !o.LookupFails? && !o.StoreFails?)
      && (if reply == Registered(w.tokens) then s.regs == {} && Valid(s) == {w.tokens} else s == w.server)
  {
    ReachableInv(w);
  }

  /** What a report is answered, and that only an answer of success changes anything. */
  lemma ReportAnswersExactly(w: World, t: Token, o: Outcome)
    requires Reachable(w)
    ensures var reply, s := Answer(w.server, Report(t), w.tokens, o), Served(w.server, Report(t), w.tokens, o);
      && (reply == Denied <==> t !in Valid(w.server) || o.LookupFails? || o.NamesAnother?)
      && (reply == Unavailable <==> t in Valid(w.server) && o.StoreFails?)
      && (reply == Reported(None) <==>
          t in Valid(w.server) && o.Completes? && (w.server.pending.None? || w.server.pending == Some(t)))
      && (forall x: Token :: reply == Reported(Some(x)) <==>
          w.server.report == Some(t) && w.server.enabled && o.Completes? && w.server.pending == Some(x))
      && (s == w.server || (reply == Reported(None) && Valid(s) == {t} && s.report == Some(t)))
  {
    ReachableInv(w);
  }

  /** Exactly which replies end the process: a refusal, a new credential that cannot be
      saved, and while it has no credential any failure at all. */
  lemma ProcessStopsExactly(w: World, reply: Reply, saved: bool)
    requires Reachable(w) && w.agent.memory.Some? && w.agent.waiting.Some?
    requires (w.agent.waiting.value, reply) in w.replies
    ensures var a := Next(w, Receive(reply, saved)).agent;
      a.memory.None? <==>
        || reply == Denied
        || (reply == Unavailable && w.agent.disk.report.None?)
        || (!saved && reply.Registered?)
        || (!saved && reply.Reported? && reply.rotate.Some? && reply.rotate != w.agent.disk.report)
    ensures var a := Next(w, Receive(reply, saved)).agent;
      && a.waiting.None?
      && a.disk == (if saved && reply.Registered? then Config(None, Some(reply.token))
                    else if saved && reply.Reported? && reply.rotate.Some? then w.agent.disk.(report := reply.rotate)
                    else w.agent.disk)
  {
    ReachableInv(w);
    hide Drawn, Replies, Gone, Careful, Row, Held;
  }

  /** A disabled binding that is enabled again admits an agent with a new token. */
  lemma EnablingAdmitsAgain(w: World)
    requires Reachable(w)
    ensures var v := Next(Next(Next(w, Disable), Enable), Issue);
      Answer(v.server, Register(w.tokens), v.tokens, Completes) == Registered(v.tokens)
  {}

  /** Disabling takes effect at once and for good: until the binding is enabled again
      and a new registration token issued, nothing is accepted, whatever is in flight. */
  lemma {:induction false} DisablingIsFinal(w: World, steps: seq<Step>)
    requires Reachable(w) && forall s :: s in steps ==> !s.Enable?
    ensures var after := After(Next(w, Disable), steps);
      && Valid(after.server) == {} && after.server.regs == {} && !after.server.enabled
      && forall q, drawn, o :: Answer(after.server, q, drawn, o) == Denied
  {
    if |steps| > 0 { DisablingIsFinal(w, steps[..|steps| - 1]); }
  }
}
