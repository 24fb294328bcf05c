/** Agent credentials: one-time registration, two-phase rotation over a channel that
    loses, delays and repeats messages, saves that fail, and crashes. Tokens are fresh
    numbers standing for 256-bit secrets; since digests are injective the server's
    digests are written as the tokens themselves. */
module Credentials {
  import opened Basics

  type Token = nat

  // ---- the server's side: one binding row and its registration tokens ----

  /** `report` and `pending` are the two digests (None is the empty digest), `secret`
      the sealed pending secret, `regs` the unused and unexpired registration tokens. */
  datatype Server = Server(enabled: bool, report: Option<Token>, pending: Option<Token>, secret: Option<Token>,
                           regs: set<Token>)

  datatype Request = Register(token: Token) | Report(token: Token)
  /** Denied is the answer on which the agent gives up, Unavailable one it retries. */
  datatype Reply = Registered(token: Token) | Reported(rotate: Option<Token>) | Denied | Unavailable

  /** How handling a request ends. A query for the binding that fails, for whatever
      reason, is answered like a credential that does not exist; a report of another
      agent's sample and a failure to store anything undo the whole transaction. */
  datatype Outcome = Completes | LookupFails | NamesAnother | StoreFails

  predicate Accepts(s: Server, t: Token) {
    s.enabled && (s.report == Some(t) || s.pending == Some(t))
  }

  function Enabled(s: Server): Server {
    s.(enabled := true)
  }

  /** A new registration token replaces any earlier one, and only while no reporting
      credential exists. */
  function Issued(s: Server, drawn: Token): Server {
    if s.enabled && s.report.None? then s.(regs := {drawn}) else s
  }

  function Disabled(s: Server): Server {
    Server(false, None, None, None, {})
  }

  function Rotating(s: Server, drawn: Token): Server {
    if s.enabled && s.report.Some? && s.pending.None? then s.(pending := Some(drawn), secret := Some(drawn)) else s
  }

  predicate Registers(s: Server, r: Token) {
    r in s.regs && s.enabled && s.report.None?
  }

  /** The transaction is undone: nothing it did remains. */
  predicate Undone(q: Request, o: Outcome) {
    o.LookupFails? || o.StoreFails? || (o.NamesAnother? && q.Report?)
  }

  /** The binding after a request. */
  function Served(s: Server, q: Request, drawn: Token, o: Outcome): Server {
    if Undone(q, o) then s
    else
      match q
      case Register(r) =>
        if Registers(s, r) then s.(report := Some(drawn), regs := s.regs - {r}) else s
      case Report(t) =>
        if Accepts(s, t) && s.pending == Some(t) then s.(report := s.pending, pending := None, secret := None) else s
  }

  function Answer(s: Server, q: Request, drawn: Token, o: Outcome): Reply {
    if o.LookupFails? then Denied
    else
      match q
      case Register(r) =>
        if !Registers(s, r) then Denied
        else if o.StoreFails? then Unavailable
        else Registered(drawn)
      case Report(t) =>
        if !Accepts(s, t) || o.NamesAnother? then Denied
        else if o.StoreFails? then Unavailable
        else if s.pending.None? || s.pending == Some(t) then Reported(None)
        else Reported(s.secret)
  }

  class Binding {
    var enabled: bool
    var reportDigest: Option<Token>
    var pendingDigest: Option<Token>
    var pendingSecret: Option<Token>
    var registrations: set<Token>

    function Value(): Server
      reads this
    {
      Server(enabled, reportDigest, pendingDigest, pendingSecret, registrations)
    }

    constructor ()
      ensures Value() == Server(true, None, None, None, {})
    {
      enabled, reportDigest, pendingDigest, pendingSecret, registrations := true, None, None, None, {};
    }

    method Enable()
      modifies this
      ensures Value() == Enabled(old(Value()))
    {
      enabled := true;
    }

    method IssueRegistration(drawn: Token) returns (ok: bool)
      modifies this
      ensures Value() == Issued(old(Value()), drawn)
      ensures ok <==> old(enabled) && old(reportDigest) == None
      ensures registrations == if ok then {drawn} else old(registrations)
      ensures enabled == old(enabled) && reportDigest == old(reportDigest)
      ensures pendingDigest == old(pendingDigest) && pendingSecret == old(pendingSecret)
    {
      if !enabled || reportDigest != None { return false; }
      registrations := {};
      registrations := registrations + {drawn};
      return true;
    }

    method Disable()
      modifies this
      ensures Value() == Disabled(old(Value()))
    {
      enabled, reportDigest, pendingDigest, pendingSecret := false, None, None, None;
      registrations := {};
    }

    method Rotate(drawn: Token) returns (ok: bool)
      modifies this
      ensures Value() == Rotating(old(Value()), drawn)
      ensures ok <==> old(enabled) && old(reportDigest) != None && old(pendingDigest) == None
      ensures ok ==> pendingDigest == Some(drawn) == pendingSecret
      ensures !ok ==> pendingDigest == old(pendingDigest) && pendingSecret == old(pendingSecret)
      ensures enabled == old(enabled) && reportDigest == old(reportDigest) && registrations == old(registrations)
    {
      ok := enabled && reportDigest != None && pendingDigest == None;
      if ok { pendingDigest, pendingSecret := Some(drawn), Some(drawn); }
    }

    /** Consumes the one-time token and sets the first reporting credential, or neither. */
    method HandleRegister(raw: Token, drawn: Token, o: Outcome) returns (reply: Reply)
      modifies this
      ensures Value() == Served(old(Value()), Register(raw), drawn, o)
      ensures reply == Answer(old(Value()), Register(raw), drawn, o)
    {
      if o.LookupFails? || raw !in registrations { return Denied; }
      var unused := registrations - {raw};
      if !enabled || reportDigest != None { return Denied; }
      if o.StoreFails? { return Unavailable; }
      registrations, reportDigest := unused, Some(drawn);
      return Registered(drawn);
    }

    /** The credential part of a report: authenticate, promote the pending credential or
        hand it out, and keep either only if the sample in the same transaction is kept. */
    method HandleReport(secret: Token, drawn: Token, o: Outcome) returns (reply: Reply)
      modifies this
      ensures Value() == Served(old(Value()), Report(secret), drawn, o)
      ensures reply == Answer(old(Value()), Report(secret), drawn, o)
    {
      if o.LookupFails? { return Denied; }
      if !enabled || (reportDigest != Some(secret) && pendingDigest != Some(secret)) { return Denied; }
      var report, pending, sealed, out := reportDigest, pendingDigest, pendingSecret, None;
      if pending != None {
        if pending == Some(secret) {
          report, pending, sealed := pending, None, None;
        } else {
          out := sealed;
        }
      }
      if o.NamesAnother? { return Denied; }
      if o.StoreFails? { return Unavailable; }
      reportDigest, pendingDigest, pendingSecret := report, pending, sealed;
      return Reported(out);
    }
  }

  // ---- the agent's side: its private configuration file and its process ----

  datatype Config = Config(reg: Option<Token>, report: Option<Token>)

  /** `memory` is None while no process runs; `waiting` is the request it waits on. */
  datatype Agent = Agent(disk: Config, memory: Option<Config>, waiting: Option<nat>)

  predicate CanSend(a: Agent) {
    a.memory.Some? && a.waiting.None? && (a.memory.value.report.Some? || a.memory.value.reg.Some?)
  }

  function Asks(c: Config): Request
    requires c.report.Some? || c.reg.Some?
  {
    if c.report.Some? then Report(c.report.value) else Register(c.reg.value)
  }

  function Exited(a: Agent): Agent {
    a.(memory := None, waiting := None)
  }

  /** A configuration the process wants on disk: a save that fails ends the process and
      leaves the file as it was. */
  function Saving(a: Agent, c: Config, saved: bool): Agent {
    if saved then Agent(c, Some(c), None) else Exited(a)
  }

  function Received(a: Agent, reply: Reply, saved: bool): Agent
    requires a.memory.Some?
  {
    match reply
    case Registered(n) => Saving(a, Config(None, Some(n)), saved)
    case Reported(None) => a.(waiting := None)
    case Reported(Some(x)) =>
      if a.memory.value.report == Some(x) then a.(waiting := None)
      else Saving(a, a.memory.value.(report := Some(x)), saved)
    case Denied => Exited(a)
    case Unavailable => if a.memory.value.report.Some? then a.(waiting := None) else Exited(a)
  }

  class AgentProcess {
    /** The configuration file. */
    var file: Config
    var config: Config
    var running: bool
    var waiting: Option<nat>

    function Value(): Agent
      reads this
    {
      Agent(file, if running then Some(config) else None, waiting)
    }

    constructor (installed: Config)
      ensures Value() == Agent(installed, None, None)
    {
      file, config, running, waiting := installed, installed, false, None;
    }

    method SaveConfig(saved: bool) returns (ok: bool)
      modifies this`file
      ensures ok == saved && file == if saved then config else old(file)
    {
      if saved { file := config; }
      return saved;
    }

    /** What the process does with a reply; `saved` is the outcome of a write to disk,
        should one be needed. */
    method Apply(reply: Reply, saved: bool)
      requires running
      modifies this
      ensures Value() == Received(old(Value()), reply, saved)
    {
      waiting := None;
      match reply {
        case Registered(n) =>
          config := Config(None, Some(n));
          running := SaveConfig(saved);
        case Reported(rotate) =>
          if rotate.Some? && rotate != config.report {
            config := config.(report := rotate);
            running := SaveConfig(saved);
          }
        case Denied => running := false;
        case Unavailable => running := config.report.Some?;
      }
    }
  }
}
