/** The agent's buffer of unsent readings: a bounded queue shared by a collector and a
    sender, mirrored in a private file that survives the process. Each critical section
    under the agent's mutex is one step; the two threads may end one before the other. */
module AgentBuffer {
  import opened Basics
  import opened Calendar

  const MAX_BUFFERED := 600
  const MAX_FILE := 32 * 1024 * 1024
  const BACK := HOUR
  const AHEAD := 30 * SECOND
  /** Samples this old are given up rather than sent. */
  const TOO_OLD := HOUR - MINUTE

  /** A collected sample. Sessions, random identifiers in the agent, are numbered in the
      order in which the processes started; `bytes` is the length of its encoding. */
  datatype Reading = Reading(agent: string, session: nat, sequence: nat, sampledAt: int, bytes: nat)

  type Queue = seq<Reading>

  predicate SameKey(a: Reading, b: Reading) {
    a.session == b.session && a.sequence == b.sequence
  }

  /** Length of a non-empty encoded array: each element with a bracket or comma before
      it, and the closing bracket. */
  function Encoded(q: Queue): nat {
    if |q| == 0 then 1 else q[0].bytes + 1 + Encoded(q[1..])
  }

  // ---- what each critical section does to the queue ----

  /** Drops from the front until the encoding fits the file. */
  function Fitted(q: Queue): Queue {
    if |q| > 0 && Encoded(q) > MAX_FILE then Fitted(q[1..]) else q
  }

  function Capped(q: Queue): Queue {
    if |q| > MAX_BUFFERED then q[1..] else q
  }

  function Young(q: Queue, now: int): Queue {
    if |q| > 0 && q[0].sampledAt < now - TOO_OLD then Young(q[1..], now) else q
  }

  /** Removes the first reading with the key of `r`. */
  function Without(q: Queue, r: Reading): Queue {
    if |q| == 0 then []
    else if SameKey(q[0], r) then q[1..]
    else [q[0]] + Without(q[1..], r)
  }

  /** A reading of this agent inside the acceptance window that the other checks, which
      depend on the program's version, do not reject. */
  predicate Restorable(r: Reading, agent: string, now: int, invalid: set<Reading>) {
    r.agent == agent && now - BACK <= r.sampledAt <= now + AHEAD && r !in invalid
  }

  function Chosen(file: Queue, agent: string, now: int, invalid: set<Reading>): Queue {
    if |file| == 0 then []
    else
      var rest := Chosen(file[..|file| - 1], agent, now, invalid);
      var last := file[|file| - 1];
      if Restorable(last, agent, now, invalid) then rest + [last] else rest
  }

  function Newest(q: Queue): Queue {
    if |q| > MAX_BUFFERED then q[|q| - MAX_BUFFERED..] else q
  }

  // ---- the client ----

  /** Of the sender: no report out, one out, or answered and about to remove what it sent. */
  datatype Phase = Idle | Awaiting | Removing

  /** `collecting` and `reporting` say which of the two threads are alive, `sending` is
      the copy being reported. */
  datatype Client = Client(agent: string, collecting: bool, reporting: bool, paused: bool, queue: Queue, file: Queue,
                           session: nat, sequence: nat, phase: Phase, sending: Option<Reading>)

  const NEW := Client("", false, false, false, [], [], 0, 0, Idle, None)

  datatype Step =
    | Boot(agent: string, now: int, contact: Option<bool>, readable: bool, invalid: set<Reading>)
    | Collect(at: int, bytes: nat, writable: bool)
    | Take(now: int)
    | Apply(paused: bool)             // a reply arrived: its settings
    | Remove(writable: bool)          // and then the reading it acknowledges
    | Failed                          // no reply, or an error
    | Return                          // the sender ends, the collector may still finish
    | Crash                           // the process ends

  predicate Running(c: Client) {
    c.collecting || c.reporting
  }

  function Ended(c: Client): Client {
    c.(collecting := false, reporting := false, queue := [], phase := Idle, sending := None)
  }

  /** The process ends with the last of its threads. */
  function Settled(c: Client): Client {
    if Running(c) then c else Ended(c)
  }

  /** The queue is trimmed to fit, and written unless that fails. */
  function Persisted(c: Client, writable: bool): Client {
    var q := Fitted(c.queue);
    c.(queue := q, file := if writable then q else c.file)
  }

  /** The process asks the server for its settings, keeps the defaults when it cannot be
      reached, and restores the file unless it is paused. */
  function Booted(c: Client, agent: string, now: int, contact: Option<bool>, readable: bool,
                  invalid: set<Reading>): Client {
    var paused := contact == Some(true);
    var queue := if !paused && readable then Newest(Chosen(c.file, agent, now, invalid)) else [];
    Client(agent, true, true, paused, queue, c.file, c.session + 1, 0, Idle, None)
  }

  /** The reading the collector produces next. */
  function Made(c: Client, at: int, bytes: nat): Reading {
    Reading(c.agent, c.session, c.sequence + 1, at, bytes)
  }

  /** The collector checks the pause flag again after sampling. */
  function Appended(c: Client, r: Reading): Client {
    if c.paused then c else c.(queue := Capped(c.queue + [r]))
  }

  /** A save that fails ends the collector and leaves the reading in the queue. */
  function Collected(c: Client, at: int, bytes: nat, writable: bool): Client {
    var d := Persisted(Appended(c, Made(c, at, bytes)).(sequence := c.sequence + 1), writable);
    if writable then d else Settled(d.(collecting := false))
  }

  function Taken(c: Client, now: int): Client {
    var q := Young(c.queue, now);
    c.(queue := q, phase := Awaiting, sending := if |q| > 0 && !c.paused then Some(q[0]) else None)
  }

  /** New settings: a pause empties the queue in memory only. */
  function Configured(c: Client, paused: bool): Client {
    c.(paused := paused, queue := if paused then [] else c.queue, phase := if c.sending.Some? then Removing else Idle)
  }

  function Returned(c: Client): Client {
    Settled(c.(reporting := false, phase := Idle, sending := None))
  }

  /** A save that fails ends the sender. */
  function Removed(c: Client, writable: bool): Client
    requires c.sending.Some?
  {
    var d := Persisted(c.(queue := Without(c.queue, c.sending.value), phase := Idle, sending := None), writable);
    if writable then d else Returned(d)
  }

  function Next(c: Client, step: Step): Client {
    match step
    case Boot(agent, now, contact, readable, invalid) =>
      if Running(c) then c else Booted(c, agent, now, contact, readable, invalid)
    case Collect(at, bytes, writable) => if c.collecting then Collected(c, at, bytes, writable) else c
    case Take(now) => if c.reporting && c.phase == Idle then Taken(c, now) else c
    case Apply(paused) => if c.reporting && c.phase == Awaiting then Configured(c, paused) else c
    case Remove(writable) =>
      if c.reporting && c.phase == Removing && c.sending.Some? then Removed(c, writable) else c
    case Failed => if c.phase == Awaiting then c.(phase := Idle, sending := None) else c
    case Return => if c.reporting then Returned(c) else c
    case Crash => Ended(c)
  }

  class Buffer {
    var agent: string
    var collecting: bool
    var reporting: bool
    var paused: bool
    var queue: Queue
    var file: Queue
    var session: nat
    var sequence: nat
    var phase: Phase
    var sending: Option<Reading>

    function Value(): Client
      reads this
    {
      Client(agent, collecting, reporting, paused, queue, file, session, sequence, phase, sending)
    }

    constructor ()
      ensures Value() == NEW
    {
      agent, collecting, reporting, paused, queue, file := "", false, false, false, [], [];
      session, sequence, phase, sending := 0, 0, Idle, None;
    }

    /** What is left when both threads have ended. */
    method Settle()
      modifies this
      ensures Value() == Settled(old(Value()))
    {
      if !collecting && !reporting { queue, phase, sending := [], Idle, None; }
    }

    method Persist(writable: bool) returns (ok: bool)
      modifies this`queue, this`file
      ensures ok == writable && Value() == Persisted(old(Value()), writable)
    {
      while |queue| > 0 && Encoded(queue) > MAX_FILE
        invariant Fitted(queue) == Fitted(old(queue)) && file == old(file)
        decreases |queue|
      {
        queue := queue[1..];
      }
      if writable { file := queue; }
      return writable;
    }

    method Collect(at: int, bytes: nat, writable: bool)
      requires collecting
      modifies this
      ensures Value() == Collected(old(Value()), at, bytes, writable)
    {
      sequence := sequence + 1;
      var r := Reading(agent, session, sequence, at, bytes);
      if !paused {
        queue := queue + [r];
        if |queue| > MAX_BUFFERED { queue := queue[1..]; }
      }
      var ok := Persist(writable);
      if !ok {
        collecting := false;
        Settle();
      }
    }

    method Take(now: int)
      requires reporting && phase == Idle
      modifies this
      ensures Value() == Taken(old(Value()), now)
    {
      while |queue| > 0 && queue[0].sampledAt < now - TOO_OLD
        invariant Young(queue, now) == Young(old(queue), now)
        invariant Value() == old(Value()).(queue := queue)
        decreases |queue|
      {
        queue := queue[1..];
      }
      phase, sending := Awaiting, None;
      if |queue| > 0 && !paused { sending := Some(queue[0]); }
    }

    method ApplySettings(nowPaused: bool)
      requires reporting && phase == Awaiting
      modifies this
      ensures Value() == Configured(old(Value()), nowPaused)
    {
      paused := nowPaused;
      if paused { queue := []; }
      phase := if sending.Some? then Removing else Idle;
    }

    method Drop(r: Reading)
      modifies this`queue
      ensures queue == Without(old(queue), r)
    {
      for i := 0 to |queue|
        invariant queue == old(queue)
        invariant Without(queue, r) == queue[..i] + Without(queue[i..], r)
      {
        if SameKey(queue[i], r) {
          assert queue[i..][0] == queue[i] && queue[i..][1..] == queue[i + 1..];
          queue := queue[..i] + queue[i + 1..];
          return;
        }
        WithoutStep(queue, i, r);
      }
      assert queue[..|queue|] == queue;
    }

    /** Removes the reading that was sent, wherever it is by now. */
    method Acknowledge(writable: bool)
      requires reporting && phase == Removing && sending.Some?
      modifies this
      ensures Value() == Removed(old(Value()), writable)
    {
      Drop(sending.value);
      phase, sending := Idle, None;
      var ok := Persist(writable);
      if !ok {
        reporting := false;
        Settle();
      }
    }

    method Restore(now: int, readable: bool, invalid: set<Reading>)
      modifies this`queue
      ensures queue == if readable then Newest(old(queue) + Chosen(file, agent, now, invalid)) else old(queue)
    {
      if !readable { return; }
      for i := 0 to |file|
        invariant queue == old(queue) + Chosen(file[..i], agent, now, invalid)
      {
        assert file[..i + 1][..i] == file[..i];
        if Restorable(file[i], agent, now, invalid) { queue := queue + [file[i]]; }
      }
      assert file[..|file|] == file;
      if |queue| > MAX_BUFFERED { queue := queue[|queue| - MAX_BUFFERED..]; }
    }

    method Boot(id: string, now: int, contact: Option<bool>, readable: bool, invalid: set<Reading>)
      requires !collecting && !reporting
      modifies this
      ensures Value() == Booted(old(Value()), id, now, contact, readable, invalid)
    {
      agent, paused, queue := id, false, [];
      session, sequence, phase, sending := session + 1, 0, Idle, None;
      if contact.Some? { paused := contact.value; }
      if !paused {
        Restore(now, readable, invalid);
        assert [] + Chosen(file, agent, now, invalid) == Chosen(file, agent, now, invalid);
      }
      collecting, reporting := true, true;
    }
  }

  lemma WithoutStep(q: Queue, i: nat, r: Reading)
    requires i < |q| && !SameKey(q[i], r)
    requires Without(q, r) == q[..i] + Without(q[i..], r)
    ensures Without(q, r) == q[..i + 1] + Without(q[i + 1..], r)
  {
    assert q[i..][1..] == q[i + 1..];
    assert q[..i + 1] == q[..i] + [q[i]];
  }
}
