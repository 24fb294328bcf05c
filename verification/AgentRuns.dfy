/** Runs of the agent's buffer: what it holds, what is on disk, and exactly when a reading
    leaves it. */
module AgentRuns {
  import opened Basics
  import opened Calendar
  import opened AgentBuffer
  import opened AgentQueues

  // ---- the invariant ----

  /** Collected no later than the last reading of the present session. */
  predicate Known(c: Client, r: Reading) {
    r.session < c.session || (r.session == c.session && r.sequence <= c.sequence)
  }

  ghost predicate AllKnown(c: Client, q: Queue) {
    forall r :: r in q ==> Known(c, r)
  }

  /** The reading collected last in the present session. */
  predicate Last(c: Client, r: Reading) {
    r.session == c.session && r.sequence == c.sequence
  }

  /** What is queued is on disk, except for the reading at which the collector ended. */
  ghost predicate Mirrored(c: Client) {
    forall r :: r in c.queue ==> r in c.file || (!c.collecting && Last(c, r))
  }

  predicate Phased(c: Client) {
    && (!c.reporting ==> c.phase == Idle)
    && (c.phase == Idle ==> c.sending.None?)
    && (c.phase == Removing ==> c.sending.Some?)
  }

  ghost predicate Inv(c: Client) {
    && Sorted(c.queue) && Sorted(c.file) && Fits(c.queue) && Fits(c.file)
    && AllKnown(c, c.queue) && AllKnown(c, c.file) && Mirrored(c)
    && (!Running(c) ==> c.queue == []) && (c.paused ==> c.queue == [])
    && Phased(c)
  }

  // ---- exactly when a reading is lost ----

  /** What survives if nothing more is collected: the queue, or the file while no
      process runs. */
  function Held(c: Client): Queue {
    if Running(c) then c.queue else c.file
  }

  ghost predicate New(c: Client, step: Step, r: Reading) {
    step.Collect? && c.collecting && r == Made(c, step.at, step.bytes)
  }

  /** The named causes, one for each kind of step. */
  ghost predicate Lost(c: Client, step: Step, r: Reading) {
    match step
    case Boot(agent, now, contact, readable, invalid) =>
      // started while paused, unreadable file, another agent's reading, out of the window, or invalid
      !Running(c) && (contact == Some(true) || !readable || !Restorable(r, agent, now, invalid))
    case Collect(at, bytes, writable) =>
      // discarded by a pause, or by the limits; a failed save loses the new reading only if
      // the sender has ended before, and otherwise leaves it queued
      c.collecting &&
      if c.paused || (!writable && !c.reporting) then r == Made(c, at, bytes)
      else Evicted(c.queue + [Made(c, at, bytes)], r)
    case Take(now) => c.reporting && c.phase == Idle && Outdated(c.queue, now, r)
    case Apply(paused) => c.reporting && c.phase == Awaiting && paused
    case Remove(writable) =>
      // acknowledged; if that cannot be saved and the process ends, what was never saved
      c.reporting && c.phase == Removing && c.sending.Some? &&
      if writable || c.collecting then SameKey(r, c.sending.value) else r !in c.file
    case Failed => false
    case Return => c.reporting && !c.collecting && r !in c.file
    case Crash => Running(c) && r !in c.file
  }

  ghost predicate StepIsExact(c: Client, step: Step) {
    forall r :: r in Held(c) || New(c, step, r) ==> (r !in Held(Next(c, step)) <==> Lost(c, step, r))
  }

  lemma BootStep(c: Client, step: Step)
    requires Inv(c) && step.Boot?
    ensures Inv(Next(c, step)) && StepIsExact(c, step)
  {
    if !Running(c) {
      ChosenMembers(c.file, step.agent, step.now, step.invalid);
      ChosenSorted(c.file, step.agent, step.now, step.invalid);
      ChosenSize(c.file, step.agent, step.now, step.invalid);
      NothingSorted();
      hide Restorable, Before, Chosen, Encoded;
    }
  }

  lemma NewIsLast(c: Client, r: Reading)
    requires Sorted(c.queue) && AllKnown(c, c.queue) && r.session == c.session && r.sequence == c.sequence + 1
    ensures Sorted(c.queue + [r])
  {
    forall i | 0 <= i < |c.queue| ensures Before(c.queue[i], r) {
      assert Known(c, c.queue[i]);
    }
  }

  lemma CollectWhilePaused(c: Client, at: int, bytes: nat, writable: bool)
    requires Inv(c) && c.collecting && c.paused
    ensures Inv(Next(c, Collect(at, bytes, writable))) && StepIsExact(c, Collect(at, bytes, writable))
  {
    hide Before, Sorted;
    assert Fitted(c.queue) == [];
    NothingSorted();
    assert !Known(c, Made(c, at, bytes));
  }

  /** Collecting, after the queue was trimmed to `f`. */
  lemma CollectInto(c: Client, at: int, bytes: nat, writable: bool, f: Queue)
    requires Inv(c) && c.collecting && !c.paused
    requires f == Fitted(Capped(c.queue + [Made(c, at, bytes)]))
    requires Sorted(f) && Fits(f) && Within(f, c.queue + [Made(c, at, bytes)])
    requires forall x :: x in c.queue + [Made(c, at, bytes)] ==>
      (x !in f <==> Evicted(c.queue + [Made(c, at, bytes)], x))
    ensures Inv(Next(c, Collect(at, bytes, writable))) && StepIsExact(c, Collect(at, bytes, writable))
  {
    var r := Made(c, at, bytes);
    var q := c.queue + [r];
    hide Before, Fitted, Encoded, Evicted, Sorted, Capped, Fits;
    assert Persisted(Appended(c, r).(sequence := c.sequence + 1), writable)
        == c.(queue := f, file := if writable then f else c.file, sequence := c.sequence + 1);
    assert r !in c.file by { assert !Known(c, r); }
    NothingSorted();
    NothingFits();
  }

  lemma CollectStep(c: Client, at: int, bytes: nat, writable: bool)
    requires Inv(c)
    ensures Inv(Next(c, Collect(at, bytes, writable))) && StepIsExact(c, Collect(at, bytes, writable))
  {
    hide Before, Fitted, Encoded, Evicted, Sorted, Capped, StepIsExact;
    if c.collecting {
      var r := Made(c, at, bytes);
      if c.paused {
        CollectWhilePaused(c, at, bytes, writable);
      } else {
        var q := c.queue + [r];
        NewIsLast(c, r);
        forall x | x in q ensures x !in Fitted(Capped(q)) <==> Evicted(q, x) { EvictedExactly(q, x); }
        KeptIsFine(q);
        CollectInto(c, at, bytes, writable, Fitted(Capped(q)));
      }
    } else {
      NothingHappens(c, Collect(at, bytes, writable));
    }
  }

  lemma NothingHappens(c: Client, step: Step)
    requires Next(c, step) == c && (step.Collect? ==> !c.collecting)
    requires forall r :: r in Held(c) ==> !Lost(c, step, r)
    ensures StepIsExact(c, step)
  {}

  lemma TakeStep(c: Client, now: int)
    requires Inv(c)
    ensures Inv(Next(c, Take(now))) && StepIsExact(c, Take(now))
  {
    hide Before, Young, Encoded, Outdated, Sorted;
    if c.reporting && c.phase == Idle {
      YoungIsFine(c.queue, now);
      forall r | r in c.queue
        ensures r !in Young(c.queue, now) <==> Outdated(c.queue, now, r)
      {
        YoungExactly(c.queue, now, r);
      }
    }
  }

  lemma QuietStep(c: Client, step: Step)
    requires Inv(c) && (step.Apply? || step.Failed? || step.Return? || step.Crash?)
    ensures Inv(Next(c, step)) && StepIsExact(c, step)
  {
    hide Before, Encoded, Sorted, Fits;
    NothingSorted();
    NothingFits();
  }

  /** The removal, when `q` is what remains of the queue. */
  lemma RemoveInto(c: Client, writable: bool, q: Queue)
    requires Inv(c) && c.reporting && c.phase == Removing && c.sending.Some?
    requires q == Without(c.queue, c.sending.value) && Fitted(q) == q && Sorted(q) && Fits(q) && |q| <= |c.queue|
    requires forall x :: x in q <==> x in c.queue && !SameKey(x, c.sending.value)
    ensures Inv(Next(c, Remove(writable))) && StepIsExact(c, Remove(writable))
  {
    hide Before, Fitted, Encoded, Without, Sorted, Fits, SameKey;
    NothingSorted();
    NothingFits();
    assert Persisted(c.(queue := q, phase := Idle, sending := None), writable)
        == c.(queue := q, phase := Idle, sending := None, file := if writable then q else c.file);
  }

  lemma RemoveStep(c: Client, writable: bool)
    requires Inv(c)
    ensures Inv(Next(c, Remove(writable))) && StepIsExact(c, Remove(writable))
  {
    if c.reporting && c.phase == Removing && c.sending.Some? {
      var s := c.sending.value;
      WithoutMembers(c.queue, s);
      WithoutSorted(c.queue, s);
      WithoutSize(c.queue, s);
      assert Fitted(Without(c.queue, s)) == Without(c.queue, s) && Fits(Without(c.queue, s));
      hide Before, Fitted, Encoded, Without, Sorted, Fits, SameKey, Next, StepIsExact;
      RemoveInto(c, writable, Without(c.queue, s));
    } else {
      NothingHappens(c, Remove(writable));
    }
  }

  /** Each step keeps the invariant, and what it loses is what the causes say. */
  lemma StepKeeps(c: Client, step: Step)
    requires Inv(c)
    ensures Inv(Next(c, step)) && StepIsExact(c, step)
  {
    hide Inv, Next, StepIsExact;
    match step
    case Boot(_, _, _, _, _) => BootStep(c, step);
    case Collect(at, bytes, writable) => CollectStep(c, at, bytes, writable);
    case Take(now) => TakeStep(c, now);
    case Remove(writable) => RemoveStep(c, writable);
    case _ => QuietStep(c, step);
  }

  // ---- whole runs ----

  function After(steps: seq<Step>): Client {
    if |steps| == 0 then NEW else Next(After(steps[..|steps| - 1]), steps[|steps| - 1])
  }

  lemma {:induction false} RunKeeps(steps: seq<Step>)
    ensures Inv(After(steps))
  {
    if |steps| > 0 {
      RunKeeps(steps[..|steps| - 1]);
      StepKeeps(After(steps[..|steps| - 1]), steps[|steps| - 1]);
    }
  }

  // ---- what a failed save leaves off the disk ----

  /** Whether the reading collected last was never saved, after a step from c: the
      collector's failed save leaves it so while the sender lives, and the next save, an
      end of the process or a restart settles it. */
  predicate StaysUnsaved(c: Client, step: Step, unsaved: bool) {
    match step
    case Collect(_, _, writable) => if c.collecting then !writable && c.reporting else unsaved
    case Remove(_) => unsaved && !(c.reporting && c.phase == Removing && c.sending.Some?)
    case Boot(_, _, _, _, _) => unsaved && Running(c)
    case Crash => false
    case _ => unsaved
  }

  predicate Unsaved(steps: seq<Step>) {
    |steps| > 0 && StaysUnsaved(After(steps[..|steps| - 1]), steps[|steps| - 1], Unsaved(steps[..|steps| - 1]))
  }

  /** What `unsaved` means for the file. */
  ghost predicate Tells(c: Client, unsaved: bool) {
    if unsaved then !c.collecting && forall r :: r in c.file ==> !Last(c, r)
    else forall r :: r in c.queue ==> r in c.file
  }

  lemma TellsCollect(c: Client, step: Step, unsaved: bool)
    requires Inv(c) && Tells(c, unsaved) && step.Collect?
    ensures Tells(Next(c, step), StaysUnsaved(c, step, unsaved))
  {
    hide Before, Encoded, Sorted, Fits, Fitted, Capped;
    assert forall r :: r in c.file ==> Known(c, r);
  }

  lemma TellsRemove(c: Client, step: Step, unsaved: bool)
    requires Inv(c) && Tells(c, unsaved) && step.Remove?
    ensures Tells(Next(c, step), StaysUnsaved(c, step, unsaved))
  {
    hide Before, Encoded, Sorted, Fits, Fitted, Without, SameKey;
    if c.sending.Some? {
      WithoutWithin(c.queue, c.sending.value);
      FittedWithin(Without(c.queue, c.sending.value));
    }
  }

  lemma TellsStep(c: Client, step: Step, unsaved: bool)
    requires Inv(c) && Tells(c, unsaved)
    ensures Tells(Next(c, step), StaysUnsaved(c, step, unsaved))
  {
    match step
    case Collect(_, _, _) => TellsCollect(c, step, unsaved);
    case Remove(_) => TellsRemove(c, step, unsaved);
    case Take(now) =>
      YoungIsFine(c.queue, now);
      hide Young, Sorted, Encoded;
    case Boot(agent, now, _, _, invalid) =>
      ChosenMembers(c.file, agent, now, invalid);
      hide Chosen, Sorted, Encoded, Restorable;
    case _ => hide Sorted, Encoded;
  }

  lemma {:induction false} RunTells(steps: seq<Step>)
    ensures Tells(After(steps), Unsaved(steps))
  {
    if |steps| > 0 {
      hide Tells, Inv, Next, StaysUnsaved;
      RunKeeps(steps[..|steps| - 1]);
      RunTells(steps[..|steps| - 1]);
      TellsStep(After(steps[..|steps| - 1]), steps[|steps| - 1], Unsaved(steps[..|steps| - 1]));
    }
  }

  /** In every reachable state the queue and the file are bounded and every key occurs
      once in each. What is queued is on disk, except for one reading: that which the
      collector could not save when it ended, until something else is saved. */
  lemma BufferIsBoundedAndSaved(steps: seq<Step>)
    ensures var c := After(steps);
      && |c.queue| <= MAX_BUFFERED && |c.file| <= MAX_BUFFERED
      && (c.file == [] || Encoded(c.file) <= MAX_FILE)
      && (forall i, j :: 0 <= i < j < |c.queue| ==> !SameKey(c.queue[i], c.queue[j]))
      && (forall i, j :: 0 <= i < j < |c.file| ==> !SameKey(c.file[i], c.file[j]))
      && (c.collecting ==> !Unsaved(steps))
      && (forall r :: r in c.queue ==> (r !in c.file <==> Unsaved(steps) && Last(c, r)))
  {
    RunKeeps(steps);
    RunTells(steps);
    hide Encoded, After, Unsaved;
    var c := After(steps);
    forall i, j | 0 <= i < j < |c.queue|
      ensures !SameKey(c.queue[i], c.queue[j])
    {
      assert Before(c.queue[i], c.queue[j]);
    }
    forall i, j | 0 <= i < j < |c.file| ensures !SameKey(c.file[i], c.file[j]) { assert Before(c.file[i], c.file[j]); }
  }

  /** A reading held before a step and not after it, for the cause that step names. */
  ghost predicate LostAt(c: Client, step: Step, r: Reading) {
    (r in Held(c) || New(c, step, r)) && r !in Held(Next(c, step)) && Lost(c, step, r)
  }

  ghost predicate LostSince(steps: seq<Step>, from: nat, r: Reading) {
    exists j :: from <= j < |steps| && LostAt(After(steps[..j]), steps[j], r)
  }

  lemma LostEarlier(steps: seq<Step>, from: nat, r: Reading)
    requires |steps| > 0 && LostSince(steps[..|steps| - 1], from, r)
    ensures LostSince(steps, from, r)
  {
    hide LostAt, Next;
    var before := steps[..|steps| - 1];
    var j :| from <= j < |before| && LostAt(After(before[..j]), before[j], r);
    assert steps[..j] == before[..j] && steps[j] == before[j];
  }

  /** Every reading collected at step i is, however the run goes on, still held or was
      held and lost at a later step to one of the named causes. */
  lemma {:induction false} EveryReadingIsAccountedFor(steps: seq<Step>, i: nat, r: Reading)
    requires i < |steps| && New(After(steps[..i]), steps[i], r)
    ensures r in Held(After(steps)) || LostSince(steps, i, r)
    decreases |steps|
  {
    hide Lost, Held, Next, Inv, New;
    var before, last := steps[..|steps| - 1], steps[|steps| - 1];
    var c := After(before);
    RunKeeps(before);
    StepKeeps(c, last);
    assert steps[..|before|] == before;
    if i < |before| {
      assert before[..i] == steps[..i];
      EveryReadingIsAccountedFor(before, i, r);
      if r in Held(c) {
        assert r in Held(Next(c, last)) || LostAt(After(steps[..|before|]), steps[|before|], r);
      } else {
        LostEarlier(steps, i, r);
      }
    } else {
      assert r in Held(Next(c, last)) || LostAt(After(steps[..|before|]), steps[|before|], r);
    }
  }

  // ---- where readings come from ----

  ghost predicate Has(c: Client, r: Reading) {
    r in c.queue || r in c.file || c.sending == Some(r)
  }

  lemma Origin(c: Client, step: Step, r: Reading)
    requires Inv(c) && Has(Next(c, step), r)
    ensures Has(c, r) || New(c, step, r)
  {
    hide Before, Encoded, Fitted, Young, Chosen, Without, Sorted, Known, Restorable, SameKey;
    match step
    case Boot(agent, now, contact, readable, invalid) => ChosenMembers(c.file, agent, now, invalid);
    case Collect(at, bytes, writable) => FittedWithin(Appended(c, Made(c, at, bytes)).queue);
    case Take(now) => YoungIsFine(c.queue, now);
    case Remove(writable) =>
      if c.sending.Some? {
        WithoutWithin(c.queue, c.sending.value);
        FittedWithin(Without(c.queue, c.sending.value));
      }
    case _ =>
  }

  /** Nothing is made up: whatever is queued, on disk or being sent was collected, as it
      is, at some step. */
  lemma {:induction false} OnlyCollectedReadings(steps: seq<Step>, r: Reading)
    requires Has(After(steps), r)
    ensures exists i :: 0 <= i < |steps| && New(After(steps[..i]), steps[i], r)
  {
    hide New, Inv, Has, Next;
    if |steps| > 0 {
      var before, last := steps[..|steps| - 1], steps[|steps| - 1];
      var c := After(before);
      RunKeeps(before);
      Origin(c, last, r);
      if Has(c, r) {
        OnlyCollectedReadings(before, r);
        var i :| 0 <= i < |before| && New(After(before[..i]), before[i], r);
        assert steps[..i] == before[..i] && steps[i] == before[i];
      } else {
        assert steps[..|before|] == before && New(After(steps[..|before|]), steps[|before|], r);
      }
    } else {
      assert false by { NothingAtFirst(r); }
    }
  }

  lemma NothingAtFirst(r: Reading)
    ensures !Has(After([]), r)
  {}

  /** A key names one reading, wherever it is. */
  ghost predicate Agree(c: Client) {
    && (forall r :: Has(c, r) ==> Known(c, r))
    && (forall a, b :: Has(c, a) && Has(c, b) && SameKey(a, b) ==> a == b)
  }

  lemma AgreeStep(c: Client, step: Step)
    requires Inv(c) && Agree(c)
    ensures Agree(Next(c, step))
  {
    var d := Next(c, step);
    KnownGrows(c, step);
    hide Inv, Has, Next;
    forall r | Has(d, r) ensures Known(d, r) && (Has(c, r) || New(c, step, r)) { Origin(c, step, r); }
    forall a, b | Has(d, a) && Has(d, b) && SameKey(a, b) ensures a == b {
      assert New(c, step, a) ==> !Known(c, a);
      assert New(c, step, b) ==> !Known(c, b);
    }
  }

  lemma KnownGrows(c: Client, step: Step)
    ensures forall r :: Known(c, r) || New(c, step, r) ==> Known(Next(c, step), r)
  {
    hide Fitted, Without, Young, Chosen, Capped, Restorable;
  }

  lemma {:induction false} KeysNameReadings(steps: seq<Step>)
    ensures Agree(After(steps))
  {
    if |steps| > 0 {
      hide Agree, Inv, Next;
      RunKeeps(steps[..|steps| - 1]);
      KeysNameReadings(steps[..|steps| - 1]);
      AgreeStep(After(steps[..|steps| - 1]), steps[|steps| - 1]);
    } else {
      forall r ensures !Has(NEW, r) {}
    }
  }

  lemma {:induction false} KnownStays(steps: seq<Step>, i: nat, r: Reading)
    requires i <= |steps| && Known(After(steps[..i]), r)
    ensures Known(After(steps), r)
  {
    hide Known, Next;
    if i < |steps| {
      var before := steps[..|steps| - 1];
      assert before[..i] == steps[..i];
      KnownStays(before, i, r);
      KnownGrows(After(before), steps[|steps| - 1]);
    } else {
      assert steps[..i] == steps;
    }
  }

  lemma KeysDoNotReturn(steps: seq<Step>, i: nat, k: nat, r: Reading, s: Reading)
    requires i < k < |steps| && New(After(steps[..i]), steps[i], r) && New(After(steps[..k]), steps[k], s)
    ensures !SameKey(r, s)
  {
    hide Next, After;
    KnownGrows(After(steps[..i]), steps[i]);
    AfterStep(steps[..i], steps[i]);
    assert steps[..i] + [steps[i]] == steps[..k][..i + 1];
    KnownStays(steps[..k], i + 1, r);
  }

  /** A key is given to one reading in the whole run. */
  lemma KeysAreUsedOnce(steps: seq<Step>, i: nat, k: nat, r: Reading, s: Reading)
    requires i < |steps| && New(After(steps[..i]), steps[i], r)
    requires k < |steps| && New(After(steps[..k]), steps[k], s)
    ensures SameKey(r, s) <==> i == k
    ensures i == k ==> r == s
  {
    hide After;
    if i < k { KeysDoNotReturn(steps, i, k, r, s); }
    if k < i { KeysDoNotReturn(steps, k, i, s, r); }
  }

  // ---- sending ----

  /** Readings are sent oldest first, and none that is older than 59 minutes. */
  lemma OldestIsSent(steps: seq<Step>, now: int)
    requires After(steps).reporting && After(steps).phase == Idle
    ensures var c := Next(After(steps), Take(now));
      && c.phase == Awaiting && (c.sending.Some? <==> c.queue != [] && !c.paused)
      && (c.sending.Some? ==>
           && c.sending.value in c.queue && c.sending.value.sampledAt >= now - TOO_OLD
           && forall r :: r in c.queue && r != c.sending.value ==> Before(c.sending.value, r))
  {
    RunKeeps(steps);
    hide After, Before, Encoded;
    var q := After(steps).queue;
    var y := Young(q, now);
    YoungIsSuffix(q, now);
    SuffixKeeps(y, q);
    forall r | r in y && r != y[0] ensures Before(y[0], r) {
      var i :| 0 <= i < |y| && y[i] == r;
    }
  }

  /** A reply that does not pause the agent, or no longer does, lets it go on: the next
      reading is queued and saved with what was queued before, and the next request carries
      the oldest one. */
  lemma ResumedAgentCollectsAndSends(steps: seq<Step>, at: int, bytes: nat, now: int)
    requires After(steps).phase == Awaiting && After(steps).sending.None? && After(steps).collecting
    requires var q := After(steps).queue + [Made(After(steps), at, bytes)];
      && |q| <= 600 && Encoded(q) <= 32 * 1024 * 1024 && q[0].sampledAt >= now - 59 * MINUTE
    ensures var q := After(steps).queue + [Made(After(steps), at, bytes)];
      var c := After(steps + [Apply(false)] + [Collect(at, bytes, true)] + [Take(now)]);
      && !c.paused && c.queue == q && c.file == q && c.phase == Awaiting && c.sending == Some(q[0])
  {
    RunKeeps(steps);
    AfterStep(steps, Apply(false));
    AfterStep(steps + [Apply(false)], Collect(at, bytes, true));
    AfterStep(steps + [Apply(false)] + [Collect(at, bytes, true)], Take(now));
    hide After, Encoded, Sorted, Fits, AllKnown, Mirrored;
  }

  /** The cycle of the sender: a request is answered, or fails and may be tried again at
      once; an answer to a reading is followed by its removal, which ends the cycle. */
  lemma SenderCycles(steps: seq<Step>, step: Step)
    requires After(steps).reporting
    ensures var c, d := After(steps), Next(After(steps), step);
      && (c.phase == Idle && step.Take? ==> d.phase == Awaiting)
      && (c.phase == Awaiting && step.Apply? ==>
           d.paused == step.paused && d.sending == c.sending && d.phase == if c.sending.Some? then Removing else Idle)
      && (c.phase == Awaiting && step.Failed? ==> d.phase == Idle && d.queue == c.queue && d.file == c.file)
      && (c.phase == Removing && step == Remove(true) ==> d.phase == Idle && d.reporting)
      && (c.phase != Removing && step == Remove(true) ==> d == c)
  {
    RunKeeps(steps);
    hide After, Fitted, Without, Young;
  }

  /** An acknowledgement, whatever was collected or evicted since the report was sent,
      removes the acknowledged reading alone and leaves the others in order. */
  lemma AcknowledgementRemovesOne(steps: seq<Step>, s: Reading)
    requires After(steps).phase == Removing && After(steps).sending == Some(s)
    ensures var c := After(steps);
      var n := Next(c, Remove(true)).queue;
      (n == c.queue && s !in c.queue) || exists i: nat :: Excised(c.queue, i, s, n) && c.queue[i] == s
  {
    RunKeeps(steps);
    KeysNameReadings(steps);
    var c := After(steps);
    WithoutSize(c.queue, s);
    WithoutIsRemoval(c.queue, s);
    assert c.reporting && Fitted(Without(c.queue, s)) == Without(c.queue, s);
    assert forall x :: x in c.queue && SameKey(x, s) ==> x == s by {
      forall x | x in c.queue && SameKey(x, s) ensures x == s { assert Has(c, x) && Has(c, s); }
    }
    hide After, Before, Encoded, Inv, Agree, Without, Fitted, SameKey, Excised;
  }

  // ---- a pause, and the file ----

  /** A step after which a paused agent is still paused. */
  predicate KeepsPause(step: Step) {
    match step
    case Boot(_, _, contact, _, _) => contact == Some(true)
    case Apply(paused) => paused
    case _ => true
  }

  /** A step that writes the queue to the file: a collector iteration, also one that was
      sampling when the pause came, or the removal of an acknowledged reading. */
  predicate Saves(c: Client, step: Step) {
    match step
    case Collect(_, _, writable) => c.collecting && writable
    case Remove(writable) => c.reporting && c.phase == Removing && c.sending.Some? && writable
    case _ => false
  }

  /** The steps from `from` on begin paused and keep it so. */
  ghost predicate PausedSince(steps: seq<Step>, from: nat) {
    from <= |steps| && After(steps[..from]).paused && forall i :: from <= i < |steps| ==> KeepsPause(steps[i])
  }

  ghost predicate SavedSince(steps: seq<Step>, from: nat) {
    exists i :: from <= i < |steps| && Saves(After(steps[..i]), steps[i])
  }

  lemma PausedStep(c: Client, step: Step)
    requires Inv(c) && c.paused && KeepsPause(step)
    ensures var d := Next(c, step); d.paused && d.file == (if Saves(c, step) then [] else c.file)
  {
    assert Fitted([]) == [];
    hide Sorted, Fits, AllKnown, Mirrored, Known, Chosen;
  }

  lemma SavedSinceStep(steps: seq<Step>, from: nat)
    requires from < |steps|
    ensures var before := steps[..|steps| - 1];
      SavedSince(steps, from) <==> SavedSince(before, from) || Saves(After(before), steps[|steps| - 1])
  {
    hide After, Saves;
    var before, last := steps[..|steps| - 1], |steps| - 1;
    assert forall i :: 0 <= i < last ==> before[..i] == steps[..i] && before[i] == steps[i];
  }

  /** Exactly when a pause reaches the file, however the run goes on while paused: when
      something is saved. */
  lemma {:induction false} PauseReachesFileExactly(steps: seq<Step>, from: nat)
    requires PausedSince(steps, from)
    ensures var c := After(steps);
      && c.paused && c.queue == []
      && c.file == (if SavedSince(steps, from) then [] else After(steps[..from]).file)
      && (c.file == [] <==> After(steps[..from]).file == [] || SavedSince(steps, from))
  {
    RunKeeps(steps);
    if from < |steps| {
      hide Next, KeepsPause;
      var before := steps[..|steps| - 1];
      assert before[..from] == steps[..from];
      PauseReachesFileExactly(before, from);
      RunKeeps(before);
      hide Inv;
      SavedSinceStep(steps, from);
      PausedStep(After(before), steps[|steps| - 1]);
    } else {
      assert steps[..from] == steps;
    }
  }

  /** Exactly which readings are back when the process ends during a pause and is started
      again: those on disk when the pause began, if nothing was saved since, the agent is
      not told again that it is paused, the file is readable, and the reading still passes
      validation. */
  lemma PausedReadingsReturnExactly(steps: seq<Step>, from: nat, boot: Step, r: Reading)
    requires PausedSince(steps, from) && !Running(After(steps)) && boot.Boot?
    ensures r in After(steps + [boot]).queue <==>
      && r in After(steps[..from]).file && !SavedSince(steps, from)
      && boot.contact != Some(true) && boot.readable && r.agent == boot.agent && r !in boot.invalid
      && boot.now - HOUR <= r.sampledAt <= boot.now + 30 * SECOND
  {
    PauseReachesFileExactly(steps, from);
    RunKeeps(steps);
    BootAdmits(After(steps), boot, r);
    AfterStep(steps, boot);
    hide After, Next, Inv, Restorable, PausedSince, SavedSince;
  }

  /** Exactly which readings a start of the process restores, and whether it is paused. */
  lemma BootAdmits(c: Client, step: Step, r: Reading)
    requires Inv(c) && !Running(c) && step.Boot?
    ensures r in Next(c, step).queue <==>
      && r in c.file && step.contact != Some(true) && step.readable
      && r.agent == step.agent && r !in step.invalid
      && step.now - HOUR <= r.sampledAt <= step.now + 30 * SECOND
    ensures Next(c, step).paused <==> step.contact == Some(true)
    ensures Next(c, step).collecting && Next(c, step).reporting && Next(c, step).file == c.file
  {
    ChosenMembers(c.file, step.agent, step.now, step.invalid);
    ChosenSize(c.file, step.agent, step.now, step.invalid);
    hide Restorable, Sorted, Encoded, Chosen;
  }

  // ---- concrete runs ----

  lemma AfterStep(before: seq<Step>, step: Step)
    ensures After(before + [step]) == Next(After(before), step)
  {
    hide Next;
    assert (before + [step])[..|before|] == before;
  }

  lemma StartsThere()
    ensures After([]) == NEW
  {}

  const STARTED := Boot("a", 0, None, true, {})

  const BOOTED := Client("a", true, true, false, [], [], 1, 0, Idle, None)

  /** The first reading of the first session. */
  const FIRST := Reading("a", 1, 1, 0, 100)

  lemma FirstBoot()
    ensures After([STARTED]) == BOOTED
  {
    AfterStep([], STARTED);
    assert [] + [STARTED] == [STARTED];
    StartsThere();
  }

  /** A request without a reading is out while the first reading is collected, and the
      reply pauses the agent. */
  const PAUSING := [STARTED] + [Take(0)] + [Collect(0, 100, true)] + [Apply(true)]

  lemma PauseComes()
    ensures After(PAUSING) == BOOTED.(paused := true, file := [FIRST], sequence := 1)
    ensures LostAt(After([STARTED] + [Take(0)] + [Collect(0, 100, true)]), Apply(true), FIRST)
  {
    FirstReadingSaved();
    AfterStep([STARTED] + [Take(0)] + [Collect(0, 100, true)], Apply(true));
    hide After;
  }

  /** A reply that pauses collection discards the queue in memory only: after a crash, and
      a restart that cannot reach the server, a discarded reading is back. */
  lemma PausedReadingsMayReturn()
    ensures var steps := [STARTED] + [Take(0)] + [Collect(0, 100, true)];
      && LostAt(After(steps), Apply(true), FIRST)
      && FIRST in After(PAUSING + [Crash] + [Boot("a", 1, None, true, {})]).queue
  {
    PauseComes();
    AfterStep(PAUSING, Crash);
    var run := PAUSING + [Crash];
    PausedRun(PAUSING, Crash);
    SavedSinceStep(run, |PAUSING|);
    assert !SavedSince(PAUSING, |PAUSING|);
    PausedReadingsReturnExactly(run, |PAUSING|, Boot("a", 1, None, true, {}), FIRST);
    hide After, LostAt;
    assert run[..|PAUSING|] == PAUSING;
  }

  lemma PausedRun(before: seq<Step>, step: Step)
    requires After(before).paused && KeepsPause(step)
    ensures PausedSince(before + [step], |before|) && (before + [step])[..|before|] == before
  {
    hide After;
    assert (before + [step])[..|before|] == before;
  }

  /** A collector that was sampling when the pause came saves the emptied queue: the
      reading is gone from the file too, although nothing was acknowledged. */
  lemma CollectorSavesThePause()
    ensures After(PAUSING).file == [FIRST] && After(PAUSING).sending.None?
    ensures After(PAUSING + [Collect(3, 100, true)]).file == []
  {
    PauseComes();
    AfterStep(PAUSING, Collect(3, 100, true));
    PausedStep(After(PAUSING), Collect(3, 100, true)) by { RunKeeps(PAUSING); }
    hide After;
  }

  lemma FirstReadingSaved()
    ensures After([STARTED] + [Take(0)] + [Collect(0, 100, true)])
      == BOOTED.(queue := [FIRST], file := [FIRST], sequence := 1, phase := Awaiting)
  {
    FirstBoot();
    AfterStep([STARTED], Take(0));
    AfterStep([STARTED] + [Take(0)], Collect(0, 100, true));
    hide After;
    var none: Queue := [];
    assert Encoded([FIRST]) == 102 by { assert [FIRST][1..] == none; }
    assert none + [FIRST] == [FIRST];
  }

  /** A save that fails ends the collector but not the process: the reading stays queued
      without being on disk, and is still sent, acknowledged and removed. */
  lemma UnsavedReadingIsStillSent()
    ensures var steps := [STARTED] + [Collect(0, 100, false)];
      var c := After(steps);
      && c.reporting && !c.collecting && c.queue == [FIRST] && c.file == []
      && LostAt(After(steps + [Take(0)] + [Apply(false)]), Remove(true), FIRST)
      && LostAt(c, Crash, FIRST)
  {
    FirstBoot();
    var steps := [STARTED] + [Collect(0, 100, false)];
    AfterStep([STARTED], Collect(0, 100, false));
    AfterStep(steps, Take(0));
    AfterStep(steps + [Take(0)], Apply(false));
    hide After;
    var none: Queue := [];
    assert Encoded([FIRST]) == 102 by { assert [FIRST][1..] == none; }
    assert none + [FIRST] == [FIRST];
    var c := BOOTED.(queue := [FIRST], sequence := 1, collecting := false);
    assert After(steps) == c;
    assert After(steps + [Take(0)] + [Apply(false)]) == c.(phase := Removing, sending := Some(FIRST));
    assert Without([FIRST], FIRST) == none by { assert [FIRST][1..] == none; }
  }
}
