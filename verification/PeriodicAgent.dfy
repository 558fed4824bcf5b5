/**
 The bounded periodic agent: a main loop over a state file, with a crash possible
 before any save. Records are told apart by their event id, fresh per run.
 */
module PeriodicAgent {
  import opened Wrappers

  const MAX_MODEL_CALLS: nat := 48
  const INTERVAL_SECONDS: int := 3600

  /** A delivery record: its stream sequence number, its slot and a fresh event id. */
  datatype Record = Record(sequence: nat, slot: nat, eventId: nat, verdict: Option<bool>)

  /** The state file; startedAt and expiresAt never change and are not listed. */
  datatype State = State(
    nextSlot: nat, attempts: nat, accepted: nat, sequence: nat, heartbeatSequence: nat, pending: Option<Record>, retryAt: int)

  /** Where the loop is, between two saves or external calls. */
  datatype Phase =
    | Head
    | SlotTaken(slot: nat)        // nextSlot saved, the heartbeat is next
    | HeartbeatSent(slot: nat)    // heartbeat saved, the attempt is next
    | Attempted(slot: nat)        // attempts saved, the model call is next
    | Classified(record: Record)  // model called, the pending record is not saved yet
    | Delivering                  // pending saved, record_run is next
    | Delivered                   // the API accepted the record, the final save is next

  datatype World = World(file: State, memory: State, phase: Phase, calls: seq<nat>, sent: seq<Record>, issued: nat)

  datatype Step =
    | Wake(now: int)                       // one pass of the loop head at a clock reading
    | Heartbeat(ok: bool)
    | Attempt
    | Classify(verdict: Option<bool>)
    | SavePending
    | Deliver(ok: bool, now: int)          // record_run, then the retry save on failure
    | Finalize
    | Crash                                // at any point; the next process loads the file

  const FIRST: State := State(0, 0, 0, 0, 0, None, 0)

  function Start(): World {
    World(FIRST, FIRST, Head, [], [], 0)
  }

  /** The slot the loop would take: the current hour, but never one already passed. */
  function SlotAt(s: State, now: int, startedAt: int): int {
    var hour := (now - startedAt) / INTERVAL_SECONDS;
    if hour > s.nextSlot then hour else s.nextSlot
  }

  /** Whether the loop head starts a check in the slot. */
  predicate Due(s: State, now: int, startedAt: int) {
    && s.pending.None? && s.attempts < MAX_MODEL_CALLS && SlotAt(s, now, startedAt) < MAX_MODEL_CALLS
    && now >= startedAt + SlotAt(s, now, startedAt) * INTERVAL_SECONDS
  }

  function Saved(w: World, s: State, phase: Phase): World {
    w.(memory := s, file := s, phase := phase)
  }

  function Next(startedAt: int, w: World, step: Step): World {
    var s := w.memory;
    match step
    case Wake(now) =>
      if !w.phase.Head? then w
      else if s.pending.Some? then (if now < s.retryAt then w else w.(phase := Delivering))
      else if !Due(s, now, startedAt) then w
      else
        var slot := SlotAt(s, now, startedAt);
        Saved(w, s.(nextSlot := slot + 1), SlotTaken(slot))
    case Heartbeat(ok) =>
      if !w.phase.SlotTaken? then w
      else if !ok then w.(phase := Head)
      else Saved(w, s.(heartbeatSequence := s.heartbeatSequence + 1), HeartbeatSent(w.phase.slot))
    case Attempt =>
      if !w.phase.HeartbeatSent? then w else Saved(w, s.(attempts := s.attempts + 1), Attempted(w.phase.slot))
    case Classify(verdict) =>
      if !w.phase.Attempted? then w
      else w.(phase := Classified(Record(s.sequence, w.phase.slot, w.issued, verdict)), calls := w.calls + [w.phase.slot], issued := w.issued + 1)
    case SavePending =>
      if !w.phase.Classified? then w else Saved(w, s.(pending := Some(w.phase.record), retryAt := 0), Delivering)
    case Deliver(ok, now) =>
      if !w.phase.Delivering? || s.pending.None? then w
      else
        var w' := w.(sent := w.sent + [s.pending.value]);
        if ok then w'.(phase := Delivered) else Saved(w', s.(retryAt := now + 300), Head)
    case Finalize =>
      if !w.phase.Delivered? || s.pending.None? then w
      else Saved(w, s.(sequence := s.pending.value.sequence + 1, accepted := s.accepted + 1, pending := None, retryAt := 0), Head)
    case Crash => w.(memory := w.file, phase := Head)
  }

  function Run(startedAt: int, steps: seq<Step>): World {
    if steps == [] then Start() else Next(startedAt, Run(startedAt, steps[..|steps| - 1]), steps[|steps| - 1])
  }

  // -------------------------------------------------------------------------
  // What every run keeps
  // -------------------------------------------------------------------------

  /** The counters, with one attempt set aside for a pending record. */
  predicate Counters(s: State) {
    && s.accepted == s.sequence
    && s.sequence + (if s.pending.Some? then 1 else 0) <= s.attempts <= s.nextSlot <= MAX_MODEL_CALLS
    && (s.pending.Some? ==> s.pending.value.sequence == s.sequence)
  }

  /** Model calls so far: one per attempt at most, in increasing slots already taken. */
  predicate CallsInOrder(w: World) {
    && |w.calls| <= w.file.attempts
    && (forall i, j :: 0 <= i < j < |w.calls| ==> w.calls[i] < w.calls[j])
    && (forall i :: 0 <= i < |w.calls| ==> w.calls[i] < w.file.nextSlot)
  }

  predicate InSlot(w: World, slot: nat) {
    && w.memory.pending.None? && slot + 1 == w.memory.nextSlot
    && forall i :: 0 <= i < |w.calls| ==> w.calls[i] < slot
  }

  /** What has been sent is settled, or is the pending record. */
  predicate SentSettled(w: World) {
    && (forall i :: 0 <= i < |w.sent| ==> w.sent[i].sequence < w.file.sequence || w.file.pending == Some(w.sent[i]))
    && (forall i, j :: 0 <= i < |w.sent| && 0 <= j < |w.sent| && w.sent[i].sequence == w.sent[j].sequence ==> w.sent[i] == w.sent[j])
  }

  predicate PhaseFits(w: World) {
    match w.phase
    case Head => true
    case SlotTaken(slot) => InSlot(w, slot) && w.memory.attempts < w.memory.nextSlot && w.memory.attempts < MAX_MODEL_CALLS
    case HeartbeatSent(slot) => InSlot(w, slot) && w.memory.attempts < w.memory.nextSlot && w.memory.attempts < MAX_MODEL_CALLS
    case Attempted(slot) => InSlot(w, slot) && |w.calls| < w.memory.attempts && w.memory.sequence < w.memory.attempts
    case Classified(r) => w.memory.pending.None? && r.sequence == w.memory.sequence < w.memory.attempts
    case Delivering => w.memory.pending.Some?
    case Delivered => w.memory.pending.Some?
  }

  predicate Inv(w: World) {
    w.memory == w.file && Counters(w.file) && CallsInOrder(w) && SentSettled(w) && PhaseFits(w)
  }

  lemma DeliverKeepsInv(startedAt: int, w: World, ok: bool, now: int)
    requires Inv(w)
    ensures Inv(Next(startedAt, w, Deliver(ok, now)))
  {
  }

  lemma ClassifyKeepsInv(startedAt: int, w: World, verdict: Option<bool>)
    requires Inv(w)
    ensures Inv(Next(startedAt, w, Classify(verdict)))
  {
  }

  lemma NextKeepsInv(startedAt: int, w: World, step: Step)
    requires Inv(w)
    ensures Inv(Next(startedAt, w, step))
  {
    match step
    case Deliver(ok, now) => DeliverKeepsInv(startedAt, w, ok, now);
    case Classify(verdict) => ClassifyKeepsInv(startedAt, w, verdict);
    case _ =>
  }

  lemma {:induction false} EveryRunKeepsInv(startedAt: int, steps: seq<Step>)
    ensures Inv(Run(startedAt, steps))
    decreases |steps|
  {
    if steps != [] {
      hide Next, Inv;
      EveryRunKeepsInv(startedAt, steps[..|steps| - 1]);
      NextKeepsInv(startedAt, Run(startedAt, steps[..|steps| - 1]), steps[|steps| - 1]);
    } else {
      StartInv();
    }
  }

  lemma StartInv()
    ensures Inv(Start())
  {
  }

  /** load_state's refusal of run limits out of range. */
  predicate Loads(s: State) {
    s.attempts <= MAX_MODEL_CALLS && s.sequence <= MAX_MODEL_CALLS
  }

  /**
   Over any number of crashes and restarts: at most 48 model calls and one per
   slot, accepted = sequence <= attempts <= nextSlot <= 48 in the file at all
   times, no sequence number sent with two different records, and a file that
   the next process always loads.
   */
  lemma BoundedAgent(startedAt: int, steps: seq<Step>)
    ensures var w := Run(startedAt, steps);
            && |w.calls| <= MAX_MODEL_CALLS
            && (forall i, j :: 0 <= i < j < |w.calls| ==> w.calls[i] != w.calls[j])
            && w.file.accepted == w.file.sequence <= w.file.attempts <= w.file.nextSlot <= MAX_MODEL_CALLS
            && (forall i, j :: 0 <= i < |w.sent| && 0 <= j < |w.sent| && w.sent[i].sequence == w.sent[j].sequence ==> w.sent[i] == w.sent[j])
            && Loads(w.file)
  {
    hide Run;
    EveryRunKeepsInv(startedAt, steps);
  }

  // -------------------------------------------------------------------------
  // The source's loop, without crashes
  // -------------------------------------------------------------------------

  /** What one pass of the loop meets: clock readings and the answers of its external calls. */
  datatype Pass = Pass(now: int, heartbeat: bool, verdict: Option<bool>, delivered: bool, later: int)

  /** The steps of one pass; those that do not apply leave the world as it is. */
  function AfterPass(startedAt: int, w: World, p: Pass): World {
    AfterWake(startedAt, Next(startedAt, w, Wake(p.now)), p)
  }

  function AfterWake(startedAt: int, w: World, p: Pass): World {
    AfterHeartbeat(startedAt, Next(startedAt, w, Heartbeat(p.heartbeat)), p)
  }

  function AfterHeartbeat(startedAt: int, w: World, p: Pass): World {
    var called := Next(startedAt, Next(startedAt, w, Attempt), Classify(p.verdict));
    Next(startedAt, Next(startedAt, Next(startedAt, called, SavePending), Deliver(p.delivered, p.later)), Finalize)
  }

  function AfterSlot(startedAt: int, w: World, slot: nat, p: Pass): World {
    AfterWake(startedAt, Saved(w, w.memory.(nextSlot := slot + 1), SlotTaken(slot)), p)
  }

  function AfterPasses(startedAt: int, w: World, passes: seq<Pass>): World {
    if passes == [] then w
    else AfterPass(startedAt, AfterPasses(startedAt, w, passes[..|passes| - 1]), passes[|passes| - 1])
  }

  lemma PassKeepsInv(startedAt: int, w: World, p: Pass)
    requires Inv(w)
    ensures Inv(AfterPass(startedAt, w, p))
  {
    hide Next, Inv;
    var woken := Next(startedAt, w, Wake(p.now));
    var beaten := Next(startedAt, woken, Heartbeat(p.heartbeat));
    var tried := Next(startedAt, beaten, Attempt);
    var called := Next(startedAt, tried, Classify(p.verdict));
    var saved := Next(startedAt, called, SavePending);
    NextKeepsInv(startedAt, w, Wake(p.now));
    NextKeepsInv(startedAt, woken, Heartbeat(p.heartbeat));
    NextKeepsInv(startedAt, beaten, Attempt);
    NextKeepsInv(startedAt, tried, Classify(p.verdict));
    NextKeepsInv(startedAt, called, SavePending);
    NextKeepsInv(startedAt, saved, Deliver(p.delivered, p.later));
    NextKeepsInv(startedAt, Next(startedAt, saved, Deliver(p.delivered, p.later)), Finalize);
  }

  // -------------------------------------------------------------------------
  // What one pass does
  // -------------------------------------------------------------------------

  /** The clock is in the slot's hour. */
  predicate InHour(now: int, startedAt: int, slot: int) {
    startedAt + slot * INTERVAL_SECONDS <= now < startedAt + (slot + 1) * INTERVAL_SECONDS
  }

  /** A check is due exactly in a slot not yet passed whose hour it is: hours that were missed are skipped. */
  lemma DueIff(s: State, now: int, startedAt: int)
    ensures Due(s, now, startedAt) <==>
            && s.pending.None? && s.attempts < MAX_MODEL_CALLS
            && exists slot: nat :: InHour(now, startedAt, slot) && s.nextSlot <= slot < MAX_MODEL_CALLS
    ensures Due(s, now, startedAt) ==> SlotAt(s, now, startedAt) >= s.nextSlot && InHour(now, startedAt, SlotAt(s, now, startedAt))
  {
    if slot: nat :| InHour(now, startedAt, slot) && s.nextSlot <= slot < MAX_MODEL_CALLS {
      assert (now - startedAt) / INTERVAL_SECONDS == slot;
    }
    if Due(s, now, startedAt) {
      assert InHour(now, startedAt, SlotAt(s, now, startedAt));
    }
  }

  lemma OneHour(now: int, startedAt: int, slot: int, other: int)
    requires InHour(now, startedAt, slot) && InHour(now, startedAt, other)
    ensures slot == other
  {
  }

  /** The record was sent: it is settled if the API accepted it, else kept for a retry in 300 seconds. */
  predicate SentOnce(w: World, w': World, r: Record, p: Pass) {
    && w'.sent == w.sent + [r]
    && (if p.delivered then
          && w'.file.sequence == r.sequence + 1 && w'.file.accepted == w.file.accepted + 1
          && w'.file.pending.None? && w'.file.retryAt == 0
        else
          && w'.file.sequence == w.file.sequence && w'.file.accepted == w.file.accepted
          && w'.file.pending == Some(r) && w'.file.retryAt == p.later + 300)
  }

  /** The slot is used up; with a heartbeat there is one model call, one attempt and one record for it. */
  predicate SlotChecked(w: World, w': World, slot: nat, p: Pass) {
    if !p.heartbeat then
      w' == w.(file := w.file.(nextSlot := slot + 1), memory := w.file.(nextSlot := slot + 1))
    else
      && w'.calls == w.calls + [slot] && w'.issued == w.issued + 1
      && w'.file.nextSlot == slot + 1 && w'.file.attempts == w.file.attempts + 1
      && w'.file.heartbeatSequence == w.file.heartbeatSequence + 1
      && SentOnce(w, w', Record(w.file.sequence, slot, w.issued, p.verdict), p)
  }

  /** The pending record is sent again, and nothing else happens. */
  predicate Resent(w: World, w': World, r: Record, p: Pass) {
    && w'.calls == w.calls && w'.issued == w.issued
    && w'.file.nextSlot == w.file.nextSlot && w'.file.attempts == w.file.attempts
    && w'.file.heartbeatSequence == w.file.heartbeatSequence
    && SentOnce(w, w', r, p)
  }

  /**
   The effect of a pass: a pending record is sent again once its retry time has
   come; otherwise the slot of the current hour is checked if it is not used up and
   attempts remain.
   */
  ghost predicate PassEffect(startedAt: int, w: World, w': World, p: Pass) {
    var s := w.file;
    && w'.phase.Head? && w'.memory == w'.file
    && (s.pending.Some? && p.now < s.retryAt ==> w' == w)
    && (s.pending.Some? && p.now >= s.retryAt ==> Resent(w, w', s.pending.value, p))
    && (s.pending.None? ==>
          (forall slot: nat :: InHour(p.now, startedAt, slot) && s.nextSlot <= slot < MAX_MODEL_CALLS && s.attempts < MAX_MODEL_CALLS ==>
             SlotChecked(w, w', slot, p))
          && ((forall slot: nat :: InHour(p.now, startedAt, slot) ==> !(s.nextSlot <= slot < MAX_MODEL_CALLS && s.attempts < MAX_MODEL_CALLS)) ==>
                w' == w))
  }

  lemma ResentIs(startedAt: int, w: World, p: Pass)
    requires w.phase.Head? && w.memory == w.file && w.file.pending.Some?
    ensures PassEffect(startedAt, w, AfterPass(startedAt, w, p), p)
  {
  }

  lemma SlotCheckedIs(startedAt: int, w: World, slot: nat, p: Pass)
    requires w.phase.Head? && w.memory == w.file && w.file.pending.None?
    ensures SlotChecked(w, AfterSlot(startedAt, w, slot, p), slot, p)
    ensures var w' := AfterSlot(startedAt, w, slot, p); w'.phase.Head? && w'.memory == w'.file
  {
  }

  lemma NotDueIs(startedAt: int, w: World, p: Pass)
    requires w.phase.Head? && w.memory == w.file && w.file.pending.None? && !Due(w.file, p.now, startedAt)
    ensures AfterPass(startedAt, w, p) == w
  {
    hide Due;
  }

  lemma DueIs(startedAt: int, w: World, p: Pass)
    requires w.phase.Head? && w.memory == w.file && w.file.pending.None? && Due(w.file, p.now, startedAt)
    ensures AfterPass(startedAt, w, p) == AfterSlot(startedAt, w, SlotAt(w.file, p.now, startedAt), p)
  {
    hide AfterWake;
  }

  /** The seven steps of a pass have exactly the effect of PassEffect. */
  lemma PassIs(startedAt: int, w: World, p: Pass)
    requires Inv(w) && w.phase.Head?
    ensures PassEffect(startedAt, w, AfterPass(startedAt, w, p), p)
  {
    hide AfterPass, AfterSlot, Next, InHour, SlotChecked, SlotAt, Due;
    if w.file.pending.Some? {
      ResentIs(startedAt, w, p);
    } else {
      DueIff(w.file, p.now, startedAt);
      if Due(w.file, p.now, startedAt) {
        var due := SlotAt(w.file, p.now, startedAt);
        DueIs(startedAt, w, p);
        SlotCheckedIs(startedAt, w, due, p);
        forall slot: nat | InHour(p.now, startedAt, slot) ensures slot == due {
          OneHour(p.now, startedAt, slot, due);
        }
      } else {
        NotDueIs(startedAt, w, p);
      }
    }
  }

  // -------------------------------------------------------------------------
  // What is in the file when an external call is made
  // -------------------------------------------------------------------------

  /** The slot is used up before the heartbeat, the attempt counted before the model call, the record kept before it is sent. */
  function SlotFiles(s: State, slot: nat, issued: nat, p: Pass): (files: seq<State>)
    ensures |files| == if p.heartbeat then 3 else 1
  {
    var taken := s.(nextSlot := slot + 1);
    var tried := taken.(heartbeatSequence := s.heartbeatSequence + 1, attempts := s.attempts + 1);
    var kept := tried.(pending := Some(Record(s.sequence, slot, issued, p.verdict)), retryAt := 0);
    if p.heartbeat then [taken, tried, kept] else [taken]
  }

  /** The files that the external calls of a pass meet. */
  ghost predicate PassFiles(startedAt: int, w: World, files: seq<State>, p: Pass) {
    var s := w.file;
    && (s.pending.Some? ==> files == if p.now < s.retryAt then [] else [s])
    && (s.pending.None? ==>
          if Due(s, p.now, startedAt) then files == SlotFiles(s, SlotAt(s, p.now, startedAt), w.issued, p) else files == [])
  }

  /** They are the files that a crash at that call leaves: the step machine's at the heartbeat, the model call and the delivery. */
  lemma StepFiles(startedAt: int, w: World, p: Pass)
    requires w.phase.Head? && w.memory == w.file && w.file.pending.None? && Due(w.file, p.now, startedAt) && p.heartbeat
    ensures var files := SlotFiles(w.file, SlotAt(w.file, p.now, startedAt), w.issued, p);
            var woken := Next(startedAt, w, Wake(p.now));
            var tried := Next(startedAt, Next(startedAt, woken, Heartbeat(true)), Attempt);
            var kept := Next(startedAt, Next(startedAt, tried, Classify(p.verdict)), SavePending);
            && woken.phase.SlotTaken? && woken.file == files[0]
            && tried.phase.Attempted? && tried.file == files[1]
            && kept.phase.Delivering? && kept.file == files[2]
  {
    hide Due, SlotAt;
  }

  /** A process started after a crash is at the head of its loop with what the file holds. */
  lemma CrashReadsFile(startedAt: int, steps: seq<Step>)
    ensures var w, w' := Run(startedAt, steps), Run(startedAt, steps + [Crash]);
            w' == w.(memory := w.file, phase := Head)
  {
    assert (steps + [Crash])[..|steps|] == steps;
  }

  class Agent {
    const startedAt: int
    var state: State
    var file: State
    var calls: seq<nat>
    var sent: seq<Record>
    var issued: nat
    /** The state file at each external call made. */
    ghost var met: seq<State>

    /** The world at the loop head. */
    ghost function View(): World
      reads this
    {
      World(file, state, Head, calls, sent, issued)
    }

    constructor (startedAt: int)
      ensures this.startedAt == startedAt && View() == Start() && met == []
    {
      this.startedAt := startedAt;
      state, file, calls, sent, issued, met := FIRST, FIRST, [], [], 0, [];
    }

    method SaveState()
      modifies this`file
      ensures file == state
    {
      file := state;
    }

    method FinalizePending()
      requires state.pending.Some?
      modifies this`state, this`file
      ensures View() == Next(startedAt, old(View()).(phase := Delivered), Finalize)
    {
      state := state.(sequence := state.pending.value.sequence + 1);
      state := state.(accepted := state.accepted + 1);
      state := state.(pending := None, retryAt := 0);
      SaveState();
    }

    method SendPending(delivered: bool, later: int) returns (done: bool)
      requires state.pending.Some?
      modifies this`state, this`file, this`sent, this`met
      ensures done == delivered && met == old(met) + [old(file)]
      ensures View() == Next(startedAt, Next(startedAt, old(View()).(phase := Delivering), Deliver(delivered, later)), Finalize)
    {
      met := met + [file];
      sent := sent + [state.pending.value];
      if delivered {
        FinalizePending();
        return true;
      }
      state := state.(retryAt := later + 300);
      SaveState();
      return false;
    }

    /** One pass of the main loop. */
    method LoopPass(p: Pass)
      requires Inv(View())
      modifies this
      ensures View() == AfterPass(startedAt, old(View()), p) && Inv(View())
      ensures PassEffect(startedAt, old(View()), View(), p)
      ensures old(met) <= met && PassFiles(startedAt, old(View()), met[|old(met)|..], p)
    {
      PassKeepsInv(startedAt, View(), p);
      PassIs(startedAt, View(), p);
      hide Inv, PassEffect;
      if state.pending.Some? {
        if p.now >= state.retryAt {
          var _ := SendPending(p.delivered, p.later);
        }
        return;
      }
      if state.attempts >= MAX_MODEL_CALLS {
        return;
      }
      var slot := SlotAt(state, p.now, startedAt);
      if slot >= MAX_MODEL_CALLS || p.now < startedAt + slot * INTERVAL_SECONDS {
        return;
      }
      CheckSlot(slot, p);
    }

    /** The check of a slot that is due: slot, heartbeat, attempt, model call, pending record, delivery. */
    method CheckSlot(slot: nat, p: Pass)
      requires state.pending.None?
      modifies this
      ensures View() == AfterSlot(startedAt, old(View()), slot, p)
      ensures met == old(met) + SlotFiles(old(state), slot, old(issued), p)
    {
      state := state.(nextSlot := slot + 1);
      SaveState();
      met := met + [file];
      if !p.heartbeat {
        return;
      }
      state := state.(heartbeatSequence := state.heartbeatSequence + 1);
      SaveState();
      TryModel(slot, p);
    }

    /** From the attempt on: one model call, its record, and the delivery. */
    method TryModel(slot: nat, p: Pass)
      requires state.pending.None?
      modifies this
      ensures View() == AfterHeartbeat(startedAt, old(View()).(phase := HeartbeatSent(slot)), p)
      ensures var tried := old(state).(attempts := old(state).attempts + 1);
              met == old(met) + [tried, tried.(pending := Some(Record(tried.sequence, slot, old(issued), p.verdict)), retryAt := 0)]
    {
      state := state.(attempts := state.attempts + 1);
      SaveState();
      met := met + [file];
      calls := calls + [slot];
      var record := Record(state.sequence, slot, issued, p.verdict);
      issued := issued + 1;
      state := state.(pending := Some(record), retryAt := 0);
      SaveState();
      var _ := SendPending(p.delivered, p.later);
    }

    /** Any number of passes from any state the agent can be in, one after another. */
    method MainLoop(passes: seq<Pass>)
      requires Inv(View())
      modifies this
      ensures View() == AfterPasses(startedAt, old(View()), passes) && Inv(View())
    {
      hide Inv, AfterPass, PassEffect;
      var i := 0;
      while i < |passes|
        invariant 0 <= i <= |passes|
        invariant View() == AfterPasses(startedAt, old(View()), passes[..i]) && Inv(View())
      {
        assert passes[..i + 1][..i] == passes[..i];
        LoopPass(passes[i]);
        i := i + 1;
      }
      assert passes[..i] == passes;
    }
  }
}
