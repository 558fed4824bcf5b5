/**
 The durable ingress service: a queue in memory, and on disk its last snapshot,
 a journal of the submissions accepted since, and the prepared batches. Every
 file write is atomic; a crash can fall after any of them. Writes of the metrics
 file, on which nothing depends, are not modelled.
 */
module IngressService {
  import opened Wrappers
  import opened IngressQueue

  datatype JournalEvent = JournalEvent(sequence: nat, acceptedAt: int, presentation: Presentation)

  datatype StateFile = StateFile(snapshot: Snapshot, journalSequence: nat)

  datatype PreparedStatus = Prepared | Reported(status: Outcome)

  datatype PreparedBatch = PreparedBatch(receiptIds: seq<Id>, status: PreparedStatus)

  datatype Disk = Disk(state: Option<StateFile>, journal: seq<JournalEvent>, prepared: map<nat, PreparedBatch>)

  datatype Service = Service(queue: Queue, journalSequence: nat, checkpointSequence: nat, prepared: map<nat, PreparedBatch>)

  datatype Config = Config(policy: Policy, checkpointEvery: nat)

  predicate ValidConfig(c: Config) {
    ValidPolicy(c.policy) && c.checkpointEvery >= 1
  }

  // -------------------------------------------------------------------------
  // The constructor: recovery from the files
  // -------------------------------------------------------------------------

  /** Submissions after the checkpoint, in order; None where the constructor throws. */
  function Replay(q: Queue, journal: seq<JournalEvent>, checkpoint: nat): Option<Queue> {
    if journal == [] then Some(q)
    else
      var last := journal[|journal| - 1];
      match Replay(q, journal[..|journal| - 1], checkpoint)
      case None => None
      case Some(front) =>
        if last.sequence < 1 then None
        else if last.sequence <= checkpoint then Some(front)
        else if Decide(front, last.presentation) != Taken then None
        else Some(IngressQueue.Submit(front, last.presentation, last.acceptedAt))
  }

  function MaxSequence(journal: seq<JournalEvent>, least: nat): nat {
    if journal == [] then least
    else
      var front := MaxSequence(journal[..|journal| - 1], least);
      if journal[|journal| - 1].sequence > front then journal[|journal| - 1].sequence else front
  }

  function Checkpoint(d: Disk): nat {
    if d.state.Some? then d.state.value.journalSequence else 0
  }

  function LastSnapshot(c: Config, d: Disk): Result<Queue, RestoreError> {
    if d.state.Some? then FromSnapshot(d.state.value.snapshot) else Ok(Empty(c.policy))
  }

  /** None: the constructor throws. */
  function Restart(c: Config, d: Disk): Option<Service> {
    match LastSnapshot(c, d)
    case Err(_) => None
    case Ok(q) => Resumed(q, d)
  }

  function Resumed(q: Queue, d: Disk): Option<Service> {
    match Replay(q, d.journal, Checkpoint(d))
    case None => None
    case Some(replayed) => Some(Service(replayed, MaxSequence(d.journal, Checkpoint(d)), Checkpoint(d), d.prepared))
  }

  /** The last snapshot has an anchor context that the restore refuses. */
  predicate Refused(d: Disk) {
    d.state.Some? && RefusedContext(d.state.value.snapshot)
  }

  /** What the files hold, refused or not. */
  function Held(c: Config, d: Disk): Option<Service> {
    match if d.state.Some? then Rebuild(d.state.value.snapshot) else Ok(Empty(c.policy))
    case Err(_) => None
    case Ok(q) => Resumed(q, d)
  }

  /** A restart throws for a refused context, and otherwise gives what the files hold. */
  lemma RestartIsHeld(c: Config, d: Disk)
    requires Held(c, d).Some?
    ensures Restart(c, d) == if Refused(d) then None else Held(c, d)
  {
  }

  // -------------------------------------------------------------------------
  // The operations: successive disk contents, final memory and response
  // -------------------------------------------------------------------------

  datatype Op =
    | Submit(p: Presentation, now: int)
    | PrepareNext(now: int, force: bool)
    | Reconcile(batch: nat, r: AnchorResult)
    | RecordResult(batch: nat, ids: seq<Id>, r: AnchorResult)

  datatype Response = Submitted(outcome: Submission) | NothingReady | Returned(batch: Batch) | UnknownBatch | Recorded

  datatype Effect = Effect(writes: seq<Disk>, service: Service, response: Response)

  function Snapshotted(d: Disk, q: Queue, journalSequence: nat): Disk {
    d.(state := Some(StateFile(SnapshotOf(q), journalSequence)))
  }

  /** checkpointQueue: the state file, then the empty journal. */
  function CheckpointWrites(d: Disk, q: Queue, journalSequence: nat): (ds: seq<Disk>)
    ensures |ds| == 2
  {
    var d' := Snapshotted(d, q, journalSequence);
    [d', d'.(journal := [])]
  }

  function Perform(c: Config, s: Service, d: Disk, op: Op): Effect {
    match op
    case Submit(p, now) =>
      if Decide(s.queue, p) != Taken then Effect([], s, Submitted(Decide(s.queue, p)))
      else
        var q, n := IngressQueue.Submit(s.queue, p, now), s.journalSequence + 1;
        var d1 := d.(journal := d.journal + [JournalEvent(n, now, p)]);
        if n - s.checkpointSequence >= c.checkpointEvery then
          Effect([d1] + CheckpointWrites(d1, q, n), s.(queue := q, journalSequence := n, checkpointSequence := n), Submitted(Taken))
        else Effect([d1], s.(queue := q, journalSequence := n), Submitted(Taken))
    case PrepareNext(now, force) =>
      if !Ready(s.queue, now, force) then Effect([], s, NothingReady)
      else
        var b, q := DrainedBatch(s.queue, now), Drained(s.queue);
        var prepared := s.prepared[b.id := PreparedBatch(b.receiptIds, Prepared)];
        var d1 := d.(prepared := prepared);
        Effect([d1] + CheckpointWrites(d1, q, s.journalSequence),
               s.(queue := q, prepared := prepared, checkpointSequence := s.journalSequence), Returned(b))
    case Reconcile(batch, r) =>
      if batch !in s.prepared then Effect([], s, UnknownBatch)
      else
        var q := Record(s.queue, s.prepared[batch].receiptIds, batch, r);
        var prepared := s.prepared[batch := s.prepared[batch].(status := Reported(r.status))];
        var ds := CheckpointWrites(d, q, s.journalSequence);
        Effect(ds + [ds[1].(prepared := prepared)],
               s.(queue := q, prepared := prepared, checkpointSequence := s.journalSequence), Recorded)
    case RecordResult(batch, ids, r) =>
      var q := Record(s.queue, ids, batch, r);
      Effect(CheckpointWrites(d, q, s.journalSequence), s.(queue := q, checkpointSequence := s.journalSequence), Recorded)
  }

  /** The disk after the first k writes. */
  function DiskAfter(d: Disk, writes: seq<Disk>, k: nat): Disk
    requires k <= |writes|
  {
    if k == 0 then d else writes[k - 1]
  }

  // -------------------------------------------------------------------------
  // A service between operations
  // -------------------------------------------------------------------------

  /** Each receipt in flight is listed by the prepared entry of its batch. */
  predicate PreparedCovers(q: Queue, prepared: map<nat, PreparedBatch>) {
    forall id :: id in q.records && q.records[id].status == QueuedForAnchor ==>
      q.records[id].batchId.Some? && q.records[id].batchId.value in prepared && id in prepared[q.records[id].batchId.value].receiptIds
  }

  ghost predicate GoodQueue(c: Config, q: Queue) {
    Valid(q) && q.policy == c.policy
  }

  /** The files hold exactly the service in memory. */
  ghost predicate Consistent(c: Config, s: Service, d: Disk) {
    && ValidConfig(c) && GoodQueue(c, s.queue) && PreparedCovers(s.queue, s.prepared)
    && Held(c, d) == Some(s)
  }

  /** No general receipt is submitted. */
  predicate Legacy(op: Op) {
    op.Submit? ==> op.p.context.None?
  }

  lemma StartConsistent(c: Config)
    requires ValidConfig(c)
    ensures Consistent(c, Service(Empty(c.policy), 0, 0, map[]), Disk(None, [], map[]))
  {
    EmptyValid(c.policy);
  }

  lemma {:induction false} SequencesBounded(journal: seq<JournalEvent>, least: nat, i: nat)
    requires i < |journal|
    ensures journal[i].sequence <= MaxSequence(journal, least)
    decreases |journal|
  {
    if i < |journal| - 1 {
      SequencesBounded(journal[..|journal| - 1], least, i);
    }
  }

  lemma {:induction false} CheckpointedJournalSkipped(q: Queue, journal: seq<JournalEvent>, checkpoint: nat)
    requires forall i :: 0 <= i < |journal| ==> 1 <= journal[i].sequence <= checkpoint
    ensures Replay(q, journal, checkpoint) == Some(q) && MaxSequence(journal, checkpoint) == checkpoint
    decreases |journal|
  {
    if journal != [] {
      CheckpointedJournalSkipped(q, journal[..|journal| - 1], checkpoint);
    }
  }

  lemma {:induction false} ReplayedSequencesPositive(q: Queue, journal: seq<JournalEvent>, checkpoint: nat)
    requires Replay(q, journal, checkpoint).Some?
    ensures forall i :: 0 <= i < |journal| ==> journal[i].sequence >= 1
    decreases |journal|
  {
    if journal != [] {
      ReplayedSequencesPositive(q, journal[..|journal| - 1], checkpoint);
    }
  }

  lemma {:induction false} MaxAtLeast(journal: seq<JournalEvent>, least: nat)
    ensures MaxSequence(journal, least) >= least
    decreases |journal|
  {
    if journal != [] {
      MaxAtLeast(journal[..|journal| - 1], least);
    }
  }

  lemma JournalBelow(c: Config, s: Service, d: Disk)
    requires Held(c, d) == Some(s)
    ensures s.checkpointSequence == Checkpoint(d) <= s.journalSequence && s.prepared == d.prepared
    ensures forall i :: 0 <= i < |d.journal| ==> 1 <= d.journal[i].sequence <= s.journalSequence
  {
    var q := if d.state.Some? then Rebuild(d.state.value.snapshot).value else Empty(c.policy);
    ReplayedSequencesPositive(q, d.journal, Checkpoint(d));
    MaxAtLeast(d.journal, Checkpoint(d));
    forall i | 0 <= i < |d.journal| ensures d.journal[i].sequence <= s.journalSequence {
      SequencesBounded(d.journal, Checkpoint(d), i);
    }
  }

  /** The state file alone restores the queue it was taken from, old journal or not. */
  lemma CheckpointRestores(c: Config, q: Queue, d: Disk, n: nat)
    requires ValidConfig(c) && GoodQueue(c, q)
    requires forall i :: 0 <= i < |d.journal| ==> 1 <= d.journal[i].sequence <= n
    ensures forall k :: 0 <= k < 2 ==> Held(c, CheckpointWrites(d, q, n)[k]) == Some(Service(q, n, n, d.prepared))
  {
    SnapshotRoundTrip(q);
    CheckpointedJournalSkipped(q, d.journal, n);
    CheckpointedJournalSkipped(q, [], n);
  }

  /** One more journal line is one more submission. */
  lemma JournalAppends(c: Config, s: Service, d: Disk, p: Presentation, now: int)
    requires Held(c, d) == Some(s) && Decide(s.queue, p) == Taken
    ensures var n := s.journalSequence + 1;
            Held(c, d.(journal := d.journal + [JournalEvent(n, now, p)]))
            == Some(s.(queue := IngressQueue.Submit(s.queue, p, now), journalSequence := n))
  {
    hide Decide, IngressQueue.Submit, Rebuild;
    JournalBelow(c, s, d);
    var j := d.journal + [JournalEvent(s.journalSequence + 1, now, p)];
    assert j[..|d.journal|] == d.journal;
  }

  // -------------------------------------------------------------------------
  // Crash atomicity of each operation
  // -------------------------------------------------------------------------

  /** Accepted submissions that are in the journal only. */
  function Unsaved(s: Service): int {
    s.journalSequence - s.checkpointSequence
  }

  /** The restart after k writes: before or after the operation, and the memory itself after all of them. */
  ghost predicate Atomic(c: Config, s: Service, d: Disk, e: Effect, commit: nat, k: nat)
    requires k <= |e.writes|
  {
    var r := Held(c, DiskAfter(d, e.writes, k));
    && r.Some? && Consistent(c, r.value, DiskAfter(d, e.writes, k))
    && r.value.queue == (if k < commit then s.queue else e.service.queue)
    && r.value.prepared in {s.prepared, e.service.prepared}
    && Unsaved(r.value) <= Unsaved(s) + 1
    && (k == |e.writes| ==> r.value == e.service)
  }

  lemma SubmitCrash(c: Config, s: Service, d: Disk, p: Presentation, now: int, k: nat)
    requires Consistent(c, s, d)
    requires k <= |Perform(c, s, d, Submit(p, now)).writes|
    ensures Atomic(c, s, d, Perform(c, s, d, Submit(p, now)), 1, k)
  {
    hide Valid, Replay, MaxSequence, Rebuild, IngressQueue.Submit, PreparedCovers, Held, Snapshotted;
    if Decide(s.queue, p) == Taken && k > 0 {
      var q, n := IngressQueue.Submit(s.queue, p, now), s.journalSequence + 1;
      var d1 := d.(journal := d.journal + [JournalEvent(n, now, p)]);
      var s1 := s.(queue := q, journalSequence := n);
      SubmitValid(s.queue, p, now);
      SubmitKeeps(s.queue, p, now, s.prepared);
      JournalAppends(c, s, d, p, now);
      assert Consistent(c, s1, d1);
      JournalBelow(c, s, d);
      if k > 1 {
        JournalBelow(c, s1, d1);
        CheckpointRestores(c, q, d1, n);
        assert Perform(c, s, d, Submit(p, now)).writes[k - 1] == CheckpointWrites(d1, q, n)[k - 2];
      }
    }
  }

  lemma SubmitKeeps(q: Queue, p: Presentation, now: int, prepared: map<nat, PreparedBatch>)
    requires PreparedCovers(q, prepared)
    ensures IngressQueue.Submit(q, p, now).policy == q.policy
    ensures PreparedCovers(IngressQueue.Submit(q, p, now), prepared)
  {
  }

  lemma DrainCovers(q: Queue, prepared: map<nat, PreparedBatch>, now: int)
    requires Valid(q) && PreparedCovers(q, prepared)
    ensures var b := DrainedBatch(q, now);
            var prepared' := prepared[b.id := PreparedBatch(b.receiptIds, Prepared)];
            PreparedCovers(q, prepared') && PreparedCovers(Drained(q), prepared')
  {
    var b := DrainedBatch(q, now);
    forall id | id in q.records
      ensures Drained(q).records[id] == (if id in b.receiptIds then Sent(q.records[id], b.id) else q.records[id])
      ensures q.records[id].batchId.Some? ==> q.records[id].batchId.value < b.id
    {
      DrainedRecords(q, id);
      assert ValidEntry(q.policy, q.sequence, id, q.records[id]);
    }
    assert Drained(q).records.Keys == q.records.Keys;
  }

  lemma PrepareCrash(c: Config, s: Service, d: Disk, now: int, force: bool, k: nat)
    requires Consistent(c, s, d)
    requires k <= |Perform(c, s, d, PrepareNext(now, force)).writes|
    ensures Atomic(c, s, d, Perform(c, s, d, PrepareNext(now, force)), 2, k)
  {
    hide Valid, Replay, MaxSequence, Rebuild, Drained, PreparedCovers, Held, Snapshotted;
    if Ready(s.queue, now, force) && k > 0 {
      var b, q := DrainedBatch(s.queue, now), Drained(s.queue);
      var prepared := s.prepared[b.id := PreparedBatch(b.receiptIds, Prepared)];
      var d1 := d.(prepared := prepared);
      DrainValid(s.queue);
      DrainCovers(s.queue, s.prepared, now);
      DrainKeeps(s.queue);
      JournalBelow(c, s, d);
      PreparedIrrelevant(c, s, d, prepared);
      assert Consistent(c, s.(prepared := prepared), d1);
      if k > 1 {
        CheckpointRestores(c, q, d1, s.journalSequence);
        assert Perform(c, s, d, PrepareNext(now, force)).writes[k - 1] == CheckpointWrites(d1, q, s.journalSequence)[k - 2];
      }
    }
  }

  lemma DrainKeeps(q: Queue)
    ensures Drained(q).policy == q.policy && Drained(q).context == q.context && Drained(q).sequence == q.sequence + 1
  {
  }

  /** The prepared file does not influence the recovered queue. */
  lemma PreparedIrrelevant(c: Config, s: Service, d: Disk, prepared: map<nat, PreparedBatch>)
    requires Held(c, d) == Some(s)
    ensures Held(c, d.(prepared := prepared)) == Some(s.(prepared := prepared))
  {
  }

  lemma {:induction false} RecordCovers(q: Queue, ids: seq<Id>, batch: nat, r: AnchorResult, prepared: map<nat, PreparedBatch>)
    requires PreparedCovers(q, prepared)
    ensures PreparedCovers(Record(q, ids, batch, r), prepared)
    decreases |ids|
  {
    if ids != [] {
      RecordCovers(q, ids[..|ids| - 1], batch, r, prepared);
    }
  }

  lemma ReportedCovers(q: Queue, prepared: map<nat, PreparedBatch>, batch: nat, status: PreparedStatus)
    requires PreparedCovers(q, prepared) && batch in prepared
    ensures PreparedCovers(q, prepared[batch := prepared[batch].(status := status)])
  {
  }

  lemma RecordGood(c: Config, q: Queue, ids: seq<Id>, batch: nat, r: AnchorResult)
    requires GoodQueue(c, q)
    ensures GoodQueue(c, Record(q, ids, batch, r))
  {
    RecordValid(q, ids, batch, r);
    RecordKeepsPolicy(q, ids, batch, r);
  }

  lemma ReconcileCrash(c: Config, s: Service, d: Disk, batch: nat, r: AnchorResult, k: nat)
    requires Consistent(c, s, d)
    requires k <= |Perform(c, s, d, Reconcile(batch, r)).writes|
    ensures Atomic(c, s, d, Perform(c, s, d, Reconcile(batch, r)), 1, k)
  {
    hide Valid, Replay, MaxSequence, Rebuild, Record, PreparedCovers, Held, Snapshotted;
    if batch in s.prepared && k > 0 {
      var ids := s.prepared[batch].receiptIds;
      var q := Record(s.queue, ids, batch, r);
      RecordGood(c, s.queue, ids, batch, r);
      RecordCovers(s.queue, ids, batch, r, s.prepared);
      ReportedCovers(q, s.prepared, batch, Reported(r.status));
      JournalBelow(c, s, d);
      CheckpointRestores(c, q, d, s.journalSequence);
      PreparedIrrelevant(c, Service(q, s.journalSequence, s.journalSequence, s.prepared), CheckpointWrites(d, q, s.journalSequence)[1],
                         s.prepared[batch := s.prepared[batch].(status := Reported(r.status))]);
    }
  }

  lemma RecordCrash(c: Config, s: Service, d: Disk, batch: nat, ids: seq<Id>, r: AnchorResult, k: nat)
    requires Consistent(c, s, d)
    requires k <= |Perform(c, s, d, RecordResult(batch, ids, r)).writes|
    ensures Atomic(c, s, d, Perform(c, s, d, RecordResult(batch, ids, r)), 1, k)
  {
    hide Valid, Replay, MaxSequence, Rebuild, Record, PreparedCovers, Held, Snapshotted;
    var q := Record(s.queue, ids, batch, r);
    RecordGood(c, s.queue, ids, batch, r);
    RecordCovers(s.queue, ids, batch, r, s.prepared);
    JournalBelow(c, s, d);
    CheckpointRestores(c, q, d, s.journalSequence);
  }

  /** The write that commits an operation: the first, except that a batch is prepared before the queue is checkpointed. */
  function CommitPoint(op: Op): nat {
    if op.PrepareNext? then 2 else 1
  }

  /**
   A crash after any write of any operation: the files hold the queue from before
   the operation or the one after it, depending only on whether the committing
   write was reached. After all writes they hold exactly the service in memory.
   */
  lemma CrashAtomic(c: Config, s: Service, d: Disk, op: Op)
    requires Consistent(c, s, d)
    ensures forall k: nat :: k <= |Perform(c, s, d, op).writes| ==>
              Atomic(c, s, d, Perform(c, s, d, op), CommitPoint(op), k)
  {
    hide Consistent, Held, Atomic, Perform;
    forall k: nat | k <= |Perform(c, s, d, op).writes|
      ensures Atomic(c, s, d, Perform(c, s, d, op), CommitPoint(op), k)
    {
      CrashAtomicAt(c, s, d, op, k);
    }
  }

  lemma CrashAtomicAt(c: Config, s: Service, d: Disk, op: Op, k: nat)
    requires Consistent(c, s, d)
    requires k <= |Perform(c, s, d, op).writes|
    ensures Atomic(c, s, d, Perform(c, s, d, op), CommitPoint(op), k)
  {
    hide Consistent, Held, Atomic, Perform;
    match op
    case Submit(p, now) => SubmitCrash(c, s, d, p, now, k);
    case PrepareNext(now, force) => PrepareCrash(c, s, d, now, force, k);
    case Reconcile(batch, r) => ReconcileCrash(c, s, d, batch, r, k);
    case RecordResult(batch, ids, r) => RecordCrash(c, s, d, batch, ids, r, k);
  }

  // -------------------------------------------------------------------------
  // Runs with crashes
  // -------------------------------------------------------------------------

  /** An operation that answers, or one that dies after k of its writes (all of them if it has fewer) and is restarted. */
  datatype Event = Done(op: Op) | Crash(op: Op, k: nat)

  /**
   After a refused restart (thrown) nothing runs, and service is what the files
   hold. Callers know the acknowledged receipts, the returned batches and the
   batches they reported a result for.
   */
  datatype World = World(
    disk: Disk, service: Service, thrown: bool, acknowledged: set<Id>, returned: seq<Batch>, reported: set<nat>)

  function Start(c: Config): World {
    World(Disk(None, [], map[]), Service(Empty(c.policy), 0, 0, map[]), false, {}, [], {})
  }

  function Reporting(op: Op): set<nat> {
    if op.Reconcile? || op.RecordResult? then {op.batch} else {}
  }

  function Step(c: Config, w: World, ev: Event): World {
    if w.thrown then w else StepAlive(c, w, ev)
  }

  function StepAlive(c: Config, w: World, ev: Event): World {
    var e := Perform(c, w.service, w.disk, ev.op);
    match ev
    case Done(op) =>
      var w' := w.(disk := DiskAfter(w.disk, e.writes, |e.writes|), service := e.service, reported := w.reported + Reporting(op));
      if e.response == Submitted(Taken) then w'.(acknowledged := w.acknowledged + {op.p.receiptId})
      else if e.response.Returned? then
        w'.(returned := w.returned + [e.response.batch], reported := w'.reported - {e.response.batch.id})
      else w'
    case Crash(op, k) =>
      var d := DiskAfter(w.disk, e.writes, if k <= |e.writes| then k else |e.writes|);
      w.(disk := d, thrown := Restart(c, d).None?, reported := w.reported + Reporting(op),
         service := match Held(c, d) case Some(s) => s case None => w.service)
  }

  function Run(c: Config, events: seq<Event>): World {
    if events == [] then Start(c) else Step(c, Run(c, events[..|events| - 1]), events[|events| - 1])
  }

  ghost predicate BatchesKept(q: Queue, returned: seq<Batch>, reported: set<nat>) {
    && (forall i, j :: 0 <= i < j < |returned| ==> returned[i].id < returned[j].id)
    && (forall i :: 0 <= i < |returned| ==> returned[i].id <= q.sequence)
    && (forall i :: 0 <= i < |returned| && returned[i].id !in reported ==>
          forall id :: id in returned[i].receiptIds ==> Awaits(q, id, returned[i].id))
  }

  /** The prepared file lists every returned batch, with a status only if one was reported. */
  predicate PreparedKept(prepared: map<nat, PreparedBatch>, returned: seq<Batch>, reported: set<nat>) {
    forall i :: 0 <= i < |returned| ==>
      var id := returned[i].id;
      id in prepared && prepared[id].receiptIds == returned[i].receiptIds && (id !in reported ==> prepared[id].status == Prepared)
  }

  ghost predicate Inv(c: Config, w: World) {
    && (w.thrown ==> Refused(w.disk)) && Consistent(c, w.service, w.disk)
    && w.acknowledged <= w.service.queue.records.Keys
    && BatchesKept(w.service.queue, w.returned, w.reported)
    && PreparedKept(w.service.prepared, w.returned, w.reported)
  }

  /** A queue operation loses no receipt and keeps what was in flight in batches it does not report on. */
  ghost predicate Keeps(q: Queue, q': Queue, reporting: set<nat>) {
    && q.records.Keys <= q'.records.Keys && q.sequence <= q'.sequence
    && forall id, b :: b !in reporting && Awaits(q, id, b) ==> Awaits(q', id, b)
  }

  lemma {:induction false} RecordKeeps(q: Queue, ids: seq<Id>, batch: nat, r: AnchorResult)
    requires Valid(q)
    ensures Keeps(q, Record(q, ids, batch, r), {batch})
  {
    RecordValid(q, ids, batch, r);
    forall id, b | b !in {batch} && Awaits(q, id, b) ensures Awaits(Record(q, ids, batch, r), id, b) {
      OtherBatchesUntouched(q, ids, batch, r, id);
    }
  }

  lemma DrainKeepsAwaiting(q: Queue)
    requires Valid(q)
    ensures Keeps(q, Drained(q), {})
  {
    forall id, b | Awaits(q, id, b) ensures Awaits(Drained(q), id, b) {
      DrainedRecords(q, id);
      SplitMember(q.pending, BatchSize(q), id);
    }
  }

  lemma PerformKeeps(c: Config, s: Service, d: Disk, op: Op)
    requires GoodQueue(c, s.queue)
    ensures Keeps(s.queue, Perform(c, s, d, op).service.queue, Reporting(op))
  {
    match op
    case Submit(p, now) =>
    case PrepareNext(now, force) => DrainKeepsAwaiting(s.queue);
    case Reconcile(batch, r) => if batch in s.prepared { RecordKeeps(s.queue, s.prepared[batch].receiptIds, batch, r); }
    case RecordResult(batch, ids, r) => RecordKeeps(s.queue, ids, batch, r);
  }

  lemma KeptBatches(q: Queue, q': Queue, returned: seq<Batch>, reported: set<nat>, reporting: set<nat>)
    requires BatchesKept(q, returned, reported) && Keeps(q, q', reporting)
    ensures BatchesKept(q', returned, reported + reporting)
  {
  }

  /** A drained batch is in flight as a whole, under an id no earlier batch has. */
  lemma ReturnedBatchKept(q: Queue, now: int, returned: seq<Batch>, reported: set<nat>)
    requires Valid(q) && BatchesKept(q, returned, reported)
    ensures BatchesKept(Drained(q), returned + [DrainedBatch(q, now)], reported - {q.sequence + 1})
  {
    var b, q' := DrainedBatch(q, now), Drained(q);
    DrainKeepsAwaiting(q);
    KeptBatches(q, q', returned, reported, {});
    forall id | id in b.receiptIds ensures Awaits(q', id, b.id) {
      SplitMember(q.pending, BatchSize(q), id);
      DrainedRecords(q, id);
    }
    var all := returned + [b];
    assert all[|returned|] == b;
  }

  /** An operation adds the batch it returns, if any, under a new id, and reports on its own batch only. */
  lemma PerformPrepares(c: Config, s: Service, d: Disk, op: Op, returned: seq<Batch>, reported: set<nat>)
    requires BatchesKept(s.queue, returned, reported) && PreparedKept(s.prepared, returned, reported)
    ensures var e := Perform(c, s, d, op);
            && PreparedKept(e.service.prepared, returned, reported + Reporting(op))
            && PreparedKept(s.prepared, returned, reported + Reporting(op))
            && (e.response.Returned? ==>
                  PreparedKept(e.service.prepared, returned + [e.response.batch], reported - {e.response.batch.id}))
  {
    hide Drained, Record, SnapshotOf, IngressQueue.Submit, Decide;
    var e := Perform(c, s, d, op);
    if e.response.Returned? {
      var all := returned + [e.response.batch];
      assert all[|returned|] == e.response.batch;
    }
  }

  lemma DoneKeepsInv(c: Config, w: World, op: Op)
    requires Inv(c, w) && !w.thrown
    ensures Inv(c, StepAlive(c, w, Done(op)))
  {
    hide Held, Perform, Consistent, BatchesKept, PreparedKept, Keeps, Valid, Drained;
    var s, q := w.service, w.service.queue;
    var e := Perform(c, s, w.disk, op);
    CrashAtomicAt(c, s, w.disk, op, |e.writes|);
    ConsistentQueue(c, s, w.disk);
    PerformKeeps(c, s, w.disk, op);
    KeptBatches(q, e.service.queue, w.returned, w.reported, Reporting(op));
    KeptRecords(q, e.service.queue, Reporting(op));
    Responses(c, s, w.disk, op);
    PerformPrepares(c, s, w.disk, op, w.returned, w.reported);
    if e.response.Returned? {
      ReturnedBatchKept(q, op.now, w.returned, w.reported);
      assert w.reported + Reporting(op) == w.reported;
    }
  }

  lemma KeptRecords(q: Queue, q': Queue, reporting: set<nat>)
    requires Keeps(q, q', reporting)
    ensures q.records.Keys <= q'.records.Keys
  {
  }

  /** What an answer means for the queue after the operation. */
  lemma Responses(c: Config, s: Service, d: Disk, op: Op)
    ensures var e := Perform(c, s, d, op);
            && (e.response == Submitted(Taken) ==> op.Submit? && op.p.receiptId in e.service.queue.records)
            && (e.response.Returned? ==> op.PrepareNext? && e.response.batch == DrainedBatch(s.queue, op.now)
                                         && e.service.queue == Drained(s.queue) && Reporting(op) == {})
  {
    hide Drained, SnapshotOf;
  }

  lemma CrashKeepsInv(c: Config, w: World, op: Op, k: nat)
    requires Inv(c, w) && !w.thrown
    ensures Inv(c, StepAlive(c, w, Crash(op, k)))
  {
    hide Held, Perform, Consistent, Restart, Refused, PreparedKept;
    var s, q := w.service, w.service.queue;
    var e := Perform(c, s, w.disk, op);
    var n := if k <= |e.writes| then k else |e.writes|;
    CrashAtomicAt(c, s, w.disk, op, n);
    RestartIsHeld(c, DiskAfter(w.disk, e.writes, n));
    ConsistentQueue(c, s, w.disk);
    PerformKeeps(c, s, w.disk, op);
    PerformPrepares(c, s, w.disk, op, w.returned, w.reported);
    KeptBatches(q, e.service.queue, w.returned, w.reported, Reporting(op));
    KeptBatches(q, q, w.returned, w.reported, Reporting(op));
  }

  lemma ConsistentQueue(c: Config, s: Service, d: Disk)
    requires Consistent(c, s, d)
    ensures GoodQueue(c, s.queue)
  {
  }

  lemma {:induction false} EveryRunKeepsInv(c: Config, events: seq<Event>)
    requires ValidConfig(c)
    ensures Inv(c, Run(c, events))
    decreases |events|
  {
    if events == [] {
      StartConsistent(c);
    } else {
      hide Inv, StepAlive;
      var n := |events| - 1;
      EveryRunKeepsInv(c, events[..n]);
      if !Run(c, events[..n]).thrown {
        match events[n]
        case Done(op) => DoneKeepsInv(c, Run(c, events[..n]), op);
        case Crash(op, k) => CrashKeepsInv(c, Run(c, events[..n]), op, k);
      }
    }
  }

  // -------------------------------------------------------------------------
  // When a restart throws
  // -------------------------------------------------------------------------

  lemma {:induction false} ReplayKeepsContext(q: Queue, journal: seq<JournalEvent>, checkpoint: nat)
    requires q.context.Some? && Replay(q, journal, checkpoint).Some?
    ensures Replay(q, journal, checkpoint).value.context.Some?
    decreases |journal|
  {
    if journal != [] {
      ReplayKeepsContext(q, journal[..|journal| - 1], checkpoint);
    }
  }

  /** Files that are refused hold a queue with an anchor context. */
  lemma RefusedHasContext(c: Config, d: Disk)
    requires Held(c, d).Some? && Refused(d)
    ensures Held(c, d).value.queue.context.Some?
  {
    ReplayKeepsContext(Rebuild(d.state.value.snapshot).value, d.journal, Checkpoint(d));
  }

  lemma LegacyKeepsContext(c: Config, s: Service, d: Disk, op: Op)
    requires Legacy(op) && s.queue.context.None?
    ensures Perform(c, s, d, op).service.queue.context.None?
  {
    match op
    case Submit(p, now) =>
    case PrepareNext(now, force) =>
    case Reconcile(batch, r) =>
      if batch in s.prepared { RecordKeepsPolicy(s.queue, s.prepared[batch].receiptIds, batch, r); }
    case RecordResult(batch, ids, r) => RecordKeepsPolicy(s.queue, ids, batch, r);
  }

  /** As long as no general receipt is submitted, no restart throws. */
  lemma {:induction false} LegacyRunsRestart(c: Config, events: seq<Event>)
    requires ValidConfig(c) && forall i :: 0 <= i < |events| ==> Legacy(events[i].op)
    ensures !Run(c, events).thrown && Run(c, events).service.queue.context.None?
    decreases |events|
  {
    if events != [] {
      hide Perform, Held, Restart, Consistent, Refused, BatchesKept;
      var w, ev := Run(c, events[..|events| - 1]), events[|events| - 1];
      LegacyRunsRestart(c, events[..|events| - 1]);
      EveryRunKeepsInv(c, events[..|events| - 1]);
      var e := Perform(c, w.service, w.disk, ev.op);
      LegacyKeepsContext(c, w.service, w.disk, ev.op);
      if ev.Crash? {
        var n := if ev.k <= |e.writes| then ev.k else |e.writes|;
        var d := DiskAfter(w.disk, e.writes, n);
        CrashAtomicAt(c, w.service, w.disk, ev.op, n);
        RestartIsHeld(c, d);
        if Refused(d) {
          RefusedHasContext(c, d);
        }
      }
    }
  }

  /**
   Over every run with crashes after any write: the files always hold the memory,
   and a restart gives it unless the last snapshot has an anchor context, in which
   case it throws and a general receipt had been accepted. Thrown or not, no
   acknowledged receipt is lost, every returned batch is on file with its receipts,
   and two returned batches never share an id, nor a receipt while neither has a
   reported result.
   */
  lemma DurableRuns(c: Config, events: seq<Event>)
    requires ValidConfig(c)
    ensures var w := Run(c, events);
            && Held(c, w.disk) == Some(w.service)
            && Restart(c, w.disk) == (if Refused(w.disk) then None else Some(w.service))
            && (w.thrown ==> Refused(w.disk))
            && (Refused(w.disk) ==> w.service.queue.context.Some?)
            && (forall id :: id in w.acknowledged ==> id in w.service.queue.records)
            && (forall i, j :: 0 <= i < j < |w.returned| ==> w.returned[i].id != w.returned[j].id)
            && (forall i, j :: 0 <= i < j < |w.returned| && w.returned[i].id !in w.reported && w.returned[j].id !in w.reported ==>
                  forall id :: id in w.returned[i].receiptIds ==> id !in w.returned[j].receiptIds)
            && PreparedCovers(w.service.queue, w.service.prepared)
            && PreparedKept(w.service.prepared, w.returned, w.reported)
  {
    hide Run, Restart, Held, Refused, PreparedKept;
    EveryRunKeepsInv(c, events);
    var w := Run(c, events);
    RestartIsHeld(c, w.disk);
    if Refused(w.disk) {
      RefusedHasContext(c, w.disk);
    }
    forall i, j | 0 <= i < j < |w.returned| && w.returned[i].id !in w.reported && w.returned[j].id !in w.reported
      ensures forall id :: id in w.returned[i].receiptIds ==> id !in w.returned[j].receiptIds
    {
      forall id | id in w.returned[i].receiptIds ensures id !in w.returned[j].receiptIds {
        assert Awaits(w.service.queue, id, w.returned[i].id);
      }
    }
  }

  /** Reconciling a returned batch leaves each of its receipts as the outcome says. */
  lemma ReconciledBatch(c: Config, events: seq<Event>, i: nat, r: AnchorResult, id: Id)
    requires ValidConfig(c) && !Run(c, events).thrown && i < |Run(c, events).returned|
    requires var w := Run(c, events); w.returned[i].id !in w.reported && id in w.returned[i].receiptIds
    ensures var w := Run(c, events);
            var b := w.returned[i];
            var w' := Step(c, w, Done(Reconcile(b.id, r)));
            && Awaits(w.service.queue, id, b.id) && Answered(w.service.queue, w'.service.queue, id, b.id, r)
            && b.id in w'.service.prepared && w'.service.prepared[b.id] == PreparedBatch(b.receiptIds, Reported(r.status))
            && Restart(c, w'.disk) == if Refused(w'.disk) then None else Some(w'.service)
  {
    hide Run, Restart, Held, Refused, Consistent, Perform, Answered;
    EveryRunKeepsInv(c, events);
    var w := Run(c, events);
    var b := w.returned[i];
    DoneKeepsInv(c, w, Reconcile(b.id, r));
    HeldWhileConsistent(c, Step(c, w, Done(Reconcile(b.id, r))));
    ResultsApply(w.service.queue, b.receiptIds, b.id, r);
    ReconcilePerforms(c, w.service, w.disk, b.id, r);
  }

  lemma HeldWhileConsistent(c: Config, w: World)
    requires Consistent(c, w.service, w.disk)
    ensures Restart(c, w.disk) == if Refused(w.disk) then None else Some(w.service)
  {
    RestartIsHeld(c, w.disk);
  }

  lemma ReconcilePerforms(c: Config, s: Service, d: Disk, batch: nat, r: AnchorResult)
    requires batch in s.prepared
    ensures var e := Perform(c, s, d, Reconcile(batch, r));
            && e.service.queue == Record(s.queue, s.prepared[batch].receiptIds, batch, r)
            && e.service.prepared == s.prepared[batch := PreparedBatch(s.prepared[batch].receiptIds, Reported(r.status))]
            && !e.response.Submitted? && !e.response.Returned?
  {
    hide Record, SnapshotOf;
  }

  function Crashes(events: seq<Event>): nat {
    if events == [] then 0 else Crashes(events[..|events| - 1]) + (if events[|events| - 1].Crash? then 1 else 0)
  }

  /** Fewer submissions than the checkpoint interval are in the journal only, but for one more with each crash. */
  lemma {:induction false} JournalStaysShort(c: Config, events: seq<Event>)
    requires ValidConfig(c)
    ensures Unsaved(Run(c, events).service) < c.checkpointEvery + Crashes(events)
    decreases |events|
  {
    if events != [] {
      hide Held, Consistent, Restart, Refused, BatchesKept, PreparedKept, Perform;
      var w, ev := Run(c, events[..|events| - 1]), events[|events| - 1];
      JournalStaysShort(c, events[..|events| - 1]);
      EveryRunKeepsInv(c, events[..|events| - 1]);
      if !w.thrown {
        var e := Perform(c, w.service, w.disk, ev.op);
        CrashAtomicAt(c, w.service, w.disk, ev.op, if ev.Crash? && ev.k <= |e.writes| then ev.k else |e.writes|);
        SavesInTime(c, w.service, w.disk, ev.op);
      }
    }
  }

  lemma SavesInTime(c: Config, s: Service, d: Disk, op: Op)
    requires ValidConfig(c)
    ensures var s' := Perform(c, s, d, op).service; Unsaved(s') < c.checkpointEvery || Unsaved(s') == Unsaved(s)
  {
    hide Drained, Record, SnapshotOf, IngressQueue.Submit, Decide;
  }

  /**
   For arbitrary receipts: the files of a checkpoint restart exactly when the
   queue has no anchor context, that is, has never accepted a general receipt.
   */
  lemma CheckpointRestartsIff(c: Config, q: Queue, d: Disk, n: nat, k: nat)
    requires ValidConfig(c) && Valid(q) && q.policy == c.policy && k < 2
    requires forall i :: 0 <= i < |d.journal| ==> 1 <= d.journal[i].sequence <= n
    ensures Restart(c, CheckpointWrites(d, q, n)[k]).Some? <==> q.context.None?
  {
    hide Replay, Rebuild, MaxSequence, Held, Restart, ValidConfig;
    CheckpointRestores(c, q, d, n);
    RestartIsHeld(c, CheckpointWrites(d, q, n)[k]);
  }

  /** One general receipt, its checkpoint and a crash: the restart throws. */
  lemma GeneralReceiptThrows() returns (c: Config, events: seq<Event>)
    ensures ValidConfig(c) && |events| == 2 && events[0].Done? && events[1].Crash?
    ensures Run(c, events).thrown && Run(c, events).acknowledged != {}
  {
    c := Config(Policy(1, 1, 1, 1, 1), 1);
    var p := Presentation(0, true, 1, Some(Context(DecimalText("1"), "")));
    events := [Done(Submit(p, 0)), Crash(PrepareNext(0, false), 0)];
    hide StepAlive, Run, Restart, SnapshotOf;
    RunOfTwo(c, events[0], events[1]);
    assert events == [events[0], events[1]];
    GeneralReceiptAccepted(c, p);
    var w := StepAlive(c, Start(c), events[0]);
    CrashBeforeWriting(c, w, PrepareNext(0, false));
    RefusedThrows(c, w.disk, IngressQueue.Submit(Empty(c.policy), p, 0));
  }

  lemma RunOfTwo(c: Config, first: Event, second: Event)
    ensures Run(c, [first, second]) == Step(c, Step(c, Start(c), first), second)
  {
    hide Step;
    assert [first, second][..1] == [first] && [first][..0] == [];
    assert Run(c, []) == Start(c);
  }

  /** With a checkpoint after each receipt, an accepted one is in the state file. */
  lemma GeneralReceiptAccepted(c: Config, p: Presentation)
    requires c.checkpointEvery == 1 && Decide(Empty(c.policy), p) == Taken
    ensures var w := StepAlive(c, Start(c), Done(Submit(p, 0)));
            && !w.thrown && p.receiptId in w.acknowledged
            && w.disk.state == Some(StateFile(SnapshotOf(IngressQueue.Submit(Empty(c.policy), p, 0)), 1))
  {
    hide SnapshotOf, IngressQueue.Submit, Decide;
  }

  lemma CrashBeforeWriting(c: Config, w: World, op: Op)
    ensures var w' := StepAlive(c, w, Crash(op, 0));
            w'.thrown == Restart(c, w.disk).None? && w'.acknowledged == w.acknowledged
  {
    hide Restart, Held, Perform;
  }

  lemma RefusedThrows(c: Config, d: Disk, q: Queue)
    requires ValidPolicy(q.policy) && q.context.Some? && q.context.value.chainId.DecimalText?
    requires d.state.Some? && d.state.value.snapshot == SnapshotOf(q)
    ensures Restart(c, d).None?
  {
  }

  // -------------------------------------------------------------------------
  // The source's class
  // -------------------------------------------------------------------------

  /**
   The service over its files. `budget` file writes succeed before the process
   dies; a method that finds the process dead returns at once.
   */
  class SyntheticIngressService {
    const config: Config
    const queue: AvrIngressQueue
    var journalSequence: nat
    var checkpointSequence: nat
    var prepared: map<nat, PreparedBatch>
    var disk: Disk
    var budget: nat
    var alive: bool

    ghost function View(): Service
      reads this, queue
    {
      Service(queue.View(), journalSequence, checkpointSequence, prepared)
    }

    constructor (config: Config, queue: AvrIngressQueue, disk: Disk, checkpoint: nat, journalSequence: nat, budget: nat)
      ensures this.config == config && this.queue == queue && this.disk == disk && this.budget == budget && alive
      ensures View() == Service(queue.View(), journalSequence, checkpoint, disk.prepared)
    {
      this.config, this.queue, this.disk, this.budget, alive := config, queue, disk, budget, true;
      this.journalSequence, checkpointSequence, prepared := journalSequence, checkpoint, disk.prepared;
    }

    method Write(d: Disk)
      requires alive
      modifies this`disk, this`budget, this`alive
      ensures alive == (old(budget) > 0)
      ensures alive ==> disk == d && budget == old(budget) - 1
      ensures !alive ==> disk == old(disk)
    {
      if budget == 0 {
        alive := false;
      } else {
        disk, budget := d, budget - 1;
      }
    }

    method CheckpointQueue()
      requires alive
      modifies this`disk, this`budget, this`alive, this`checkpointSequence
      ensures var ds := CheckpointWrites(old(disk), queue.View(), journalSequence);
              && alive == (old(budget) >= 2)
              && (alive ==> disk == ds[1] && budget == old(budget) - 2 && checkpointSequence == journalSequence)
              && (!alive ==> disk == DiskAfter(old(disk), ds, old(budget)))
    {
      var snapshot := SnapshotOf(Queue(queue.policy, queue.pending, queue.order, queue.records, queue.sequence, queue.context));
      Write(disk.(state := Some(StateFile(snapshot, journalSequence))));
      if !alive {
        return;
      }
      checkpointSequence := journalSequence;
      Write(disk.(journal := []));
    }

    /** What a method leaves behind: as much of the effect as the budget allowed. */
    twostate predicate Left(op: Op, response: Response)
      reads this, queue
    {
      var e := Perform(config, old(View()), old(disk), op);
      && alive == (old(budget) >= |e.writes|)
      && (alive ==> disk == DiskAfter(old(disk), e.writes, |e.writes|) && View() == e.service && response == e.response)
      && (!alive ==> disk == DiskAfter(old(disk), e.writes, old(budget)))
    }

    method SubmitReceipt(p: Presentation, now: int) returns (r: Response)
      requires alive
      modifies this, queue
      ensures Left(Submit(p, now), r)
    {
      hide Valid, IngressQueue.Submit, SnapshotOf, AnswerHolds, SubmissionLeft;
      RefusalsChangeNothing(queue.View(), p, now);
      var outcome := queue.SubmitPresentation(p, now);
      r := Submitted(outcome);
      if outcome == Taken {
        journalSequence := journalSequence + 1;
        Write(disk.(journal := disk.journal + [JournalEvent(journalSequence, now, p)]));
        if !alive {
          return;
        }
        if journalSequence - checkpointSequence >= config.checkpointEvery {
          CheckpointQueue();
        }
      }
    }

    method PrepareNextBatch(now: int, force: bool) returns (r: Response)
      requires alive && PendingRecorded(queue.View())
      modifies this, queue
      ensures Left(PrepareNext(now, force), r)
    {
      hide Valid, Drained, SnapshotOf, DrainLeft;
      var batch := queue.Drain(now, force);
      if batch.None? {
        return NothingReady;
      }
      r := Returned(batch.value);
      prepared := prepared[batch.value.id := PreparedBatch(batch.value.receiptIds, Prepared)];
      Write(disk.(prepared := prepared));
      if !alive {
        return;
      }
      CheckpointQueue();
    }

    method ReconcileBatch(batch: nat, result: AnchorResult) returns (r: Response)
      requires alive
      modifies this, queue
      ensures Left(Reconcile(batch, result), r)
    {
      hide Valid, Record, SnapshotOf, ResultApplied;
      if batch !in prepared {
        return UnknownBatch;
      }
      r := Recorded;
      queue.RecordAnchorResult(prepared[batch].receiptIds, batch, result);
      prepared := prepared[batch := prepared[batch].(status := Reported(result.status))];
      CheckpointQueue();
      if !alive {
        return;
      }
      Write(disk.(prepared := prepared));
    }

    method RecordBatchResult(batch: nat, ids: seq<Id>, result: AnchorResult) returns (r: Response)
      requires alive
      modifies this, queue
      ensures Left(RecordResult(batch, ids, result), r)
    {
      hide Valid, Record, SnapshotOf, ResultApplied;
      r := Recorded;
      queue.RecordAnchorResult(ids, batch, result);
      CheckpointQueue();
    }

    /** The constructor's recovery; None where the source throws. */
    static method Recover(c: Config, d: Disk, budget: nat) returns (s: Option<SyntheticIngressService>)
      requires ValidConfig(c)
      ensures s.Some? <==> Restart(c, d).Some?
      ensures s.Some? ==> fresh(s.value) && s.value.alive && s.value.disk == d && s.value.budget == budget
                          && s.value.View() == Restart(c, d).value
    {
      hide Valid, FromSnapshot, IngressQueue.Submit, Decide, WellFormed, AnswerHolds, SubmissionLeft;
      ghost var snapshot := LastSnapshot(c, d);
      var queue := new AvrIngressQueue(c.policy);
      if d.state.Some? {
        var restored := AvrIngressQueue.Restore(d.state.value.snapshot);
        if restored.Err? {
          return None;
        }
        queue := restored.value;
      }
      var checkpoint := Checkpoint(d);
      var highest := checkpoint;
      var i := 0;
      while i < |d.journal|
        invariant 0 <= i <= |d.journal|
        invariant fresh(queue)
        invariant Replay(snapshot.value, d.journal[..i], checkpoint) == Some(queue.View())
        invariant highest == MaxSequence(d.journal[..i], checkpoint)
      {
        assert d.journal[..i + 1][..i] == d.journal[..i];
        var event := d.journal[i];
        if event.sequence < 1 {
          ReplayFails(snapshot.value, d.journal, checkpoint, i + 1);
          return None;
        }
        highest := if event.sequence > highest then event.sequence else highest;
        if event.sequence > checkpoint {
          var outcome := queue.SubmitPresentation(event.presentation, event.acceptedAt);
          if outcome != Taken {
            ReplayFails(snapshot.value, d.journal, checkpoint, i + 1);
            return None;
          }
        }
        i := i + 1;
      }
      assert d.journal[..i] == d.journal;
      var service := new SyntheticIngressService(c, queue, d, checkpoint, highest, budget);
      return Some(service);
    }
  }

  lemma RefusalsChangeNothing(q: Queue, p: Presentation, now: int)
    ensures Decide(q, p) != Taken ==> IngressQueue.Submit(q, p, now) == q
  {
  }

  lemma {:induction false} ReplayFails(q: Queue, journal: seq<JournalEvent>, checkpoint: nat, n: nat)
    requires n <= |journal| && Replay(q, journal[..n], checkpoint).None?
    ensures Replay(q, journal, checkpoint).None?
    decreases |journal|
  {
    if n == |journal| {
      assert journal[..n] == journal;
    } else {
      assert journal[..|journal| - 1][..n] == journal[..n];
      ReplayFails(q, journal[..|journal| - 1], checkpoint, n);
    }
  }
}
