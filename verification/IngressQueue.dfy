/**
 The ingress queue: deduplicated acceptance, micro-batching, retry after an
 anchor result, and the snapshot that restores it.

 The pending list of the source holds the record entries themselves; here it
 holds their ids, and an entry is looked up in the records. A batch id
 "local-n" is the number n.
 */
module IngressQueue {
  import opened Arithmetic
  import opened Wrappers

  type Id = nat

  datatype ChainId = Number(n: int) | DecimalText(digits: string)

  datatype Context = Context(chainId: ChainId, anchorContract: string)

  /** valid is the outcome of the shape checks; a context is present for general receipts. */
  datatype Presentation = Presentation(receiptId: Id, valid: bool, bytes: nat, context: Option<Context>)

  /** validatePresentation: a general receipt carries its chain id as a decimal string. */
  predicate Validates(p: Presentation) {
    p.valid && (p.context.Some? ==> p.context.value.chainId.DecimalText?)
  }

  datatype Status = Accepted | QueuedForAnchor | ProvisionallyIncluded | Failed

  datatype Entry = Entry(
    presentation: Presentation, acceptedAt: int, attempts: nat, status: Status, batchId: Option<nat>, anchor: Option<int>)

  datatype Policy = Policy(
    microBatchMs: nat, maxQueueReceipts: nat, maxBatchReceipts: nat, maxAttempts: nat, maxPresentationBytes: nat)

  predicate ValidPolicy(p: Policy) {
    p.microBatchMs >= 1 && p.maxQueueReceipts >= 1 && p.maxBatchReceipts >= 1 && p.maxAttempts >= 1 && p.maxPresentationBytes >= 1
  }

  /** order is the insertion order of the record map. */
  datatype Queue = Queue(
    policy: Policy, pending: seq<Id>, order: seq<Id>, records: map<Id, Entry>, sequence: nat, context: Option<Context>)

  function Empty(policy: Policy): Queue {
    Queue(policy, [], [], map[], 0, None)
  }

  datatype Submission =
    | Taken
    | Duplicate(status: Status)
    | TooLarge
    | Invalid
    | WrongContext
    | Full

  datatype Batch = Batch(id: nat, receiptIds: seq<Id>, createdAt: int, context: Option<Context>)

  datatype Outcome = Included | Reorged | Retryable | OtherStatus

  datatype AnchorResult = AnchorResult(status: Outcome, anchor: Option<int>)

  // -------------------------------------------------------------------------
  // Specification of the operations
  // -------------------------------------------------------------------------

  function Decide(q: Queue, p: Presentation): Submission {
    if p.bytes > q.policy.maxPresentationBytes then TooLarge
    else if !Validates(p) then Invalid
    else if p.receiptId in q.records then Duplicate(q.records[p.receiptId].status)
    else if p.context.Some? && q.context.Some? && p.context != q.context then WrongContext
    else if |q.records| >= q.policy.maxQueueReceipts then Full
    else Taken
  }

  function Submit(q: Queue, p: Presentation, now: int): Queue {
    if Decide(q, p) != Taken then q
    else q.(pending := q.pending + [p.receiptId],
            order := q.order + [p.receiptId],
            records := q.records[p.receiptId := Entry(p, now, 0, Accepted, None, None)],
            context := if q.context.None? then p.context else q.context)
  }

  function BatchSize(q: Queue): nat {
    if |q.pending| <= q.policy.maxBatchReceipts then |q.pending| else q.policy.maxBatchReceipts
  }

  predicate Ready(q: Queue, now: int, force: bool) {
    && q.pending != [] && q.pending[0] in q.records
    && (force || |q.pending| >= q.policy.maxBatchReceipts || now - q.records[q.pending[0]].acceptedAt >= q.policy.microBatchMs)
  }

  function Sent(e: Entry, batch: nat): Entry {
    e.(status := QueuedForAnchor, batchId := Some(batch), attempts := e.attempts + 1)
  }

  function MarkSent(records: map<Id, Entry>, ids: seq<Id>, batch: nat): (r: map<Id, Entry>)
    ensures r.Keys == records.Keys
  {
    if ids == [] then records
    else
      var front := MarkSent(records, ids[..|ids| - 1], batch);
      var last := ids[|ids| - 1];
      if last in front then front[last := Sent(front[last], batch)] else front
  }

  function Drained(q: Queue): Queue {
    var n := BatchSize(q);
    q.(pending := q.pending[n..], sequence := q.sequence + 1, records := MarkSent(q.records, q.pending[..n], q.sequence + 1))
  }

  function DrainedBatch(q: Queue, now: int): Batch {
    Batch(q.sequence + 1, q.pending[..BatchSize(q)], now, q.context)
  }

  /** Whether a result for the batch applies to the record. */
  predicate Applies(q: Queue, id: Id, batch: nat, status: Outcome) {
    && id in q.records && q.records[id].batchId == Some(batch)
    && q.records[id].status == if status.Reorged? then ProvisionallyIncluded else QueuedForAnchor
  }

  /** A failed delivery with attempts left goes back to pending. */
  predicate Requeues(policy: Policy, e: Entry, r: AnchorResult) {
    (r.status.Reorged? || r.status.Retryable?) && e.attempts < policy.maxAttempts
  }

  function Settled(policy: Policy, e: Entry, r: AnchorResult): Entry {
    if r.status.Included? then e.(status := ProvisionallyIncluded, anchor := r.anchor)
    else if Requeues(policy, e, r) then e.(status := Accepted, anchor := if r.status.Reorged? then None else e.anchor)
    else e.(status := Failed)
  }

  function RecordOne(q: Queue, id: Id, batch: nat, r: AnchorResult): Queue {
    if !Applies(q, id, batch, r.status) then q
    else q.(records := q.records[id := Settled(q.policy, q.records[id], r)],
            pending := if Requeues(q.policy, q.records[id], r) then q.pending + [id] else q.pending)
  }

  function Record(q: Queue, ids: seq<Id>, batch: nat, r: AnchorResult): Queue {
    if ids == [] then q else RecordOne(Record(q, ids[..|ids| - 1], batch, r), ids[|ids| - 1], batch, r)
  }

  // -------------------------------------------------------------------------
  // What every operation keeps
  // -------------------------------------------------------------------------

  predicate Distinct(s: seq<Id>) {
    forall i, j :: 0 <= i < j < |s| ==> s[i] != s[j]
  }

  function SumAttempts(order: seq<Id>, records: map<Id, Entry>): nat
    requires forall id :: id in order ==> id in records
  {
    if order == [] then 0
    else SumAttempts(order[..|order| - 1], records) + records[order[|order| - 1]].attempts
  }

  predicate ValidEntry(policy: Policy, sequence: nat, id: Id, e: Entry) {
    && e.presentation.receiptId == id && Validates(e.presentation)
    && e.attempts <= policy.maxAttempts
    && (e.status == Accepted ==> e.attempts < policy.maxAttempts)
    && (e.batchId.Some? ==> 1 <= e.batchId.value <= sequence)
    && (e.status == QueuedForAnchor ==> e.batchId.Some?)
  }

  ghost predicate Listed(ids: seq<Id>, keys: set<Id>) {
    Distinct(ids) && forall id :: id in ids <==> id in keys
  }

  /** pending: no repetition, exactly the accepted entries. */
  ghost predicate PendingExact(pending: seq<Id>, records: map<Id, Entry>) {
    Distinct(pending) && forall id :: id in pending <==> id in records && records[id].status == Accepted
  }

  predicate EntriesValid(policy: Policy, sequence: nat, records: map<Id, Entry>) {
    forall id :: id in records ==> ValidEntry(policy, sequence, id, records[id])
  }

  ghost predicate Counted(order: seq<Id>, records: map<Id, Entry>, sequence: nat) {
    (forall id :: id in order ==> id in records) && sequence <= SumAttempts(order, records)
  }

  ghost predicate Valid(q: Queue) {
    && ValidPolicy(q.policy)
    && Listed(q.order, q.records.Keys)
    && PendingExact(q.pending, q.records)
    && EntriesValid(q.policy, q.sequence, q.records)
    && Counted(q.order, q.records, q.sequence)
    && |q.order| <= q.policy.maxQueueReceipts
    && (q.context.Some? ==> q.context.value.chainId.DecimalText?)
  }

  lemma {:induction false} OrderSize(order: seq<Id>, keys: set<Id>)
    requires Listed(order, keys)
    ensures |order| == |keys|
    decreases |order|
  {
    if order == [] {
      assert keys == {};
    } else {
      var n := |order| - 1;
      assert order[n] in keys;
      OrderSize(order[..n], keys - {order[n]});
    }
  }

  lemma AppendDistinct(s: seq<Id>, x: Id)
    requires Distinct(s) && x !in s
    ensures Distinct(s + [x]) && forall id :: id in s + [x] <==> id in s || id == x
  {
  }

  lemma EmptyValid(policy: Policy)
    requires ValidPolicy(policy)
    ensures Valid(Empty(policy))
  {
  }

  lemma {:induction false} SumSame(order: seq<Id>, a: map<Id, Entry>, b: map<Id, Entry>)
    requires forall id :: id in order ==> id in a && id in b && a[id].attempts == b[id].attempts
    ensures SumAttempts(order, a) == SumAttempts(order, b)
    decreases |order|
  {
    if order != [] {
      assert order[|order| - 1] in order;
      SumSame(order[..|order| - 1], a, b);
    }
  }

  lemma CountedAppend(order: seq<Id>, records: map<Id, Entry>, sequence: nat, id: Id, e: Entry)
    requires Counted(order, records, sequence) && id !in records
    ensures Counted(order + [id], records[id := e], sequence)
  {
    var order', records' := order + [id], records[id := e];
    assert order'[..|order|] == order;
    SumSame(order, records, records');
    assert forall x :: x in order' ==> x in order || x == id;
    assert SumAttempts(order', records') == SumAttempts(order, records') + e.attempts;
  }

  lemma SubmitPending(pending: seq<Id>, records: map<Id, Entry>, id: Id, e: Entry)
    requires PendingExact(pending, records) && id !in records && e.status == Accepted
    ensures PendingExact(pending + [id], records[id := e])
  {
    AppendDistinct(pending, id);
  }

  lemma SubmitListed(order: seq<Id>, records: map<Id, Entry>, id: Id, e: Entry)
    requires Listed(order, records.Keys) && id !in records
    ensures Listed(order + [id], records[id := e].Keys)
    ensures |order| == |records|
  {
    OrderSize(order, records.Keys);
    AppendDistinct(order, id);
  }

  lemma SubmitEntries(q: Queue, id: Id, e: Entry)
    requires EntriesValid(q.policy, q.sequence, q.records) && ValidEntry(q.policy, q.sequence, id, e)
    ensures EntriesValid(q.policy, q.sequence, q.records[id := e])
  {
  }

  lemma SubmitValid(q: Queue, p: Presentation, now: int)
    requires Valid(q)
    ensures Valid(Submit(q, p, now))
  {
    if Decide(q, p) == Taken {
      hide Counted, SumAttempts, PendingExact, Listed, EntriesValid;
      var id, e := p.receiptId, Entry(p, now, 0, Accepted, None, None);
      SubmitPending(q.pending, q.records, id, e);
      SubmitListed(q.order, q.records, id, e);
      SubmitEntries(q, id, e);
      CountedAppend(q.order, q.records, q.sequence, id, e);
    }
  }

  lemma {:induction false} MarkSentAt(records: map<Id, Entry>, ids: seq<Id>, batch: nat, id: Id)
    requires (forall x :: x in ids ==> x in records) && Distinct(ids) && id in records
    ensures MarkSent(records, ids, batch)[id] == if id in ids then Sent(records[id], batch) else records[id]
    decreases |ids|
  {
    if ids != [] {
      MarkSentAt(records, ids[..|ids| - 1], batch, id);
    }
  }

  lemma {:induction false} SumBump(order: seq<Id>, a: map<Id, Entry>, b: map<Id, Entry>, x: Id)
    requires Distinct(order) && x in order
    requires forall id :: id in order ==> id in a && id in b
    requires forall id :: id in order ==> b[id].attempts >= a[id].attempts
    requires b[x].attempts > a[x].attempts
    ensures SumAttempts(order, b) > SumAttempts(order, a)
    decreases |order|
  {
    var n := |order| - 1;
    assert order[n] in order;
    if order[n] == x {
      SumGrows(order[..n], a, b);
    } else {
      SumBump(order[..n], a, b, x);
    }
  }

  lemma {:induction false} SumGrows(order: seq<Id>, a: map<Id, Entry>, b: map<Id, Entry>)
    requires forall id :: id in order ==> id in a && id in b && b[id].attempts >= a[id].attempts
    ensures SumAttempts(order, b) >= SumAttempts(order, a)
    decreases |order|
  {
    if order != [] {
      assert order[|order| - 1] in order;
      SumGrows(order[..|order| - 1], a, b);
    }
  }

  lemma DrainedRecords(q: Queue, id: Id)
    requires Valid(q) && id in q.records
    ensures Drained(q).records[id]
            == if id in q.pending[..BatchSize(q)] then Sent(q.records[id], q.sequence + 1) else q.records[id]
    ensures Drained(q).records.Keys == q.records.Keys
  {
    hide Counted, SumAttempts, EntriesValid, Listed;
    MarkSentAt(q.records, q.pending[..BatchSize(q)], q.sequence + 1, id);
  }

  /** In a list without repetition, the front and the rest share nothing. */
  lemma SplitMember(s: seq<Id>, n: nat, id: Id)
    requires Distinct(s) && n <= |s|
    ensures id in s <==> id in s[..n] || id in s[n..]
    ensures !(id in s[..n] && id in s[n..])
    ensures Distinct(s[n..])
  {
    assert s == s[..n] + s[n..];
    forall i, j | 0 <= i < n && 0 <= j < |s| - n ensures s[..n][i] != s[n..][j] {
      assert s[i] != s[n + j];
    }
  }

  lemma DrainPending(q: Queue)
    requires Valid(q)
    ensures PendingExact(Drained(q).pending, Drained(q).records)
  {
    hide Counted, SumAttempts, Listed, EntriesValid;
    forall id ensures id in Drained(q).pending <==> id in Drained(q).records && Drained(q).records[id].status == Accepted {
      SplitMember(q.pending, BatchSize(q), id);
      if id in q.records {
        DrainedRecords(q, id);
      }
    }
    SplitMember(q.pending, BatchSize(q), 0);
  }

  lemma DrainEntries(q: Queue)
    requires Valid(q)
    ensures EntriesValid(q.policy, q.sequence + 1, Drained(q).records)
  {
    hide Counted, SumAttempts, Listed;
    forall id | id in Drained(q).records
      ensures ValidEntry(q.policy, q.sequence + 1, id, Drained(q).records[id])
    {
      DrainedRecords(q, id);
      SplitMember(q.pending, BatchSize(q), id);
    }
  }

  lemma DrainCounted(q: Queue)
    requires Valid(q) && q.pending != []
    ensures Counted(q.order, Drained(q).records, q.sequence + 1)
  {
    hide EntriesValid;
    var q' := Drained(q);
    forall id | id in q.order
      ensures id in q'.records && q'.records[id].attempts >= q.records[id].attempts
    {
      DrainedRecords(q, id);
    }
    var first := q.pending[0];
    assert first in q.pending && first in q.pending[..BatchSize(q)];
    DrainedRecords(q, first);
    SumBump(q.order, q.records, q'.records, first);
  }

  /** The source's pending list holds entries, so each of them has a record. */
  predicate PendingRecorded(q: Queue) {
    forall id :: id in q.pending ==> id in q.records
  }

  lemma DrainValid(q: Queue)
    requires Valid(q) && q.pending != []
    ensures Valid(Drained(q))
  {
    hide Counted, SumAttempts, EntriesValid, PendingExact;
    DrainPending(q);
    DrainEntries(q);
    DrainCounted(q);
  }

  lemma RecordOneValid(q: Queue, id: Id, batch: nat, r: AnchorResult)
    requires Valid(q)
    ensures Valid(RecordOne(q, id, batch, r))
    ensures RecordOne(q, id, batch, r).sequence == q.sequence
    ensures RecordOne(q, id, batch, r).order == q.order && RecordOne(q, id, batch, r).records.Keys == q.records.Keys
  {
    if Applies(q, id, batch, r.status) {
      hide SumAttempts;
      var q' := RecordOne(q, id, batch, r);
      assert q'.records.Keys == q.records.Keys;
      SumSame(q.order, q.records, q'.records);
      if Requeues(q.policy, q.records[id], r) {
        AppendDistinct(q.pending, id);
      }
    }
  }

  lemma {:induction false} RecordValid(q: Queue, ids: seq<Id>, batch: nat, r: AnchorResult)
    requires Valid(q)
    ensures Valid(Record(q, ids, batch, r))
    ensures Record(q, ids, batch, r).sequence == q.sequence && Record(q, ids, batch, r).records.Keys == q.records.Keys
    decreases |ids|
  {
    if ids != [] {
      RecordValid(q, ids[..|ids| - 1], batch, r);
      RecordOneValid(Record(q, ids[..|ids| - 1], batch, r), ids[|ids| - 1], batch, r);
    }
  }

  /** A result that applies to no record changes nothing. */
  lemma {:induction false} StaleResultIgnored(q: Queue, ids: seq<Id>, batch: nat, r: AnchorResult)
    requires forall id :: id in ids ==> !Applies(q, id, batch, r.status)
    ensures Record(q, ids, batch, r) == q
    decreases |ids|
  {
    if ids != [] {
      StaleResultIgnored(q, ids[..|ids| - 1], batch, r);
    }
  }

  /** A result touches only records that carry its batch id. */
  lemma {:induction false} OtherBatchesUntouched(q: Queue, ids: seq<Id>, batch: nat, r: AnchorResult, id: Id)
    requires id in q.records && q.records[id].batchId != Some(batch)
    ensures id in Record(q, ids, batch, r).records && Record(q, ids, batch, r).records[id] == q.records[id]
    decreases |ids|
  {
    if ids != [] {
      OtherBatchesUntouched(q, ids[..|ids| - 1], batch, r, id);
    }
  }

  // -------------------------------------------------------------------------
  // What a submission and a drain leave
  // -------------------------------------------------------------------------

  /** What an answer says about the presentation. */
  predicate AnswerHolds(q: Queue, p: Presentation, r: Submission) {
    match r
    case TooLarge => p.bytes > q.policy.maxPresentationBytes
    case Invalid => !Validates(p)
    case Duplicate(status) => p.receiptId in q.records && q.records[p.receiptId].status == status
    case WrongContext => p.context.Some? && q.context.Some? && p.context != q.context
    case Full => p.receiptId !in q.records && |q.records| >= q.policy.maxQueueReceipts
    case Taken =>
      && p.bytes <= q.policy.maxPresentationBytes && Validates(p) && p.receiptId !in q.records
      && (p.context.None? || q.context.None? || p.context == q.context)
      && |q.records| < q.policy.maxQueueReceipts
  }

  /** An accepted receipt is the last of the queue, untried, and fixes the anchor context; a refused one changes nothing. */
  predicate SubmissionLeft(q: Queue, q': Queue, p: Presentation, now: int, r: Submission) {
    if r != Taken then q' == q
    else
      var id := p.receiptId;
      && q'.pending == q.pending + [id] && q'.order == q.order + [id]
      && q'.records.Keys == q.records.Keys + {id} && (forall x :: x in q.records ==> q'.records[x] == q.records[x])
      && q'.records[id].presentation == p && q'.records[id].acceptedAt == now && q'.records[id].attempts == 0
      && q'.records[id].status == Accepted && q'.records[id].batchId.None? && q'.records[id].anchor.None?
      && q'.policy == q.policy && q'.sequence == q.sequence
      && q'.context == if q.context.Some? then q.context else p.context
  }

  /** The decision is true of the presentation, and the queue is left as it says. */
  lemma SubmissionsHold(q: Queue, p: Presentation, now: int)
    ensures AnswerHolds(q, p, Decide(q, p))
    ensures AnswerHolds(q, p, Taken) ==> Decide(q, p) == Taken
    ensures SubmissionLeft(q, Submit(q, p, now), p, now, Decide(q, p))
  {
  }

  /** A batch is due when it is forced, full, or its oldest receipt has waited long enough. */
  lemma ReadyWhen(q: Queue, now: int, force: bool)
    requires PendingRecorded(q)
    ensures q.pending == [] ==> !Ready(q, now, force)
    ensures q.pending != [] ==>
              q.pending[0] in q.records &&
              (Ready(q, now, force) <==>
                 force || q.policy.maxBatchReceipts <= |q.pending|
                 || q.records[q.pending[0]].acceptedAt + q.policy.microBatchMs <= now)
  {
    if q.pending != [] {
      assert q.pending[0] in q.pending;
    }
  }

  /** The oldest pending receipts leave in one new batch, each with one more attempt, and nothing else changes. */
  predicate DrainLeft(q: Queue, q': Queue, b: Batch, now: int) {
    && q.pending == b.receiptIds + q'.pending
    && |b.receiptIds| <= q.policy.maxBatchReceipts && (q'.pending == [] || |b.receiptIds| == q.policy.maxBatchReceipts)
    && b.id == q'.sequence == q.sequence + 1 && b.createdAt == now && b.context == q.context
    && q'.records.Keys == q.records.Keys
    && (forall id :: id in q.records && id !in b.receiptIds ==> q'.records[id] == q.records[id])
    && (forall id :: id in q.records && id in b.receiptIds ==>
          q'.records[id] == q.records[id].(status := QueuedForAnchor, batchId := Some(b.id), attempts := q.records[id].attempts + 1))
    && q'.policy == q.policy && q'.order == q.order && q'.context == q.context
  }

  lemma DrainsHold(q: Queue, now: int)
    requires Valid(q)
    ensures DrainLeft(q, Drained(q), DrainedBatch(q, now), now)
  {
    hide Valid;
    var b := DrainedBatch(q, now);
    assert q.pending == q.pending[..BatchSize(q)] + q.pending[BatchSize(q)..];
    forall id | id in q.records
      ensures Drained(q).records[id] == (if id in b.receiptIds then Sent(q.records[id], b.id) else q.records[id])
    {
      DrainedRecords(q, id);
    }
  }

  // -------------------------------------------------------------------------
  // What a result leaves
  // -------------------------------------------------------------------------

  /** The receipt was sent in the batch and awaits its result. */
  predicate Awaits(q: Queue, id: Id, batch: nat) {
    id in q.records && q.records[id].batchId == Some(batch) && q.records[id].status == QueuedForAnchor
  }

  /** The receipt is included through the batch, until a reorganisation. */
  predicate IncludedBy(q: Queue, id: Id, batch: nat) {
    id in q.records && q.records[id].batchId == Some(batch) && q.records[id].status == ProvisionallyIncluded
  }

  predicate AttemptsLeft(q: Queue, id: Id)
    requires id in q.records
  {
    q.records[id].attempts < q.policy.maxAttempts
  }

  /** Everything but status and anchor is as it was. */
  predicate Becomes(q: Queue, q': Queue, id: Id, status: Status, anchor: Option<int>)
    requires id in q.records
  {
    id in q'.records && q'.records[id] == q.records[id].(status := status, anchor := anchor)
  }

  /** The receipt goes back to pending. */
  predicate Returns(q: Queue, id: Id, batch: nat, r: AnchorResult) {
    && ((r.status.Retryable? && Awaits(q, id, batch)) || (r.status.Reorged? && IncludedBy(q, id, batch)))
    && AttemptsLeft(q, id)
  }

  /** What each outcome leaves of one listed receipt. */
  predicate Answered(q: Queue, q': Queue, id: Id, batch: nat, r: AnchorResult) {
    && (Awaits(q, id, batch) ==>
          match r.status
          case Included => Becomes(q, q', id, ProvisionallyIncluded, r.anchor)
          case Retryable => Becomes(q, q', id, if AttemptsLeft(q, id) then Accepted else Failed, q.records[id].anchor)
          case OtherStatus => Becomes(q, q', id, Failed, q.records[id].anchor)
          case Reorged => Unchanged(q, q', id))
    && (IncludedBy(q, id, batch) ==>
          if !r.status.Reorged? then Unchanged(q, q', id)
          else if AttemptsLeft(q, id) then Becomes(q, q', id, Accepted, None)
          else Becomes(q, q', id, Failed, q.records[id].anchor))
    && (id in q.records && !Awaits(q, id, batch) && !IncludedBy(q, id, batch) ==> Unchanged(q, q', id))
  }

  predicate Unchanged(q: Queue, q': Queue, id: Id)
    requires id in q.records
  {
    id in q'.records && q'.records[id] == q.records[id]
  }

  /** The whole effect of a result: on listed receipts, on all others, and on the pending list. */
  ghost predicate ResultApplied(q: Queue, q': Queue, ids: seq<Id>, batch: nat, r: AnchorResult) {
    && (forall id :: id in ids ==> Answered(q, q', id, batch, r))
    && (forall id :: id in q.records && id !in ids ==> Unchanged(q, q', id))
    && q.pending <= q'.pending
    && (forall id :: id in q'.pending <==> id in q.pending || (id in ids && Returns(q, id, batch, r)))
  }

  /** One more listed receipt; a repeated one has left the state that the result applies to. */
  lemma OneMoreResult(q: Queue, q1: Queue, ids: seq<Id>, id: Id, batch: nat, r: AnchorResult)
    requires ResultApplied(q, q1, ids, batch, r) && q1.policy == q.policy && q1.records.Keys == q.records.Keys
    ensures ResultApplied(q, RecordOne(q1, id, batch, r), ids + [id], batch, r)
  {
    var q2 := RecordOne(q1, id, batch, r);
    if id in q.records && id in ids {
      assert Answered(q, q1, id, batch, r);
    }
    forall x | x in ids + [id] ensures Answered(q, q2, x, batch, r) {
      if x in ids {
        assert Answered(q, q1, x, batch, r);
      }
    }
    assert forall x :: x in ids + [id] <==> x in ids || x == id;
  }

  /** A result leaves every listed receipt as its outcome says, and touches nothing else. */
  lemma {:induction false} ResultsApply(q: Queue, ids: seq<Id>, batch: nat, r: AnchorResult)
    ensures ResultApplied(q, Record(q, ids, batch, r), ids, batch, r)
    ensures Record(q, ids, batch, r).policy == q.policy && Record(q, ids, batch, r).records.Keys == q.records.Keys
    decreases |ids|
  {
    if ids != [] {
      hide ResultApplied;
      var n := |ids| - 1;
      ResultsApply(q, ids[..n], batch, r);
      OneMoreResult(q, Record(q, ids[..n], batch, r), ids[..n], ids[n], batch, r);
      assert ids[..n] + [ids[n]] == ids;
    }
  }

  /**
   A receipt that is included and then reorganised away is pending again, without
   its anchor, if and only if it has attempts left; otherwise it has failed.
   */
  lemma IncludedThenReorged(q: Queue, ids: seq<Id>, again: seq<Id>, batch: nat, a: Option<int>, b: Option<int>, id: Id)
    requires Valid(q) && id in ids && id in again && Awaits(q, id, batch)
    ensures var q1 := Record(q, ids, batch, AnchorResult(Included, a));
            var q2 := Record(q1, again, batch, AnchorResult(Reorged, b));
            && Becomes(q, q1, id, ProvisionallyIncluded, a) && id !in q1.pending
            && (id in q2.pending <==> AttemptsLeft(q, id))
            && Becomes(q, q2, id, if AttemptsLeft(q, id) then Accepted else Failed, if AttemptsLeft(q, id) then None else a)
  {
    hide Valid, Record;
    var q1 := Record(q, ids, batch, AnchorResult(Included, a));
    assert id !in q.pending by { ValidPending(q); }
    ResultsApply(q, ids, batch, AnchorResult(Included, a));
    assert Answered(q, q1, id, batch, AnchorResult(Included, a));
    ResultsApply(q1, again, batch, AnchorResult(Reorged, b));
    assert Answered(q1, Record(q1, again, batch, AnchorResult(Reorged, b)), id, batch, AnchorResult(Reorged, b));
  }

  lemma ValidPending(q: Queue)
    requires Valid(q)
    ensures PendingExact(q.pending, q.records)
  {
  }

  // -------------------------------------------------------------------------
  // Runs
  // -------------------------------------------------------------------------

  datatype Op =
    | OpSubmit(p: Presentation, now: int)
    | OpDrain(now: int, force: bool)
    | OpRecord(ids: seq<Id>, batch: nat, r: AnchorResult)

  function Apply(q: Queue, op: Op): Queue {
    match op
    case OpSubmit(p, now) => Submit(q, p, now)
    case OpDrain(now, force) => if Ready(q, now, force) then Drained(q) else q
    case OpRecord(ids, batch, r) => Record(q, ids, batch, r)
  }

  lemma ApplyValid(q: Queue, op: Op)
    requires Valid(q)
    ensures Valid(Apply(q, op)) && Apply(q, op).policy == q.policy
  {
    match op
    case OpSubmit(p, now) => SubmitValid(q, p, now);
    case OpDrain(now, force) => if Ready(q, now, force) { DrainValid(q); }
    case OpRecord(ids, batch, r) =>
      RecordValid(q, ids, batch, r);
      RecordKeepsPolicy(q, ids, batch, r);
  }

  lemma {:induction false} RecordKeepsPolicy(q: Queue, ids: seq<Id>, batch: nat, r: AnchorResult)
    ensures Record(q, ids, batch, r).policy == q.policy && Record(q, ids, batch, r).context == q.context
    ensures Record(q, ids, batch, r).order == q.order
    decreases |ids|
  {
    if ids != [] {
      RecordKeepsPolicy(q, ids[..|ids| - 1], batch, r);
    }
  }

  /** The queue after a list of operations. */
  function RunOps(policy: Policy, ops: seq<Op>): Queue {
    if ops == [] then Empty(policy) else Apply(RunOps(policy, ops[..|ops| - 1]), ops[|ops| - 1])
  }

  lemma {:induction false} SumBounded(order: seq<Id>, records: map<Id, Entry>, bound: nat)
    requires forall id :: id in order ==> id in records && records[id].attempts <= bound
    ensures SumAttempts(order, records) <= |order| * bound
    decreases |order|
  {
    if order != [] {
      var n := |order| - 1;
      assert order[n] in order;
      SumBounded(order[..n], records, bound);
      assert |order| * bound == n * bound + bound;
    }
  }

  /**
   In every reachable queue: pending is without repetition and exactly the
   accepted entries, each below its attempt limit, and the number of batches
   drained is at most the sum of attempts, so at most the product of the limits.
   */
  lemma ReachableQueues(policy: Policy, ops: seq<Op>)
    requires ValidPolicy(policy)
    ensures var q := RunOps(policy, ops);
            && PendingExact(q.pending, q.records)
            && (forall id :: id in q.pending ==> q.records[id].attempts < policy.maxAttempts)
            && (forall id :: id in q.order <==> id in q.records)
            && q.sequence <= SumAttempts(q.order, q.records) <= policy.maxQueueReceipts * policy.maxAttempts
  {
    hide RunOps;
    EveryRunValid(policy, ops);
    var q := RunOps(policy, ops);
    SumBounded(q.order, q.records, policy.maxAttempts);
    MulMonotone(|q.order|, policy.maxQueueReceipts, policy.maxAttempts);
  }

  lemma {:induction false} EveryRunValid(policy: Policy, ops: seq<Op>)
    requires ValidPolicy(policy)
    ensures Valid(RunOps(policy, ops)) && RunOps(policy, ops).policy == policy
    decreases |ops|
  {
    if ops == [] {
      EmptyValid(policy);
    } else {
      hide Apply, Valid;
      EveryRunValid(policy, ops[..|ops| - 1]);
      ApplyValid(RunOps(policy, ops[..|ops| - 1]), ops[|ops| - 1]);
    }
  }

  // -------------------------------------------------------------------------
  // Snapshots
  // -------------------------------------------------------------------------

  datatype Snapshot = Snapshot(
    policy: Policy, sequence: nat, context: Option<Context>, entries: seq<(Id, Entry)>, pendingIds: seq<Id>)

  function SnapshotOf(q: Queue): Snapshot {
    Snapshot(q.policy, q.sequence, q.context, EntriesOf(q.order, q.records), q.pending)
  }

  /** The records in insertion order. */
  function EntriesOf(order: seq<Id>, records: map<Id, Entry>): (es: seq<(Id, Entry)>)
    ensures (forall id :: id in order ==> id in records) ==>
              |es| == |order| && forall i :: 0 <= i < |es| ==> es[i] == (order[i], records[order[i]])
    decreases |order|
  {
    if order == [] then []
    else
      var n := |order| - 1;
      var front := EntriesOf(order[..n], records);
      if order[n] in records then front + [(order[n], records[order[n]])] else front
  }

  datatype RestoreError = BadPolicy | BadContext | BadEntry | BadPending

  /** The entries read so far; an invalid, repeated or mismatched one is refused. */
  function LoadEntries(es: seq<(Id, Entry)>): Option<map<Id, Entry>> {
    if es == [] then Some(map[])
    else match LoadEntries(es[..|es| - 1])
      case None => None
      case Some(m) =>
        var (id, e) := es[|es| - 1];
        if id in m || !Validates(e.presentation) || e.presentation.receiptId != id then None else Some(m[id := e])
  }

  predicate LoadsPending(ids: seq<Id>, records: map<Id, Entry>) {
    Distinct(ids) && forall id :: id in ids ==> id in records && records[id].status == Accepted
  }

  function OrderOf(es: seq<(Id, Entry)>): (ids: seq<Id>)
    ensures |ids| == |es| && forall i :: 0 <= i < |es| ==> ids[i] == es[i].0
  {
    seq(|es|, i requires 0 <= i < |es| => es[i].0)
  }

  /** fromSnapshot without its check of the anchor context. */
  function Rebuild(s: Snapshot): Result<Queue, RestoreError> {
    if !ValidPolicy(s.policy) then Err(BadPolicy)
    else match LoadEntries(s.entries)
      case None => Err(BadEntry)
      case Some(m) =>
        if !LoadsPending(s.pendingIds, m) then Err(BadPending)
        else Ok(Queue(s.policy, s.pendingIds, OrderOf(s.entries), m, s.sequence, s.context))
  }

  /** The anchor context must be null or carry an integer chain id. */
  predicate RefusedContext(s: Snapshot) {
    s.context.Some? && !s.context.value.chainId.Number?
  }

  function FromSnapshot(s: Snapshot): Result<Queue, RestoreError> {
    if ValidPolicy(s.policy) && RefusedContext(s) then Err(BadContext) else Rebuild(s)
  }

  predicate Loadable(order: seq<Id>, records: map<Id, Entry>) {
    && Distinct(order)
    && forall id :: id in order ==> id in records && Validates(records[id].presentation) && records[id].presentation.receiptId == id
  }

  function Restricted(order: seq<Id>, records: map<Id, Entry>): map<Id, Entry> {
    map id | id in order && id in records :: records[id]
  }

  lemma RestrictedSnoc(order: seq<Id>, records: map<Id, Entry>)
    requires order != [] && order[|order| - 1] in records
    ensures var n := |order| - 1;
            Restricted(order, records) == Restricted(order[..n], records)[order[n] := records[order[n]]]
  {
    var n := |order| - 1;
    assert forall id :: id in order <==> id in order[..n] || id == order[n];
  }

  lemma LoadableFront(order: seq<Id>, records: map<Id, Entry>)
    requires Loadable(order, records) && order != []
    ensures Loadable(order[..|order| - 1], records)
    ensures order[|order| - 1] in records && Validates(records[order[|order| - 1]].presentation)
    ensures records[order[|order| - 1]].presentation.receiptId == order[|order| - 1]
    ensures order[|order| - 1] !in Restricted(order[..|order| - 1], records)
  {
    var n := |order| - 1;
    assert order[n] in order;
    assert forall id :: id in order[..n] ==> id in order;
  }

  lemma {:induction false} EntriesLoad(order: seq<Id>, records: map<Id, Entry>)
    requires Loadable(order, records)
    ensures LoadEntries(EntriesOf(order, records)) == Some(Restricted(order, records))
    decreases |order|
  {
    hide Loadable, Restricted, Validates;
    if order != [] {
      var n := |order| - 1;
      LoadableFront(order, records);
      EntriesLoad(order[..n], records);
      RestrictedSnoc(order, records);
      assert EntriesOf(order, records)[..|EntriesOf(order[..n], records)|] == EntriesOf(order[..n], records);
    } else {
      NothingRestricted(records);
    }
  }

  lemma NothingRestricted(records: map<Id, Entry>)
    ensures Restricted([], records) == map[]
  {
  }

  lemma ValidLoads(q: Queue)
    requires Valid(q)
    ensures Loadable(q.order, q.records) && Restricted(q.order, q.records) == q.records
    ensures LoadsPending(q.pending, q.records)
    ensures OrderOf(EntriesOf(q.order, q.records)) == q.order
  {
    hide Counted, SumAttempts;
    assert forall id :: id in q.order ==> id in q.records;
  }

  /**
   A snapshot restores the queue exactly when no general receipt has set an
   anchor context: its chain id is a decimal string, which the restore refuses.
   */
  lemma SnapshotRoundTrip(q: Queue)
    requires Valid(q)
    ensures q.context.None? ==> FromSnapshot(SnapshotOf(q)) == Ok(q)
    ensures q.context.Some? ==> FromSnapshot(SnapshotOf(q)) == Err(BadContext)
    ensures Rebuild(SnapshotOf(q)) == Ok(q)
  {
    hide Counted, Listed, PendingExact, EntriesValid, Loadable, LoadEntries, EntriesOf, LoadsPending, OrderOf, Restricted;
    ValidLoads(q);
    EntriesLoad(q.order, q.records);
  }

  /** A snapshot that can be restored, in terms of its own fields. */
  ghost predicate WellFormed(s: Snapshot) {
    && ValidPolicy(s.policy)
    && (s.context.Some? ==> s.context.value.chainId.Number?)
    && EntriesWellFormed(s.entries)
    && (forall i, j :: 0 <= i < j < |s.pendingIds| ==> s.pendingIds[i] != s.pendingIds[j])
    && (forall k :: 0 <= k < |s.pendingIds| ==> HasAccepted(s.entries, s.pendingIds[k]))
  }

  predicate HasAccepted(es: seq<(Id, Entry)>, id: Id) {
    exists i :: 0 <= i < |es| && es[i].0 == id && es[i].1.status == Accepted
  }

  /** Valid presentations under their own ids, none twice. */
  predicate EntriesWellFormed(es: seq<(Id, Entry)>) {
    && (forall i :: 0 <= i < |es| ==> Validates(es[i].1.presentation) && es[i].1.presentation.receiptId == es[i].0)
    && (forall i, j :: 0 <= i < j < |es| ==> es[i].0 != es[j].0)
  }

  /** The map holds exactly the entries. */
  predicate HoldsEntries(m: map<Id, Entry>, es: seq<(Id, Entry)>) {
    && (forall i :: 0 <= i < |es| ==> es[i].0 in m && m[es[i].0] == es[i].1)
    && (forall id :: id in m ==> exists i :: 0 <= i < |es| && es[i].0 == id)
  }

  lemma {:induction false} LoadsIff(es: seq<(Id, Entry)>)
    ensures LoadEntries(es).Some? <==> EntriesWellFormed(es)
    ensures LoadEntries(es).Some? ==> HoldsEntries(LoadEntries(es).value, es)
    decreases |es|
  {
    if es != [] {
      hide Validates;
      var n := |es| - 1;
      LoadsIff(es[..n]);
      if EntriesWellFormed(es) {
        assert EntriesWellFormed(es[..n]);
      }
      if LoadEntries(es[..n]).Some? {
        LoadsOneMore(LoadEntries(es[..n]).value, es);
      }
    }
  }

  lemma LoadsOneMore(m: map<Id, Entry>, es: seq<(Id, Entry)>)
    requires es != [] && EntriesWellFormed(es[..|es| - 1]) && HoldsEntries(m, es[..|es| - 1])
    ensures var (id, e) := es[|es| - 1];
            && (EntriesWellFormed(es) <==> id !in m && Validates(e.presentation) && e.presentation.receiptId == id)
            && (id !in m ==> HoldsEntries(m[id := e], es))
  {
    hide Validates;
    var n := |es| - 1;
    var front, id := es[..n], es[n].0;
    if id in m {
      var i :| 0 <= i < n && front[i].0 == id;
      assert es[i].0 == es[n].0;
    } else {
      var loaded := m[id := es[n].1];
      forall x | x in loaded ensures exists i :: 0 <= i < |es| && es[i].0 == x {
        if x in m {
          var i :| 0 <= i < n && front[i].0 == x;
          assert es[i].0 == x;
        } else {
          assert es[n].0 == x;
        }
      }
      forall i | 0 <= i < |es| ensures es[i].0 in loaded && loaded[es[i].0] == es[i].1 {
        if i < n {
          assert front[i] == es[i];
        }
      }
      forall i | 0 <= i < n ensures es[i].0 != id {
        assert front[i] == es[i];
      }
    }
  }

  /** A snapshot is restored exactly if it is well formed, and the queue then has its policy, entries and pending ids. */
  lemma RestoresIff(s: Snapshot)
    ensures FromSnapshot(s).Ok? <==> WellFormed(s)
    ensures FromSnapshot(s).Ok? ==>
              var q := FromSnapshot(s).value;
              && q.policy == s.policy && q.sequence == s.sequence && q.context == s.context && q.pending == s.pendingIds
              && HoldsEntries(q.records, s.entries)
              && |q.order| == |s.entries| && forall i :: 0 <= i < |q.order| ==> q.order[i] == s.entries[i].0
  {
    hide LoadEntries, EntriesWellFormed;
    LoadsIff(s.entries);
    if LoadEntries(s.entries).Some? {
      PendingIff(s.pendingIds, LoadEntries(s.entries).value, s.entries);
    }
  }

  lemma AcceptedInMap(m: map<Id, Entry>, es: seq<(Id, Entry)>, id: Id)
    requires HoldsEntries(m, es)
    ensures HasAccepted(es, id) <==> id in m && m[id].status == Accepted
  {
    if id in m {
      var i :| 0 <= i < |es| && es[i].0 == id;
      assert m[es[i].0] == es[i].1;
    }
    if HasAccepted(es, id) {
      var i :| 0 <= i < |es| && es[i].0 == id && es[i].1.status == Accepted;
      assert m[es[i].0] == es[i].1;
    }
  }

  lemma PendingIff(ids: seq<Id>, m: map<Id, Entry>, es: seq<(Id, Entry)>)
    requires HoldsEntries(m, es)
    ensures LoadsPending(ids, m) <==>
            && (forall i, j :: 0 <= i < j < |ids| ==> ids[i] != ids[j])
            && (forall k :: 0 <= k < |ids| ==> HasAccepted(es, ids[k]))
  {
    hide HasAccepted, HoldsEntries;
    forall id ensures HasAccepted(es, id) <==> id in m && m[id].status == Accepted {
      AcceptedInMap(m, es, id);
    }
    assert forall k :: 0 <= k < |ids| ==> ids[k] in ids;
  }

  lemma {:induction false} LoadFails(es: seq<(Id, Entry)>, n: nat)
    requires n <= |es| && LoadEntries(es[..n]).None?
    ensures LoadEntries(es).None?
    decreases |es|
  {
    if n == |es| {
      assert es[..n] == es;
    } else {
      assert es[..|es| - 1][..n] == es[..n];
      LoadFails(es[..|es| - 1], n);
    }
  }

  // -------------------------------------------------------------------------
  // The source's class
  // -------------------------------------------------------------------------

  class AvrIngressQueue {
    const policy: Policy
    var pending: seq<Id>
    var order: seq<Id>
    var records: map<Id, Entry>
    var sequence: nat
    var context: Option<Context>

    ghost function View(): Queue
      reads this
    {
      Queue(policy, pending, order, records, sequence, context)
    }

    constructor (policy: Policy)
      requires ValidPolicy(policy)
      ensures View() == Empty(policy) && Valid(View())
    {
      this.policy := policy;
      pending, order, records, sequence, context := [], [], map[], 0, None;
    }

    /** fromSnapshot: policy, context, entries and pending ids are checked in this order. */
    static method Restore(s: Snapshot) returns (r: Result<AvrIngressQueue, RestoreError>)
      ensures match FromSnapshot(s)
              case Err(e) => r == Err(e)
              case Ok(q) => r.Ok? && fresh(r.value) && r.value.View() == q
      ensures r.Ok? <==> WellFormed(s)
    {
      RestoresIff(s);
      hide WellFormed;
      if !ValidPolicy(s.policy) {
        return Err(BadPolicy);
      }
      if s.context.Some? && !s.context.value.chainId.Number? {
        return Err(BadContext);
      }
      var queue := new AvrIngressQueue(s.policy);
      queue.sequence, queue.context := s.sequence, s.context;
      var loaded := queue.RestoreEntries(s.entries);
      if !loaded {
        return Err(BadEntry);
      }
      var listed := queue.RestorePending(s.pendingIds);
      if !listed {
        return Err(BadPending);
      }
      return Ok(queue);
    }

    method RestoreEntries(es: seq<(Id, Entry)>) returns (ok: bool)
      requires records == map[] && order == []
      modifies this`records, this`order
      ensures ok <==> LoadEntries(es).Some?
      ensures ok ==> Some(records) == LoadEntries(es) && order == OrderOf(es)
    {
      var i := 0;
      while i < |es|
        invariant 0 <= i <= |es|
        invariant LoadEntries(es[..i]) == Some(records) && order == OrderOf(es[..i])
      {
        assert es[..i + 1][..i] == es[..i];
        var (id, e) := es[i];
        if id in records || !Validates(e.presentation) || e.presentation.receiptId != id {
          LoadFails(es, i + 1);
          return false;
        }
        records := records[id := e];
        order := order + [id];
        i := i + 1;
      }
      assert es[..i] == es;
      return true;
    }

    method RestorePending(ids: seq<Id>) returns (ok: bool)
      requires pending == []
      modifies this`pending
      ensures ok <==> LoadsPending(ids, records)
      ensures ok ==> pending == ids
    {
      var seen: set<Id> := {};
      var i := 0;
      while i < |ids|
        invariant 0 <= i <= |ids|
        invariant pending == ids[..i] && LoadsPending(ids[..i], records)
        invariant seen == set k | 0 <= k < i :: ids[k]
      {
        if ids[i] in seen || ids[i] !in records || records[ids[i]].status != Accepted {
          assert ids[i] in ids;
          return false;
        }
        seen := seen + {ids[i]};
        pending := pending + [ids[i]];
        assert ids[..i + 1] == ids[..i] + [ids[i]];
        i := i + 1;
      }
      assert ids[..i] == ids;
      return true;
    }

    method SubmitPresentation(p: Presentation, now: int) returns (r: Submission)
      modifies this
      ensures r == Decide(old(View()), p)
      ensures View() == Submit(old(View()), p, now)
      ensures AnswerHolds(old(View()), p, r) && SubmissionLeft(old(View()), View(), p, now, r)
      ensures Valid(old(View())) ==> Valid(View())
    {
      SubmissionsHold(View(), p, now);
      hide Valid, AnswerHolds, SubmissionLeft;
      if Valid(View()) {
        SubmitValid(View(), p, now);
      }
      if p.bytes > policy.maxPresentationBytes {
        return TooLarge;
      }
      if !Validates(p) {
        return Invalid;
      }
      if p.receiptId in records {
        return Duplicate(records[p.receiptId].status);
      }
      if p.context.Some? && context.Some? && p.context != context {
        return WrongContext;
      }
      if |records| >= policy.maxQueueReceipts {
        return Full;
      }
      if p.context.Some? && context.None? {
        context := p.context;
      }
      records := records[p.receiptId := Entry(p, now, 0, Accepted, None, None)];
      order := order + [p.receiptId];
      pending := pending + [p.receiptId];
      return Taken;
    }

    /** The loop that stamps a drained batch. */
    method MarkBatch(ids: seq<Id>, batch: nat)
      modifies this`records
      ensures records == MarkSent(old(records), ids, batch)
    {
      ghost var before := records;
      var i := 0;
      while i < |ids|
        invariant 0 <= i <= |ids|
        invariant records.Keys == before.Keys
        invariant records == MarkSent(before, ids[..i], batch)
      {
        assert ids[..i + 1][..i] == ids[..i];
        if ids[i] in records {
          var e := records[ids[i]];
          records := records[ids[i] := e.(status := QueuedForAnchor, batchId := Some(batch), attempts := e.attempts + 1)];
        }
        i := i + 1;
      }
      assert ids[..i] == ids;
    }

    method Drain(now: int, force: bool) returns (batch: Option<Batch>)
      requires PendingRecorded(View())
      modifies this
      ensures batch.Some? <==> Ready(old(View()), now, force)
      ensures batch.Some? ==> batch.value == DrainedBatch(old(View()), now) && View() == Drained(old(View()))
      ensures batch.None? ==> View() == old(View())
      ensures Valid(old(View())) ==> Valid(View())
      ensures Valid(old(View())) && batch.Some? ==> DrainLeft(old(View()), View(), batch.value, now)
    {
      hide Valid, MarkSent, DrainLeft;
      if |pending| == 0 {
        return None;
      }
      assert pending[0] in pending;
      if !force && |pending| < policy.maxBatchReceipts && now - records[pending[0]].acceptedAt < policy.microBatchMs {
        return None;
      }
      ghost var before := View();
      if Valid(before) {
        DrainValid(before);
        DrainsHold(before, now);
      }
      var n := if |pending| <= policy.maxBatchReceipts then |pending| else policy.maxBatchReceipts;
      var ids := pending[..n];
      pending := pending[n..];
      sequence := sequence + 1;
      MarkBatch(ids, sequence);
      assert View() == Drained(before);
      return Some(Batch(sequence, ids, now, context));
    }

    method RecordAnchorResult(ids: seq<Id>, batch: nat, r: AnchorResult)
      modifies this
      ensures View() == Record(old(View()), ids, batch, r)
      ensures ResultApplied(old(View()), View(), ids, batch, r)
      ensures Valid(old(View())) ==> Valid(View())
    {
      ghost var before := View();
      var i := 0;
      while i < |ids|
        invariant 0 <= i <= |ids|
        invariant View() == Record(before, ids[..i], batch, r)
        modifies this`records, this`pending
      {
        assert ids[..i + 1][..i] == ids[..i];
        var id := ids[i];
        i := i + 1;
        if id !in records || records[id].batchId != Some(batch) {
          continue;
        }
        var e := records[id];
        if (if r.status.Reorged? then e.status != ProvisionallyIncluded else e.status != QueuedForAnchor) {
          continue;
        }
        if r.status.Included? {
          records := records[id := e.(status := ProvisionallyIncluded, anchor := r.anchor)];
        } else if r.status.Reorged? && e.attempts < policy.maxAttempts {
          records := records[id := e.(status := Accepted, anchor := None)];
          pending := pending + [id];
        } else if r.status.Retryable? && e.attempts < policy.maxAttempts {
          records := records[id := e.(status := Accepted)];
          pending := pending + [id];
        } else {
          records := records[id := e.(status := Failed)];
        }
      }
      assert ids[..i] == ids;
      ResultsApply(before, ids, batch, r);
      if Valid(before) {
        RecordValid(before, ids, batch, r);
      }
    }
  }
}
