/**
 The reorg-aware anchor index: it scans a mutable chain in ranges, stores a
 checkpoint per range, rebuilds when the newest checkpoint is off the chain, and
 attaches Merkle manifests to batch anchors.

 A chain view is the sequence of blocks that a run sees at one moment: it may see
 another one at each range. A block's hash stands for its whole history (predicate
 Consistent). Logs carry decoded events.
 */
module EventIndex {
  import opened Wrappers
  import opened Merkle

  type Address = nat

  datatype Kind = IndividualKind | AuthorisedKind | BatchKind

  datatype Contract = Contract(kind: Kind, address: Address)

  datatype Event =
    | ReceiptAnchored(receiptId: Digest, commitmentsRoot: Digest, issuer: Address, schemaVersion: string, includedAt: nat)
    | AuthorisedReceiptAnchored(receiptId: Digest, organizationId: Digest, authorityCommitment: Digest, issuer: Address,
                                commitmentsRoot: Digest, schemaVersion: string, includedAt: nat)
    | ReceiptBatchAnchored(batchRoot: Digest, issuer: Address, leafCount: nat, schemaVersion: string, includedAt: nat)
    | ReceiptBatchAnchoredV2(batchId: Digest, batchRoot: Digest, publisher: Address, leafCount: nat,
                             schemaVersion: string, includedAt: nat)
    | OtherEvent

  datatype Log = Log(address: Address, event: Event, transactionHash: Digest, index: nat)

  datatype Block = Block(hash: Digest, logs: seq<Log>)

  type Chain = seq<Block>

  datatype Position = Position(blockNumber: nat, blockHash: Digest, transactionHash: Digest, logIndex: nat)

  datatype Located = Located(position: Position, address: Address, event: Event)

  datatype Individual = Individual(
    position: Position, contract: Address, receiptId: Digest, commitmentsRoot: Digest, issuer: Address,
    schemaVersion: string, includedAt: nat,
    organisationId: Option<Digest>, authorityCommitment: Option<Digest>)

  datatype BatchAnchor = BatchAnchor(
    position: Position, contract: Address, batchId: Option<Digest>, batchRoot: Digest, publisher: Address,
    leafCount: nat, schemaVersion: string, includedAt: nat)

  datatype Attachment = Attachment(receiptIds: seq<Digest>, anchorSchemaVersion: string)

  datatype Batch = Batch(anchor: BatchAnchor, manifest: Option<Attachment>)

  datatype Checkpoint = Checkpoint(fromBlock: nat, toBlock: nat, number: nat, hash: Digest)

  datatype State = State(
    nextBlock: nat,
    checkpoints: seq<Checkpoint>,
    individual: map<Digest, Individual>,
    batches: map<Digest, Batch>)

  /** The two maps share no keys; a key names the map it belongs to. */
  datatype Key = ReceiptKey(id: Digest) | BatchKey(id: Digest)

  datatype Record = IndividualRecord(entry: Individual) | BatchRecord(anchor: BatchAnchor)

  datatype Write = Write(key: Key, record: Record)

  /** The anchor stored under a key, manifests aside. */
  function At(st: State, k: Key): Option<Record> {
    match k
    case ReceiptKey(id) => if id in st.individual then Some(IndividualRecord(st.individual[id])) else None
    case BatchKey(id) => if id in st.batches then Some(BatchRecord(st.batches[id].anchor)) else None
  }

  // -------------------------------------------------------------------------
  // Events and the writes they cause
  // -------------------------------------------------------------------------

  predicate Expected(kind: Kind, event: Event) {
    match kind
    case IndividualKind => event.ReceiptAnchored?
    case AuthorisedKind => event.AuthorisedReceiptAnchored?
    case BatchKind => event.ReceiptBatchAnchored? || event.ReceiptBatchAnchoredV2?
  }

  /** applyEvent's entry for a log of an indexed contract. */
  function WriteOf(log: Located): Write
    requires !log.event.OtherEvent?
  {
    var p, c := log.position, log.address;
    match log.event
    case ReceiptAnchored(id, root, issuer, version, at) =>
      Write(ReceiptKey(id), IndividualRecord(Individual(p, c, id, root, issuer, version, at, None, None)))
    case AuthorisedReceiptAnchored(id, org, authority, issuer, root, version, at) =>
      Write(ReceiptKey(id), IndividualRecord(Individual(p, c, id, root, issuer, version, at, Some(org), Some(authority))))
    case ReceiptBatchAnchored(root, issuer, leaves, version, at) =>
      Write(BatchKey(root), BatchRecord(BatchAnchor(p, c, None, root, issuer, leaves, version, at)))
    case ReceiptBatchAnchoredV2(id, root, publisher, leaves, version, at) =>
      Write(BatchKey(id), BatchRecord(BatchAnchor(p, c, Some(id), root, publisher, leaves, version, at)))
  }

  /** The event that a stored record gives back, read from its named fields. */
  function EventOf(r: Record): Event {
    match r
    case IndividualRecord(e) =>
      if e.organisationId.Some? && e.authorityCommitment.Some? then
        AuthorisedReceiptAnchored(e.receiptId, e.organisationId.value, e.authorityCommitment.value, e.issuer,
                                  e.commitmentsRoot, e.schemaVersion, e.includedAt)
      else ReceiptAnchored(e.receiptId, e.commitmentsRoot, e.issuer, e.schemaVersion, e.includedAt)
    case BatchRecord(a) =>
      if a.batchId.Some? then
        ReceiptBatchAnchoredV2(a.batchId.value, a.batchRoot, a.publisher, a.leafCount, a.schemaVersion, a.includedAt)
      else ReceiptBatchAnchored(a.batchRoot, a.publisher, a.leafCount, a.schemaVersion, a.includedAt)
  }

  /** The log it came from. */
  function LogOf(r: Record): Located {
    match r
    case IndividualRecord(e) => Located(e.position, e.contract, EventOf(r))
    case BatchRecord(a) => Located(a.position, a.contract, EventOf(r))
  }

  /** Receipts are stored by their id, batches by theirs, or by their root if they have none. */
  function EventKey(event: Event): Key
    requires !event.OtherEvent?
  {
    match event
    case ReceiptAnchored(_, _, _, _, _) => ReceiptKey(event.receiptId)
    case AuthorisedReceiptAnchored(_, _, _, _, _, _, _) => ReceiptKey(event.receiptId)
    case ReceiptBatchAnchored(_, _, _, _, _) => BatchKey(event.batchRoot)
    case ReceiptBatchAnchoredV2(_, _, _, _, _, _) => BatchKey(event.batchId)
  }

  /** The record written for a log gives the log back. */
  lemma WriteDecodes(log: Located)
    requires !log.event.OtherEvent?
    ensures LogOf(WriteOf(log).record) == log && WriteOf(log).key == EventKey(log.event)
  {
  }

  /** A record is stored in the map its kind belongs to. */
  predicate Typed(w: Write) {
    w.key.ReceiptKey? <==> w.record.IndividualRecord?
  }

  function Put(st: State, w: Write): State
    requires Typed(w)
  {
    match w.record
    case IndividualRecord(entry) => st.(individual := st.individual[w.key.id := entry])
    case BatchRecord(anchor) => st.(batches := st.batches[w.key.id := Batch(anchor, None)])
  }

  function PutAll(st: State, ws: seq<Write>): State
    requires forall i :: 0 <= i < |ws| ==> Typed(ws[i])
  {
    if ws == [] then st else Put(PutAll(st, ws[..|ws| - 1]), ws[|ws| - 1])
  }

  function BlockLogs(number: nat, hash: Digest, logs: seq<Log>): seq<Located> {
    seq(|logs|, i requires 0 <= i < |logs| =>
      Located(Position(number, hash, logs[i].transactionHash, logs[i].index), logs[i].address, logs[i].event))
  }

  /** The logs of blocks lo..hi-1, in chain order; absent blocks have none. */
  function LogsOf(chain: Chain, lo: nat, hi: nat): seq<Located> {
    if hi <= lo then []
    else if hi - 1 < |chain| then
      LogsOf(chain, lo, hi - 1) + BlockLogs(hi - 1, chain[hi - 1].hash, chain[hi - 1].logs)
    else LogsOf(chain, lo, hi - 1)
  }

  /** parsedEvents: the writes of one contract, in log order. */
  function Parsed(logs: seq<Located>, c: Contract): (ws: seq<Write>)
    ensures forall i :: 0 <= i < |ws| ==> Typed(ws[i])
  {
    if logs == [] then []
    else
      var last := logs[|logs| - 1];
      var front := Parsed(logs[..|logs| - 1], c);
      if last.address == c.address && Expected(c.kind, last.event) then front + [WriteOf(last)] else front
  }

  /** The order in which a range is applied: contract by contract. */
  function RangeWrites(logs: seq<Located>, order: seq<Contract>): (ws: seq<Write>)
    ensures forall i :: 0 <= i < |ws| ==> Typed(ws[i])
  {
    if order == [] then []
    else RangeWrites(logs, order[..|order| - 1]) + Parsed(logs, order[|order| - 1])
  }

  // -------------------------------------------------------------------------
  // Naive replay of the canonical chain
  // -------------------------------------------------------------------------

  /** The bound contracts: addresses are unique. */
  type Registry = map<Address, Kind>

  predicate Relevant(registry: Registry, log: Located) {
    log.address in registry && Expected(registry[log.address], log.event)
  }

  /** Every relevant event, in chain order. */
  function Canonical(logs: seq<Located>, registry: Registry): (ws: seq<Write>)
    ensures forall i :: 0 <= i < |ws| ==> Typed(ws[i])
  {
    if logs == [] then []
    else
      var last := logs[|logs| - 1];
      var front := Canonical(logs[..|logs| - 1], registry);
      if Relevant(registry, last) then front + [WriteOf(last)] else front
  }

  /** What a list of writes stores under one key, oldest first. */
  function Values(ws: seq<Write>, k: Key): seq<Record> {
    if ws == [] then []
    else
      var last := ws[|ws| - 1];
      var front := Values(ws[..|ws| - 1], k);
      if last.key == k then front + [last.record] else front
  }

  function Last(rs: seq<Record>): Option<Record> {
    if rs == [] then None else Some(rs[|rs| - 1])
  }

  /** The canonical events for a key in blocks start..end-1, oldest first. */
  function EventsFor(chain: Chain, start: nat, end: nat, registry: Registry, k: Key): seq<Record> {
    Values(Canonical(LogsOf(chain, start, end), registry), k)
  }

  /** All relevant events for the key come from one contract. */
  predicate WrittenBy(logs: seq<Located>, registry: Registry, k: Key, a: Address) {
    forall i :: 0 <= i < |logs| && Relevant(registry, logs[i]) && WriteOf(logs[i]).key == k ==> logs[i].address == a
  }

  predicate Bound(order: seq<Contract>, registry: Registry) {
    forall i :: 0 <= i < |order| ==> order[i].address in registry && registry[order[i].address] == order[i].kind
  }

  predicate DistinctAddresses(order: seq<Contract>) {
    forall i, j :: 0 <= i < j < |order| ==> order[i].address != order[j].address
  }

  /** A run's contract list: the registry in some order. */
  predicate Lists(order: seq<Contract>, registry: Registry) {
    && DistinctAddresses(order)
    && Bound(order, registry)
    && (forall a :: a in registry ==> Contract(registry[a], a) in order)
  }

  // -------------------------------------------------------------------------
  // One run
  // -------------------------------------------------------------------------

  function Fresh(startBlock: nat): State {
    State(startBlock, [], map[], map[])
  }

  /** Only the newest checkpoint is compared with the chain. */
  predicate Reorged(st: State, chain: Chain) {
    st.checkpoints != [] &&
    var newest := st.checkpoints[|st.checkpoints| - 1];
    !(newest.number < |chain| && chain[newest.number].hash == newest.hash)
  }

  function Rewound(st: State, startBlock: nat, chain: Chain): State {
    if Reorged(st, chain) then Fresh(startBlock) else st
  }

  /** How a run scans: one past the head it read, its contract list and its range limit. */
  datatype Plan = Plan(head: nat, order: seq<Contract>, maxRange: nat)

  /** The block after the range that starts at `from`. */
  function RangeEnd(plan: Plan, from: nat): nat {
    if from + plan.maxRange <= plan.head then from + plan.maxRange else plan.head
  }

  /** There is another range, and the view still has its last block. */
  predicate Scannable(st: State, view: Chain, plan: Plan) {
    plan.maxRange >= 1 && st.nextBlock < plan.head && RangeEnd(plan, st.nextBlock) <= |view|
  }

  /** The range, read on one view. It is not compared with the checkpoint before it. */
  function ScanRange(st: State, view: Chain, plan: Plan): State
    requires Scannable(st, view, plan)
  {
    var end := RangeEnd(plan, st.nextBlock);
    var written := PutAll(st, RangeWrites(LogsOf(view, st.nextBlock, end), plan.order));
    State(end, st.checkpoints + [Checkpoint(st.nextBlock, end - 1, end - 1, view[end - 1].hash)],
          written.individual, written.batches)
  }

  /** One range per view, until the head is reached, a range cannot be read or the run stops. */
  function ScanViews(st: State, views: seq<Chain>, plan: Plan): State
    decreases |views|
  {
    if views == [] || !Scannable(st, views[0], plan) then st
    else ScanViews(ScanRange(st, views[0], plan), views[1..], plan)
  }

  /** The view of the last range scanned, c if there is none. */
  function LastView(st: State, c: Chain, views: seq<Chain>, plan: Plan): Chain
    decreases |views|
  {
    if views == [] || !Scannable(st, views[0], plan) then c
    else LastView(ScanRange(st, views[0], plan), views[0], views[1..], plan)
  }

  datatype Manifest = Manifest(
    wellFormed: bool,
    batchId: Option<Digest>,
    publisher: Option<Address>,
    batchRoot: Digest,
    receiptIds: seq<Digest>,
    leafCount: nat,
    anchorSchemaVersion: string)

  datatype ManifestError = MalformedManifest | RootMismatch | HalfIdentity | NotIndexed | IdentityMismatch | MetadataMismatch

  function ValidateManifest(h: Hash, m: Manifest): Option<ManifestError> {
    if !m.wellFormed || m.leafCount != |m.receiptIds| || m.anchorSchemaVersion == "" || m.receiptIds == [] then Some(MalformedManifest)
    else if Root(h, m.receiptIds) != m.batchRoot then Some(RootMismatch)
    else if m.batchId.None? != m.publisher.None? then Some(HalfIdentity)
    else None
  }

  function ManifestKey(m: Manifest): Digest {
    if m.batchId.Some? then m.batchId.value else m.batchRoot
  }

  function Attach(h: Hash, st: State, m: Manifest): Result<State, ManifestError> {
    if ValidateManifest(h, m).Some? then Err(ValidateManifest(h, m).value)
    else if ManifestKey(m) !in st.batches then Err(NotIndexed)
    else
      var batch := st.batches[ManifestKey(m)];
      var a := batch.anchor;
      if a.batchId.Some? && (a.batchId != m.batchId || Some(a.publisher) != m.publisher) then Err(IdentityMismatch)
      else if a.leafCount != m.leafCount || a.schemaVersion != m.anchorSchemaVersion then Err(MetadataMismatch)
      else Ok(st.(batches := st.batches[ManifestKey(m) := batch.(manifest := Some(Attachment(m.receiptIds, m.anchorSchemaVersion)))]))
  }

  /** The manifests directory: valid files without an anchor are skipped, any other failure ends the run. */
  function AttachAll(h: Hash, st: State, ms: seq<Manifest>): Result<State, ManifestError> {
    if ms == [] then Ok(st)
    else match AttachAll(h, st, ms[..|ms| - 1])
      case Err(e) => Err(e)
      case Ok(st') => AttachOrSkip(h, st', ms[|ms| - 1])
  }

  function AttachOrSkip(h: Hash, st: State, m: Manifest): Result<State, ManifestError> {
    if ValidateManifest(h, m).None? && ManifestKey(m) !in st.batches then Ok(st) else Attach(h, st, m)
  }

  /** Where a run ends: before anything is written, after its last range, or normally if it got to the head. */
  datatype Stop = BeforeRewind | WhileScanning | Completes

  /** One view for the reorganisation check and one for each range. */
  datatype Run = Run(rewind: Chain, views: seq<Chain>, plan: Plan, manifests: seq<Manifest>, stop: Stop)

  function Scanned(startBlock: nat, st: State, run: Run): State {
    ScanViews(Rewound(st, startBlock, run.rewind), run.views, run.plan)
  }

  predicate ReachesHead(startBlock: nat, st: State, run: Run) {
    run.stop.Completes? && Scanned(startBlock, st, run).nextBlock >= run.plan.head
  }

  /** The state file after a run. */
  function AfterRun(h: Hash, startBlock: nat, st: State, run: Run): State {
    if run.stop.BeforeRewind? then st
    else if !ReachesHead(startBlock, st, run) then Scanned(startBlock, st, run)
    else
      match AttachAll(h, Scanned(startBlock, st, run), run.manifests)
      case Ok(st') => st'
      case Err(_) => Scanned(startBlock, st, run)
  }

  function History(h: Hash, startBlock: nat, runs: seq<Run>): State {
    if runs == [] then Fresh(startBlock)
    else AfterRun(h, startBlock, History(h, startBlock, runs[..|runs| - 1]), runs[|runs| - 1])
  }

  // -------------------------------------------------------------------------
  // The source's loops over the in-memory state and the state file
  // -------------------------------------------------------------------------

  datatype Lookup =
    | NotFound
    | IndividualFound(entry: Individual)
    | BatchFound(anchor: BatchAnchor, siblings: seq<Digest>)

  predicate ListedIn(receiptId: Digest, batch: Batch) {
    batch.manifest.Some? && receiptId in batch.manifest.value.receiptIds
  }

  predicate Matches(h: Hash, batch: Batch) {
    batch.manifest.Some? ==>
      var ids := batch.manifest.value.receiptIds;
      |ids| > 0 && |ids| == batch.anchor.leafCount && Root(h, ids) == batch.anchor.batchRoot
  }

  /** Every attached manifest has the count and the root of its anchor. */
  predicate ManifestsMatch(h: Hash, batches: map<Digest, Batch>) {
    forall b :: b in batches ==> Matches(h, batches[b])
  }

  datatype SyncError = InvalidRange | Interrupted | Unreadable | ManifestFailure(error: ManifestError)

  class Indexer {
    const startBlock: nat
    const h: Hash
    var nextBlock: nat
    var checkpoints: seq<Checkpoint>
    var individual: map<Digest, Individual>
    var batches: map<Digest, Batch>
    /** The state file. */
    var stored: State

    constructor (startBlock: nat, h: Hash)
      ensures this.startBlock == startBlock && this.h == h && stored == Fresh(startBlock)
    {
      this.startBlock := startBlock;
      this.h := h;
      nextBlock, checkpoints, individual, batches := startBlock, [], map[], map[];
      stored := Fresh(startBlock);
    }

    ghost function View(): State
      reads this
    {
      State(nextBlock, checkpoints, individual, batches)
    }

    method Load()
      modifies this
      ensures View() == stored == old(stored)
    {
      nextBlock, checkpoints := stored.nextBlock, stored.checkpoints;
      individual, batches := stored.individual, stored.batches;
    }

    method Store()
      modifies this`stored
      ensures stored == View()
    {
      stored := State(nextBlock, checkpoints, individual, batches);
    }

    method ApplyEvent(log: Located)
      requires !log.event.OtherEvent?
      modifies this`individual, this`batches
      ensures View() == Put(old(View()), WriteOf(log))
      ensures At(View(), EventKey(log.event)).Some? && LogOf(At(View(), EventKey(log.event)).value) == log
      ensures forall k :: k != EventKey(log.event) ==> At(View(), k) == At(old(View()), k)
    {
      var w := WriteOf(log);
      match w.record
      case IndividualRecord(entry) => individual := individual[w.key.id := entry];
      case BatchRecord(anchor) => batches := batches[w.key.id := Batch(anchor, None)];
    }

    method RewindForReorg(chain: Chain) returns (reorged: bool)
      modifies this`nextBlock, this`checkpoints, this`individual, this`batches
      ensures reorged == Reorged(old(View()), chain)
      ensures View() == Rewound(old(View()), startBlock, chain)
    {
      if |checkpoints| == 0 {
        return false;
      }
      var newest := checkpoints[|checkpoints| - 1];
      if newest.number < |chain| && chain[newest.number].hash == newest.hash {
        return false;
      }
      individual, batches, checkpoints, nextBlock := map[], map[], [], startBlock;
      return true;
    }

    /** One contract's events of a range. */
    method ApplyContract(logs: seq<Located>, c: Contract)
      modifies this`individual, this`batches
      ensures View() == PutAll(old(View()), Parsed(logs, c))
    {
      hide PutAll, Parsed, Put, WriteOf;
      ghost var before := View();
      ParsedNone(before, c);
      var i := 0;
      assert logs[..0] == [];
      while i < |logs|
        invariant 0 <= i <= |logs|
        invariant View() == PutAll(before, Parsed(logs[..i], c))
        modifies this`individual, this`batches
      {
        ParsedStep(before, logs, i, c);
        if logs[i].address == c.address && Expected(c.kind, logs[i].event) {
          ApplyEvent(logs[i]);
        }
        i := i + 1;
      }
      assert logs[..i] == logs;
    }

    /** The contracts of a range, one after another. */
    method ApplyRange(logs: seq<Located>, order: seq<Contract>)
      modifies this`individual, this`batches
      ensures View() == PutAll(old(View()), RangeWrites(logs, order))
    {
      hide PutAll, Parsed;
      ghost var before := View();
      NothingToApply(before, logs);
      var i := 0;
      assert order[..0] == [];
      while i < |order|
        invariant 0 <= i <= |order|
        invariant View() == PutAll(before, RangeWrites(logs, order[..i]))
        modifies this`individual, this`batches
      {
        assert order[..i + 1][..i] == order[..i];
        PutAllConcat(before, RangeWrites(logs, order[..i]), Parsed(logs, order[i]));
        ApplyContract(logs, order[i]);
        i := i + 1;
      }
      assert order[..i] == order;
    }

    method ScanOneRange(view: Chain, plan: Plan)
      requires Scannable(View(), view, plan)
      modifies this
      ensures View() == stored == ScanRange(old(View()), view, plan)
    {
      hide PutAll, RangeWrites, LogsOf;
      var toBlock := if plan.head - 1 <= nextBlock + plan.maxRange - 1 then plan.head - 1 else nextBlock + plan.maxRange - 1;
      var logs := LogsOf(view, nextBlock, toBlock + 1);
      ApplyRange(logs, plan.order);
      checkpoints := checkpoints + [Checkpoint(nextBlock, toBlock, toBlock, view[toBlock].hash)];
      nextBlock := toBlock + 1;
      PutAllKeepsRest(old(View()), RangeWrites(logs, plan.order));
      Store();
    }

    method AttachManifests(ms: seq<Manifest>) returns (error: Option<ManifestError>)
      modifies this`batches
      ensures var r := AttachAll(h, old(View()), ms);
              match r case Ok(st) => error == None && View() == st case Err(e) => error == Some(e)
    {
      var i := 0;
      while i < |ms|
        invariant 0 <= i <= |ms|
        invariant AttachAll(h, old(View()), ms[..i]) == Ok(View())
        modifies this`batches
      {
        assert ms[..i + 1][..i] == ms[..i];
        var m := ms[i];
        var invalid := ValidateManifest(h, m);
        if invalid.Some? {
          AttachAllFails(h, old(View()), ms, i + 1);
          return invalid;
        }
        if ManifestKey(m) in batches {
          var batch := batches[ManifestKey(m)];
          var a := batch.anchor;
          if a.batchId.Some? && (a.batchId != m.batchId || Some(a.publisher) != m.publisher) {
            AttachAllFails(h, old(View()), ms, i + 1);
            return Some(IdentityMismatch);
          }
          if a.leafCount != m.leafCount || a.schemaVersion != m.anchorSchemaVersion {
            AttachAllFails(h, old(View()), ms, i + 1);
            return Some(MetadataMismatch);
          }
          batches := batches[ManifestKey(m) := batch.(manifest := Some(Attachment(m.receiptIds, m.anchorSchemaVersion)))];
        }
        i := i + 1;
      }
      assert ms[..i] == ms;
      return None;
    }

    /** The first position of a receipt in a manifest. */
    static function IndexOf(ids: seq<Digest>, id: Digest): (r: Option<nat>)
      ensures r.None? <==> id !in ids
      ensures r.Some? ==> r.value < |ids| && ids[r.value] == id && id !in ids[..r.value]
      decreases |ids|
    {
      if ids == [] then None
      else if ids[0] == id then Some(0)
      else match IndexOf(ids[1..], id)
        case None => None
        case Some(i) =>
          assert ids[..i + 1] == [ids[0]] + ids[1..][..i];
          Some(i + 1)
    }

    /**
     lookupReceipt: individual anchors first, then any batch whose manifest lists
     the receipt, with a path that folds to the manifest's root, and to the
     anchored root of a matching manifest.
     */
    method LookupReceipt(receiptId: Digest) returns (r: Lookup)
      ensures r.IndividualFound? <==> receiptId in individual
      ensures r.IndividualFound? ==> r.entry == individual[receiptId]
      ensures r.NotFound? <==> receiptId !in individual && forall b :: b in batches ==> !ListedIn(receiptId, batches[b])
      ensures r.BatchFound? ==> exists b :: b in batches && ListedIn(receiptId, batches[b]) && r.anchor == batches[b].anchor
                                            && Fold(h, receiptId, r.siblings) == Root(h, batches[b].manifest.value.receiptIds)
      ensures r.BatchFound? && ManifestsMatch(h, batches) ==>
                Fold(h, receiptId, r.siblings) == r.anchor.batchRoot && |r.siblings| == Height(r.anchor.leafCount)
    {
      if receiptId in individual {
        return IndividualFound(individual[receiptId]);
      }
      var keys := batches.Keys;
      while keys != {}
        invariant keys <= batches.Keys
        invariant forall b :: b in batches && b !in keys ==> !ListedIn(receiptId, batches[b])
        decreases |keys|
      {
        var b :| b in keys;
        keys := keys - {b};
        var batch := batches[b];
        if batch.manifest.Some? {
          var ids := batch.manifest.value.receiptIds;
          var index := IndexOf(ids, receiptId);
          if index.Some? {
            PathFoldsToRoot(h, ids, index.value);
            assert ListedIn(receiptId, batches[b]);
            return BatchFound(batch.anchor, Path(h, ids, index.value));
          }
        }
      }
      return NotFound;
    }

    /** The scan loop: one range per view, false if a view has lost a range's last block. */
    method ScanAll(views: seq<Chain>, plan: Plan) returns (readable: bool)
      requires View() == stored && plan.maxRange >= 1
      modifies this
      ensures View() == stored == ScanViews(old(View()), views, plan)
      ensures !readable ==> nextBlock < plan.head
    {
      hide ScanRange;
      var i := 0;
      assert views[0..] == views;
      while nextBlock < plan.head && i < |views|
        invariant 0 <= i <= |views|
        invariant View() == stored
        invariant ScanViews(View(), views[i..], plan) == ScanViews(old(View()), views, plan)
        decreases |views| - i
      {
        assert views[i..][1..] == views[i + 1..];
        if RangeEnd(plan, nextBlock) > |views[i]| {
          return false;
        }
        ScanOneRange(views[i], plan);
        i := i + 1;
      }
      return true;
    }

    /** syncIndex: the file after any way the run can end is the one the specification names. */
    method Sync(run: Run) returns (error: Option<SyncError>)
      modifies this
      ensures !(1 <= run.plan.maxRange <= 1000) ==> error == Some(InvalidRange) && stored == old(stored)
      ensures 1 <= run.plan.maxRange <= 1000 ==> stored == AfterRun(h, startBlock, old(stored), run)
      ensures 1 <= run.plan.maxRange <= 1000 ==>
                (error.None? <==> ReachesHead(startBlock, old(stored), run)
                                  && AttachAll(h, Scanned(startBlock, old(stored), run), run.manifests).Ok?)
    {
      var plan := run.plan;
      if plan.maxRange < 1 || plan.maxRange > 1000 {
        return Some(InvalidRange);
      }
      Load();
      if run.stop.BeforeRewind? {
        return Some(Interrupted);
      }
      var reorged := RewindForReorg(run.rewind);
      if reorged {
        Store();
      }
      var readable := ScanAll(run.views, plan);
      if !readable {
        return Some(Unreadable);
      }
      if run.stop.WhileScanning? || nextBlock < plan.head {
        return Some(Interrupted);
      }
      var failure := AttachManifests(run.manifests);
      if failure.Some? {
        return Some(ManifestFailure(failure.value));
      }
      Store();
      return None;
    }
  }

  lemma NothingToApply(st: State, logs: seq<Located>)
    ensures PutAll(st, RangeWrites(logs, [])) == st
  {
  }

  lemma ParsedNone(st: State, c: Contract)
    ensures PutAll(st, Parsed([], c)) == st
  {
  }

  lemma ParsedStep(st: State, logs: seq<Located>, i: nat, c: Contract)
    requires i < |logs|
    ensures PutAll(st, Parsed(logs[..i + 1], c))
            == if logs[i].address == c.address && Expected(c.kind, logs[i].event)
               then Put(PutAll(st, Parsed(logs[..i], c)), WriteOf(logs[i]))
               else PutAll(st, Parsed(logs[..i], c))
  {
    hide WriteOf;
    assert logs[..i + 1][..i] == logs[..i];
    if logs[i].address == c.address && Expected(c.kind, logs[i].event) {
      var ws := Parsed(logs[..i], c);
      assert (ws + [WriteOf(logs[i])])[..|ws|] == ws;
    }
  }

  lemma {:induction false} AttachAllFails(h: Hash, st: State, ms: seq<Manifest>, n: nat)
    requires n <= |ms| && AttachAll(h, st, ms[..n]).Err?
    ensures AttachAll(h, st, ms) == AttachAll(h, st, ms[..n])
    decreases |ms|
  {
    if n == |ms| {
      assert ms[..n] == ms;
    } else {
      assert ms[..|ms| - 1][..n] == ms[..n];
      AttachAllFails(h, st, ms[..|ms| - 1], n);
    }
  }

  lemma {:induction false} PutAllConcat(st: State, a: seq<Write>, b: seq<Write>)
    requires forall i :: 0 <= i < |a| ==> Typed(a[i])
    requires forall i :: 0 <= i < |b| ==> Typed(b[i])
    ensures PutAll(st, a + b) == PutAll(PutAll(st, a), b)
    decreases |b|
  {
    if b == [] {
      assert a + b == a;
    } else {
      var c := b[..|b| - 1];
      assert (a + b)[..|a + b| - 1] == a + c;
      PutAllConcat(st, a, c);
    }
  }

  lemma {:induction false} PutAllKeepsRest(st: State, ws: seq<Write>)
    requires forall i :: 0 <= i < |ws| ==> Typed(ws[i])
    ensures PutAll(st, ws).nextBlock == st.nextBlock && PutAll(st, ws).checkpoints == st.checkpoints
    decreases |ws|
  {
    if ws != [] {
      PutAllKeepsRest(st, ws[..|ws| - 1]);
    }
  }

  // -------------------------------------------------------------------------
  // A key holds the last write to it
  // -------------------------------------------------------------------------

  lemma {:induction false} AtPutAll(st: State, ws: seq<Write>, k: Key)
    requires forall i :: 0 <= i < |ws| ==> Typed(ws[i])
    ensures At(PutAll(st, ws), k) == if Values(ws, k) == [] then At(st, k) else Last(Values(ws, k))
    decreases |ws|
  {
    if ws != [] {
      AtPutAll(st, ws[..|ws| - 1], k);
    }
  }

  lemma {:induction false} ValuesConcat(a: seq<Write>, b: seq<Write>, k: Key)
    ensures Values(a + b, k) == Values(a, k) + Values(b, k)
    decreases |b|
  {
    if b == [] {
      assert a + b == a;
    } else {
      var c := b[..|b| - 1];
      assert (a + b)[..|a + b| - 1] == a + c;
      ValuesConcat(a, c, k);
    }
  }

  lemma {:induction false} CanonicalConcat(a: seq<Located>, b: seq<Located>, registry: Registry)
    ensures Canonical(a + b, registry) == Canonical(a, registry) + Canonical(b, registry)
    decreases |b|
  {
    if b == [] {
      assert a + b == a;
    } else {
      var c := b[..|b| - 1];
      assert (a + b)[..|a + b| - 1] == a + c;
      CanonicalConcat(a, c, registry);
    }
  }

  lemma {:induction false} LogsSplit(chain: Chain, lo: nat, mid: nat, hi: nat)
    requires lo <= mid <= hi
    ensures LogsOf(chain, lo, hi) == LogsOf(chain, lo, mid) + LogsOf(chain, mid, hi)
    decreases hi
  {
    if mid < hi {
      LogsSplit(chain, lo, mid, hi - 1);
    }
  }

  /** Canonical events of adjacent ranges are concatenated. */
  lemma EventsSplit(chain: Chain, lo: nat, mid: nat, hi: nat, registry: Registry, k: Key)
    requires lo <= mid <= hi
    ensures EventsFor(chain, lo, hi, registry, k)
            == EventsFor(chain, lo, mid, registry, k) + EventsFor(chain, mid, hi, registry, k)
  {
    var a, b := LogsOf(chain, lo, mid), LogsOf(chain, mid, hi);
    LogsSplit(chain, lo, mid, hi);
    CanonicalConcat(a, b, registry);
    ValuesConcat(Canonical(a, registry), Canonical(b, registry), k);
  }

  // -------------------------------------------------------------------------
  // Contract order against chain order inside a range
  // -------------------------------------------------------------------------

  lemma {:induction false} OneContract(logs: seq<Located>, registry: Registry, k: Key, a: Address, c: Contract)
    requires WrittenBy(logs, registry, k, a)
    requires c.address in registry && registry[c.address] == c.kind
    ensures Values(Parsed(logs, c), k) == if c.address == a then Values(Canonical(logs, registry), k) else []
    decreases |logs|
  {
    if logs != [] {
      var front, last := logs[..|logs| - 1], logs[|logs| - 1];
      OneContract(front, registry, k, a, c);
      if last.address == c.address && Expected(c.kind, last.event) {
        ValuesConcat(Parsed(front, c), [WriteOf(last)], k);
      }
      if Relevant(registry, last) {
        ValuesConcat(Canonical(front, registry), [WriteOf(last)], k);
      }
    }
  }

  lemma {:induction false} NoContract(logs: seq<Located>, registry: Registry, k: Key, a: Address)
    requires WrittenBy(logs, registry, k, a) && a !in registry
    ensures Values(Canonical(logs, registry), k) == []
    decreases |logs|
  {
    if logs != [] {
      var front, last := logs[..|logs| - 1], logs[|logs| - 1];
      NoContract(front, registry, k, a);
      if Relevant(registry, last) {
        ValuesConcat(Canonical(front, registry), [WriteOf(last)], k);
      }
    }
  }

  lemma RangeLast(logs: seq<Located>, order: seq<Contract>, k: Key)
    requires order != []
    ensures var n := |order| - 1;
            Values(RangeWrites(logs, order), k) == Values(RangeWrites(logs, order[..n]), k) + Values(Parsed(logs, order[n]), k)
  {
    hide Values, Parsed;
    var n := |order| - 1;
    ValuesConcat(RangeWrites(logs, order[..n]), Parsed(logs, order[n]), k);
  }

  predicate Among(order: seq<Contract>, a: Address) {
    exists i :: 0 <= i < |order| && order[i].address == a
  }

  lemma AmongSnoc(order: seq<Contract>, registry: Registry, a: Address)
    requires order != [] && DistinctAddresses(order) && Bound(order, registry)
    ensures var n := |order| - 1;
            && DistinctAddresses(order[..n]) && Bound(order[..n], registry)
            && order[n].address in registry && registry[order[n].address] == order[n].kind
            && (Among(order, a) <==> Among(order[..n], a) || order[n].address == a)
            && !(Among(order[..n], a) && order[n].address == a)
  {
    var n := |order| - 1;
    if Among(order[..n], a) {
      var i :| 0 <= i < n && order[..n][i].address == a;
      assert order[i].address == a;
    }
    if i :| 0 <= i < n && order[i].address == a {
      assert order[..n][i].address == a;
    }
  }

  lemma JoinNothing(rs: seq<Record>)
    ensures rs + [] == rs && [] + rs == rs
  {
  }

  /** An order contributes the key's events once its writer is among its contracts. */
  lemma {:induction false} OrderContributes(logs: seq<Located>, registry: Registry, k: Key, a: Address, order: seq<Contract>)
    requires WrittenBy(logs, registry, k, a) && DistinctAddresses(order) && Bound(order, registry)
    ensures Values(RangeWrites(logs, order), k) == if Among(order, a) then Values(Canonical(logs, registry), k) else []
    decreases |order|
  {
    NoOrder(logs, k);
    if order != [] {
      hide Values, Parsed, Canonical, WrittenBy, RangeWrites, Among, DistinctAddresses, Bound;
      var n := |order| - 1;
      AmongSnoc(order, registry, a);
      JoinNothing(Values(Canonical(logs, registry), k));
      OrderContributes(logs, registry, k, a, order[..n]);
      OneContract(logs, registry, k, a, order[n]);
      RangeLast(logs, order, k);
    }
  }

  /** A key with one writer sees its events in chain order, whatever the contract order. */
  lemma RangeOrder(logs: seq<Located>, registry: Registry, k: Key, a: Address, order: seq<Contract>)
    requires WrittenBy(logs, registry, k, a) && Lists(order, registry)
    ensures Values(RangeWrites(logs, order), k) == Values(Canonical(logs, registry), k)
  {
    hide Values, Parsed, Canonical, WrittenBy, RangeWrites;
    OrderContributes(logs, registry, k, a, order);
    if a in registry {
      var i :| 0 <= i < |order| && order[i] == Contract(registry[a], a);
      assert order[i].address == a;
    } else {
      NoContract(logs, registry, k, a);
    }
  }

  lemma {:induction false} ParsedMembers(logs: seq<Located>, registry: Registry, k: Key, c: Contract, r: Record)
    requires c.address in registry && registry[c.address] == c.kind
    requires r in Values(Parsed(logs, c), k)
    ensures r in Values(Canonical(logs, registry), k)
    decreases |logs|
  {
    var front, last := logs[..|logs| - 1], logs[|logs| - 1];
    if last.address == c.address && Expected(c.kind, last.event) {
      ValuesConcat(Parsed(front, c), [WriteOf(last)], k);
      ValuesConcat(Canonical(front, registry), [WriteOf(last)], k);
      if r in Values(Parsed(front, c), k) {
        ParsedMembers(front, registry, k, c, r);
      }
    } else {
      ParsedMembers(front, registry, k, c, r);
      if Relevant(registry, last) {
        ValuesConcat(Canonical(front, registry), [WriteOf(last)], k);
      }
    }
  }

  /** With any number of writers, a range stores only canonical events. */
  lemma {:induction false} RangeMembers(logs: seq<Located>, registry: Registry, k: Key, order: seq<Contract>, r: Record)
    requires Bound(order, registry)
    requires r in Values(RangeWrites(logs, order), k)
    ensures r in Values(Canonical(logs, registry), k)
    decreases |order|
  {
    hide Canonical, Parsed;
    if order != [] {
      var n := |order| - 1;
      RangeLast(logs, order, k);
      if r in Values(Parsed(logs, order[n]), k) {
        ParsedMembers(logs, registry, k, order[n], r);
      } else {
        RangeMembers(logs, registry, k, order[..n], r);
      }
    }
  }

  lemma CanonicalSnoc(front: seq<Located>, last: Located, registry: Registry, k: Key)
    ensures Values(Canonical(front + [last], registry), k)
            == Values(Canonical(front, registry), k)
               + (if Relevant(registry, last) && WriteOf(last).key == k then [WriteOf(last).record] else [])
  {
    hide WriteOf;
    assert (front + [last])[..|front|] == front;
    if Relevant(registry, last) {
      ValuesConcat(Canonical(front, registry), [WriteOf(last)], k);
      OneValue(WriteOf(last), k);
    }
  }

  lemma OneValue(w: Write, k: Key)
    ensures Values([w], k) == if w.key == k then [w.record] else []
  {
    assert [w][..0] == [];
  }

  lemma {:induction false} CanonicalHasParsed(logs: seq<Located>, registry: Registry, k: Key)
    requires Values(Canonical(logs, registry), k) != []
    ensures exists a :: a in registry && Values(Parsed(logs, Contract(registry[a], a)), k) != []
    decreases |logs|
  {
    NoCanonical(registry, k);
    hide Canonical, Values, Parsed, WriteOf;
    var front, last := logs[..|logs| - 1], logs[|logs| - 1];
    assert front + [last] == logs;
    CanonicalSnoc(front, last, registry, k);
    if Relevant(registry, last) && WriteOf(last).key == k {
      LastIsParsed(logs, Contract(registry[last.address], last.address), k);
    } else {
      CanonicalHasParsed(front, registry, k);
      var a :| a in registry && Values(Parsed(front, Contract(registry[a], a)), k) != [];
      ParsedGrows(front, last, Contract(registry[a], a), k);
    }
  }

  lemma NoCanonical(registry: Registry, k: Key)
    ensures Values(Canonical([], registry), k) == []
  {
  }

  lemma LastIsParsed(logs: seq<Located>, c: Contract, k: Key)
    requires logs != [] && logs[|logs| - 1].address == c.address && Expected(c.kind, logs[|logs| - 1].event)
    requires WriteOf(logs[|logs| - 1]).key == k
    ensures Values(Parsed(logs, c), k) != []
  {
    ValuesConcat(Parsed(logs[..|logs| - 1], c), [WriteOf(logs[|logs| - 1])], k);
  }

  lemma ParsedGrows(front: seq<Located>, last: Located, c: Contract, k: Key)
    requires Values(Parsed(front, c), k) != []
    ensures Values(Parsed(front + [last], c), k) != []
  {
    assert (front + [last])[..|front|] == front;
    if last.address == c.address && Expected(c.kind, last.event) {
      ValuesConcat(Parsed(front, c), [WriteOf(last)], k);
    }
  }

  lemma {:induction false} ContractContributes(logs: seq<Located>, order: seq<Contract>, c: Contract, k: Key)
    requires c in order && Values(Parsed(logs, c), k) != []
    ensures Values(RangeWrites(logs, order), k) != []
    decreases |order|
  {
    hide Parsed;
    var n := |order| - 1;
    RangeLast(logs, order, k);
    if order[n] != c {
      ContractContributes(logs, order[..n], c, k);
    }
  }

  /** A range writes a key exactly when it has a canonical event for it. */
  lemma RangeWritesKey(logs: seq<Located>, registry: Registry, k: Key, order: seq<Contract>)
    requires Lists(order, registry)
    ensures Values(RangeWrites(logs, order), k) == [] <==> Values(Canonical(logs, registry), k) == []
  {
    var ws, cs := Values(RangeWrites(logs, order), k), Values(Canonical(logs, registry), k);
    if ws != [] {
      RangeMembers(logs, registry, k, order, ws[0]);
    }
    if cs != [] {
      CanonicalHasParsed(logs, registry, k);
      var a :| a in registry && Values(Parsed(logs, Contract(registry[a], a)), k) != [];
      ContractContributes(logs, order, Contract(registry[a], a), k);
    }
  }

  function ContractOf(r: Record): Address {
    match r
    case IndividualRecord(entry) => entry.contract
    case BatchRecord(anchor) => anchor.contract
  }

  lemma {:induction false} ParsedOfContract(logs: seq<Located>, c: Contract, k: Key)
    ensures forall r :: r in Values(Parsed(logs, c), k) ==> ContractOf(r) == c.address
    decreases |logs|
  {
    if logs != [] {
      var front, last := logs[..|logs| - 1], logs[|logs| - 1];
      ParsedOfContract(front, c, k);
      if last.address == c.address && Expected(c.kind, last.event) {
        ValuesConcat(Parsed(front, c), [WriteOf(last)], k);
      }
    }
  }

  /** The contract of the last canonical event parses that event last. */
  lemma {:induction false} LastOfContract(logs: seq<Located>, registry: Registry, k: Key, c: Contract)
    requires c.address in registry && registry[c.address] == c.kind
    requires Values(Canonical(logs, registry), k) != []
    requires ContractOf(Last(Values(Canonical(logs, registry), k)).value) == c.address
    ensures Last(Values(Parsed(logs, c), k)) == Last(Values(Canonical(logs, registry), k))
    decreases |logs|
  {
    var front, last := logs[..|logs| - 1], logs[|logs| - 1];
    if Relevant(registry, last) {
      ValuesConcat(Canonical(front, registry), [WriteOf(last)], k);
    }
    if last.address == c.address && Expected(c.kind, last.event) {
      ValuesConcat(Parsed(front, c), [WriteOf(last)], k);
    }
    if !(Relevant(registry, last) && WriteOf(last).key == k) {
      LastOfContract(front, registry, k, c);
    }
  }

  /** In contract order, the last contract of the range that writes the key. */
  predicate LastWriter(logs: seq<Located>, order: seq<Contract>, k: Key, i: nat) {
    && i < |order| && Values(Parsed(logs, order[i]), k) != []
    && forall j :: i < j < |order| ==> Values(Parsed(logs, order[j]), k) == []
  }

  lemma {:induction false} LastWriterDecides(logs: seq<Located>, order: seq<Contract>, k: Key, i: nat)
    requires LastWriter(logs, order, k, i)
    ensures Last(Values(RangeWrites(logs, order), k)) == Last(Values(Parsed(logs, order[i]), k))
    decreases |order|
  {
    hide Parsed, Values, RangeWrites;
    var n := |order| - 1;
    RangeLast(logs, order, k);
    if i < n {
      LastWriterDecides(logs, order[..n], k, i);
    }
  }

  /**
   With several writers a range stores the key's last canonical event exactly
   when that event's contract is, in contract order, the last one of the range
   to write the key.
   */
  lemma RangeAgreesIff(logs: seq<Located>, registry: Registry, k: Key, order: seq<Contract>, i: nat)
    requires Lists(order, registry) && LastWriter(logs, order, k, i)
    ensures Values(Canonical(logs, registry), k) != []
    ensures Last(Values(RangeWrites(logs, order), k)) == Last(Values(Canonical(logs, registry), k))
            <==> ContractOf(Last(Values(Canonical(logs, registry), k)).value) == order[i].address
  {
    hide Values, Parsed, Canonical, RangeWrites;
    LastWriterDecides(logs, order, k, i);
    RangeWritesKey(logs, registry, k, order);
    ParsedOfContract(logs, order[i], k);
    var last := Values(Parsed(logs, order[i]), k);
    assert last[|last| - 1] in last;
    if ContractOf(Last(Values(Canonical(logs, registry), k)).value) == order[i].address {
      LastOfContract(logs, registry, k, order[i]);
    }
  }

  // -------------------------------------------------------------------------
  // The stored state against the chain it was indexed from
  // -------------------------------------------------------------------------

  /** Checkpoints cover start..end-1 without gaps, each ending at its own number. */
  predicate Tiles(cps: seq<Checkpoint>, start: nat, end: nat) {
    if cps == [] then end == start
    else
      var last := cps[|cps| - 1];
      && start <= last.fromBlock <= last.toBlock && last.number == last.toBlock && end == last.toBlock + 1
      && Tiles(cps[..|cps| - 1], start, last.fromBlock)
  }

  ghost predicate OnChain(cps: seq<Checkpoint>, chain: Chain) {
    forall i :: 0 <= i < |cps| ==> cps[i].number < |chain| && chain[cps[i].number].hash == cps[i].hash
  }

  /**
   A key is absent exactly when no canonical event writes it, otherwise holds a
   canonical event, and the last one if a single contract writes it.
   */
  ghost predicate KeyAgrees(st: State, chain: Chain, start: nat, registry: Registry, k: Key) {
    var events := EventsFor(chain, start, st.nextBlock, registry, k);
    && (At(st, k).None? <==> events == [])
    && (At(st, k).Some? ==> At(st, k).value in events)
    && (forall a :: WrittenBy(LogsOf(chain, start, st.nextBlock), registry, k, a) ==> At(st, k) == Last(events))
  }

  ghost predicate Indexed(st: State, chain: Chain, start: nat, registry: Registry) {
    && Tiles(st.checkpoints, start, st.nextBlock)
    && OnChain(st.checkpoints, chain)
    && (forall k :: KeyAgrees(st, chain, start, registry, k))
  }

  lemma FreshIndexed(chain: Chain, start: nat, registry: Registry)
    ensures Indexed(Fresh(start), chain, start, registry)
  {
  }

  lemma {:induction false} TilesBounds(cps: seq<Checkpoint>, start: nat, end: nat)
    requires Tiles(cps, start, end)
    ensures start <= end
    ensures forall i :: 0 <= i < |cps| ==> start <= cps[i].number < end
    ensures cps != [] ==> end == cps[|cps| - 1].number + 1
    decreases |cps|
  {
    if cps != [] {
      TilesBounds(cps[..|cps| - 1], start, cps[|cps| - 1].fromBlock);
    }
  }

  lemma WrittenBySplit(a: seq<Located>, b: seq<Located>, registry: Registry, k: Key, w: Address)
    requires WrittenBy(a + b, registry, k, w)
    ensures WrittenBy(a, registry, k, w) && WrittenBy(b, registry, k, w)
  {
    forall i | 0 <= i < |a| && Relevant(registry, a[i]) && WriteOf(a[i]).key == k
      ensures a[i].address == w
    {
      assert (a + b)[i] == a[i];
    }
    forall i | 0 <= i < |b| && Relevant(registry, b[i]) && WriteOf(b[i]).key == k
      ensures b[i].address == w
    {
      assert (a + b)[|a| + i] == b[i];
    }
  }

  lemma ScanRangeWrites(st: State, view: Chain, plan: Plan, k: Key) returns (rs: seq<Record>)
    requires Scannable(st, view, plan)
    ensures rs == Values(RangeWrites(LogsOf(view, st.nextBlock, RangeEnd(plan, st.nextBlock)), plan.order), k)
    ensures At(ScanRange(st, view, plan), k) == if rs == [] then At(st, k) else Last(rs)
  {
    hide Values, RangeWrites, LogsOf, PutAll;
    var ws := RangeWrites(LogsOf(view, st.nextBlock, RangeEnd(plan, st.nextBlock)), plan.order);
    rs := Values(ws, k);
    AtPutAll(st, ws, k);
    assert At(ScanRange(st, view, plan), k) == At(PutAll(st, ws), k);
  }

  lemma ScanRangeKey(st: State, view: Chain, plan: Plan, start: nat, registry: Registry, k: Key)
    requires Scannable(st, view, plan) && start <= st.nextBlock && Lists(plan.order, registry)
    requires KeyAgrees(st, view, start, registry, k)
    ensures KeyAgrees(ScanRange(st, view, plan), view, start, registry, k)
  {
    hide Values, RangeWrites, LogsOf, Canonical, PutAll, WrittenBy, At, Bound;
    var next, end := st.nextBlock, RangeEnd(plan, st.nextBlock);
    var logs := LogsOf(view, next, end);
    var st' := ScanRange(st, view, plan);
    var rs := ScanRangeWrites(st, view, plan, k);
    EventsSplit(view, start, next, end, registry, k);
    RangeWritesKey(logs, registry, k, plan.order);
    if rs != [] {
      RangeMembers(logs, registry, k, plan.order, rs[|rs| - 1]);
    }
    forall a | WrittenBy(LogsOf(view, start, end), registry, k, a)
      ensures At(st', k) == Last(EventsFor(view, start, end, registry, k))
    {
      LogsSplit(view, start, next, end);
      WrittenBySplit(LogsOf(view, start, next), logs, registry, k, a);
      RangeOrder(logs, registry, k, a, plan.order);
    }
  }

  lemma ScanRangeIndexed(st: State, view: Chain, plan: Plan, start: nat, registry: Registry)
    requires Scannable(st, view, plan) && Lists(plan.order, registry)
    requires Indexed(st, view, start, registry)
    ensures Indexed(ScanRange(st, view, plan), view, start, registry)
  {
    hide PutAll, RangeWrites, LogsOf, KeyAgrees, Lists;
    var st' := ScanRange(st, view, plan);
    TilesBounds(st.checkpoints, start, st.nextBlock);
    assert st'.checkpoints[..|st'.checkpoints| - 1] == st.checkpoints;
    forall k ensures KeyAgrees(st', view, start, registry, k) {
      ScanRangeKey(st, view, plan, start, registry, k);
    }
  }

  // -------------------------------------------------------------------------
  // Reorganisations between runs
  // -------------------------------------------------------------------------

  /** A block hash determines the block and all its ancestors. */
  ghost predicate Consistent(c: Chain, d: Chain) {
    forall i :: 0 <= i < |c| && i < |d| && c[i].hash == d[i].hash ==> c[..i + 1] == d[..i + 1]
  }

  lemma {:induction false} SameLogs(c: Chain, d: Chain, lo: nat, hi: nat)
    requires hi <= |c| && hi <= |d| && c[..hi] == d[..hi]
    ensures LogsOf(c, lo, hi) == LogsOf(d, lo, hi)
    decreases hi
  {
    if lo < hi {
      assert c[..hi][..hi - 1] == c[..hi - 1] && d[..hi][..hi - 1] == d[..hi - 1];
      assert c[..hi][hi - 1] == c[hi - 1] && d[..hi][hi - 1] == d[hi - 1];
      SameLogs(c, d, lo, hi - 1);
    }
  }

  /** Testing the newest checkpoint alone decides whether any indexed block is orphaned. */
  lemma NewestCheckpointDecides(st: State, c: Chain, d: Chain, start: nat, registry: Registry)
    requires Indexed(st, c, start, registry) && Consistent(c, d) && st.checkpoints != []
    ensures st.nextBlock <= |c|
    ensures !Reorged(st, d) <==> st.nextBlock <= |d| && forall i :: start <= i < st.nextBlock ==> d[i] == c[i]
    ensures !Reorged(st, d) ==> c[..st.nextBlock] == d[..st.nextBlock]
  {
    TilesBounds(st.checkpoints, start, st.nextBlock);
    var last := st.nextBlock - 1;
    if !Reorged(st, d) {
      forall i | start <= i < st.nextBlock ensures d[i] == c[i] {
        assert c[..last + 1][i] == c[i] && d[..last + 1][i] == d[i];
      }
    }
  }

  /** What was indexed from one chain is, after the rewind, indexed from the chain of the next run. */
  lemma RewoundIndexed(st: State, c: Chain, d: Chain, start: nat, registry: Registry)
    requires Indexed(st, c, start, registry) && Consistent(c, d)
    ensures Indexed(Rewound(st, start, d), d, start, registry)
  {
    if Reorged(st, d) || st.checkpoints == [] {
      FreshIndexed(d, start, registry);
      if st.checkpoints == [] {
        forall k ensures KeyAgrees(st, d, start, registry, k) {
          assert KeyAgrees(st, c, start, registry, k);
        }
      }
    } else {
      NewestCheckpointDecides(st, c, d, start, registry);
      SameLogs(c, d, start, st.nextBlock);
      TilesBounds(st.checkpoints, start, st.nextBlock);
      forall i | 0 <= i < |st.checkpoints|
        ensures st.checkpoints[i].number < |d| && d[st.checkpoints[i].number].hash == st.checkpoints[i].hash
      {
        assert c[..st.nextBlock][st.checkpoints[i].number] == d[..st.nextBlock][st.checkpoints[i].number];
      }
      forall k ensures KeyAgrees(st, d, start, registry, k) {
        assert KeyAgrees(st, c, start, registry, k);
      }
    }
  }

  lemma AttachKeeps(h: Hash, st: State, m: Manifest, k: Key)
    requires Attach(h, st, m).Ok?
    ensures var st' := Attach(h, st, m).value;
            At(st', k) == At(st, k) && st'.checkpoints == st.checkpoints && st'.nextBlock == st.nextBlock
  {
  }

  lemma {:induction false} AttachAllKeeps(h: Hash, st: State, ms: seq<Manifest>, k: Key)
    requires AttachAll(h, st, ms).Ok?
    ensures var st' := AttachAll(h, st, ms).value;
            At(st', k) == At(st, k) && st'.checkpoints == st.checkpoints && st'.nextBlock == st.nextBlock
    decreases |ms|
  {
    if ms != [] {
      var front := AttachAll(h, st, ms[..|ms| - 1]);
      AttachAllKeeps(h, st, ms[..|ms| - 1], k);
      if !(ValidateManifest(h, ms[|ms| - 1]).None? && ManifestKey(ms[|ms| - 1]) !in front.value.batches) {
        AttachKeeps(h, front.value, ms[|ms| - 1], k);
      }
    }
  }

  lemma AttachAllIndexed(h: Hash, st: State, ms: seq<Manifest>, chain: Chain, start: nat, registry: Registry)
    requires Indexed(st, chain, start, registry) && AttachAll(h, st, ms).Ok?
    ensures Indexed(AttachAll(h, st, ms).value, chain, start, registry)
    ensures AttachAll(h, st, ms).value.nextBlock == st.nextBlock
  {
    var st' := AttachAll(h, st, ms).value;
    AttachAllKeeps(h, st, ms, ReceiptKey(0));
    forall k ensures KeyAgrees(st', chain, start, registry, k) {
      AttachAllKeeps(h, st, ms, k);
      assert KeyAgrees(st, chain, start, registry, k);
    }
  }

  // -------------------------------------------------------------------------
  // Reorganisations inside a run: the guard that a range lacks
  // -------------------------------------------------------------------------

  lemma OnChainAppend(cps: seq<Checkpoint>, cp: Checkpoint, chain: Chain)
    ensures OnChain(cps + [cp], chain) <==> OnChain(cps, chain) && OnChain([cp], chain)
  {
    var all := cps + [cp];
    if OnChain(all, chain) {
      assert forall i :: 0 <= i < |cps| ==> all[i] == cps[i];
      assert all[|cps|] == cp;
    }
  }

  /** Checkpoints whose newest lies on c lie on d exactly when they lie on c and the newest lies on d. */
  lemma OnChainMoves(st: State, c: Chain, d: Chain, start: nat)
    requires Tiles(st.checkpoints, start, st.nextBlock) && Consistent(c, d) && !Reorged(st, c)
    ensures OnChain(st.checkpoints, d) <==> OnChain(st.checkpoints, c) && !Reorged(st, d)
  {
    if st.checkpoints != [] && !Reorged(st, d) {
      TilesBounds(st.checkpoints, start, st.nextBlock);
      var n := st.nextBlock;
      assert c[..n] == d[..n];
      forall i | 0 <= i < |st.checkpoints|
        ensures st.checkpoints[i].number < |c| && st.checkpoints[i].number < |d|
        ensures c[st.checkpoints[i].number] == d[st.checkpoints[i].number]
      {
        assert c[..n][st.checkpoints[i].number] == d[..n][st.checkpoints[i].number];
      }
    }
  }

  /** The newest checkpoint lies on c, and if all the others do the index is the one of c. */
  ghost predicate Accurate(st: State, c: Chain, start: nat, registry: Registry) {
    && Tiles(st.checkpoints, start, st.nextBlock)
    && !Reorged(st, c)
    && (OnChain(st.checkpoints, c) ==> Indexed(st, c, start, registry))
  }

  lemma FreshAccurate(c: Chain, start: nat, registry: Registry)
    ensures Accurate(Fresh(start), c, start, registry) && OnChain(Fresh(start).checkpoints, c)
  {
    FreshIndexed(c, start, registry);
  }

  lemma MovedAccurate(st: State, c: Chain, d: Chain, start: nat, registry: Registry)
    requires Accurate(st, c, start, registry) && Consistent(c, d) && !Reorged(st, d)
    ensures Accurate(st, d, start, registry)
    ensures OnChain(st.checkpoints, d) <==> OnChain(st.checkpoints, c)
  {
    hide Indexed, OnChain, Tiles;
    OnChainMoves(st, c, d, start);
    if OnChain(st.checkpoints, d) {
      RewoundIndexed(st, c, d, start, registry);
    }
  }

  /** What one range does to the checkpoints, on any view. */
  lemma ScanRangeCheckpoints(st: State, view: Chain, plan: Plan, start: nat)
    requires Scannable(st, view, plan) && Tiles(st.checkpoints, start, st.nextBlock)
    ensures var st' := ScanRange(st, view, plan);
            && Tiles(st'.checkpoints, start, st'.nextBlock) && !Reorged(st', view)
            && (OnChain(st'.checkpoints, view) <==> OnChain(st.checkpoints, view))
  {
    hide PutAll, RangeWrites, LogsOf;
    var st' := ScanRange(st, view, plan);
    var end := st'.nextBlock;
    TilesBounds(st.checkpoints, start, st.nextBlock);
    assert st'.checkpoints[..|st'.checkpoints| - 1] == st.checkpoints;
    OnChainAppend(st.checkpoints, Checkpoint(st.nextBlock, end - 1, end - 1, view[end - 1].hash), view);
  }

  lemma ScanRangeAccurate(st: State, c: Chain, view: Chain, plan: Plan, start: nat, registry: Registry)
    requires Scannable(st, view, plan) && Lists(plan.order, registry)
    requires Accurate(st, c, start, registry) && Consistent(c, view)
    ensures Accurate(ScanRange(st, view, plan), view, start, registry)
    ensures OnChain(ScanRange(st, view, plan).checkpoints, view) <==> OnChain(st.checkpoints, c) && !Reorged(st, view)
  {
    hide Indexed, OnChain, Tiles, ScanRange, Lists, Reorged;
    ScanRangeCheckpoints(st, view, plan, start);
    OnChainMoves(st, c, view, start);
    if OnChain(st.checkpoints, view) {
      MovedAccurate(st, c, view, start, registry);
      ScanRangeIndexed(st, view, plan, start, registry);
    }
  }

  lemma IndexedAccurate(st: State, c: Chain, start: nat, registry: Registry)
    requires Indexed(st, c, start, registry)
    ensures Accurate(st, c, start, registry) && OnChain(st.checkpoints, c)
  {
  }

  lemma AccurateIndexed(st: State, c: Chain, start: nat, registry: Registry)
    requires Accurate(st, c, start, registry)
    ensures Indexed(st, c, start, registry) <==> OnChain(st.checkpoints, c)
  {
    hide KeyAgrees;
  }

  /**
   One range after an index of c, read on another view: the result is an index of
   that view exactly when the newest checkpoint lies on it.
   */
  lemma RangeIndexedIff(st: State, c: Chain, view: Chain, plan: Plan, start: nat, registry: Registry)
    requires Scannable(st, view, plan) && Lists(plan.order, registry)
    requires Indexed(st, c, start, registry) && Consistent(c, view)
    ensures Indexed(ScanRange(st, view, plan), view, start, registry) <==> !Reorged(st, view)
  {
    hide Indexed, OnChain, ScanRange, Lists, Reorged, Accurate;
    IndexedAccurate(st, c, start, registry);
    ScanRangeAccurate(st, c, view, plan, start, registry);
    AccurateIndexed(ScanRange(st, view, plan), view, start, registry);
  }

  /** Each range of a scan starts on a view on which the newest checkpoint lies. */
  predicate Linked(st: State, views: seq<Chain>, plan: Plan)
    decreases |views|
  {
    views == [] || !Scannable(st, views[0], plan)
    || (!Reorged(st, views[0]) && Linked(ScanRange(st, views[0], plan), views[1..], plan))
  }

  /** Views of one block tree: equal hashes mean equal histories. */
  ghost predicate Tree(tree: set<Chain>) {
    forall c, d :: c in tree && d in tree ==> Consistent(c, d)
  }

  predicate ViewsOf(views: seq<Chain>, tree: set<Chain>) {
    forall i :: 0 <= i < |views| ==> views[i] in tree
  }

  lemma {:induction false} ScanViewsAccurate(st: State, c: Chain, views: seq<Chain>, plan: Plan, start: nat, registry: Registry,
                                             tree: set<Chain>)
    requires Lists(plan.order, registry) && Tree(tree) && c in tree && ViewsOf(views, tree)
    requires Accurate(st, c, start, registry)
    ensures var st', d := ScanViews(st, views, plan), LastView(st, c, views, plan);
            && d in tree && Accurate(st', d, start, registry)
            && (OnChain(st'.checkpoints, d) <==> OnChain(st.checkpoints, c) && Linked(st, views, plan))
    decreases |views|
  {
    hide Accurate, OnChain, Lists, ScanRange, Reorged, Scannable, Consistent;
    if views != [] && Scannable(st, views[0], plan) {
      assert forall i :: 0 <= i < |views| - 1 ==> views[1..][i] == views[i + 1];
      ScanRangeAccurate(st, c, views[0], plan, start, registry);
      ScanViewsAccurate(ScanRange(st, views[0], plan), views[0], views[1..], plan, start, registry, tree);
    }
  }

  /**
   A whole scan after an index of c, with a view of its own for each range: the
   result is an index of the last view exactly when every range was linked.
   */
  lemma ScanIndexedIff(st: State, c: Chain, views: seq<Chain>, plan: Plan, start: nat, registry: Registry, tree: set<Chain>)
    requires Lists(plan.order, registry) && Tree(tree) && c in tree && ViewsOf(views, tree)
    requires Indexed(st, c, start, registry)
    ensures Indexed(ScanViews(st, views, plan), LastView(st, c, views, plan), start, registry) <==> Linked(st, views, plan)
  {
    hide Indexed, OnChain, Accurate, Lists, Linked, ScanViews, LastView, Tree, ViewsOf;
    IndexedAccurate(st, c, start, registry);
    ScanViewsAccurate(st, c, views, plan, start, registry, tree);
    AccurateIndexed(ScanViews(st, views, plan), LastView(st, c, views, plan), start, registry);
  }

  // -------------------------------------------------------------------------
  // Histories of runs
  // -------------------------------------------------------------------------

  /** Runs of one deployment: listed contracts, and views of one block tree. */
  ghost predicate Deployment(runs: seq<Run>, registry: Registry, tree: set<Chain>) {
    && Tree(tree) && [] in tree
    && forall i :: 0 <= i < |runs| ==>
         Lists(runs[i].plan.order, registry) && runs[i].rewind in tree && ViewsOf(runs[i].views, tree)
  }

  /** The view that the state file was last checked against or extended from. */
  function Seen(h: Hash, start: nat, runs: seq<Run>): Chain {
    if runs == [] then []
    else
      var front, last := runs[..|runs| - 1], runs[|runs| - 1];
      if last.stop.BeforeRewind? then Seen(h, start, front)
      else LastView(Rewound(History(h, start, front), start, last.rewind), last.rewind, last.views, last.plan)
  }

  /** Every range since the last rebuild was linked to the checkpoint before it. */
  predicate LinkedHistory(h: Hash, start: nat, runs: seq<Run>) {
    runs == [] ||
    (var front, last := runs[..|runs| - 1], runs[|runs| - 1];
     var st := History(h, start, front);
     if last.stop.BeforeRewind? then LinkedHistory(h, start, front)
     else (Reorged(st, last.rewind) || LinkedHistory(h, start, front))
          && Linked(Rewound(st, start, last.rewind), last.views, last.plan))
  }

  lemma AfterRunKeepsScan(h: Hash, start: nat, st: State, run: Run, d: Chain, registry: Registry)
    requires !run.stop.BeforeRewind? && Accurate(Scanned(start, st, run), d, start, registry)
    ensures Accurate(AfterRun(h, start, st, run), d, start, registry)
    ensures AfterRun(h, start, st, run).checkpoints == Scanned(start, st, run).checkpoints
    ensures AfterRun(h, start, st, run).nextBlock == Scanned(start, st, run).nextBlock
  {
    hide Indexed, OnChain, Tiles, ScanViews, Rewound;
    var scanned := Scanned(start, st, run);
    if ReachesHead(start, st, run) && AttachAll(h, scanned, run.manifests).Ok? {
      AttachAllKeeps(h, scanned, run.manifests, ReceiptKey(0));
      if OnChain(scanned.checkpoints, d) {
        AttachAllIndexed(h, scanned, run.manifests, d, start, registry);
      }
    }
  }

  /** One run that gets past its reorganisation check. */
  lemma RunAccurate(h: Hash, start: nat, st: State, run: Run, c: Chain, registry: Registry, tree: set<Chain>)
    requires !run.stop.BeforeRewind? && Lists(run.plan.order, registry)
    requires Tree(tree) && c in tree && run.rewind in tree && ViewsOf(run.views, tree)
    requires Accurate(st, c, start, registry)
    ensures var rewound := Rewound(st, start, run.rewind);
            var d := LastView(rewound, run.rewind, run.views, run.plan);
            && d in tree && Accurate(AfterRun(h, start, st, run), d, start, registry)
            && (OnChain(AfterRun(h, start, st, run).checkpoints, d) <==>
                  (Reorged(st, run.rewind) || OnChain(st.checkpoints, c)) && Linked(rewound, run.views, run.plan))
  {
    hide Accurate, OnChain, Linked, LastView, Lists, ViewsOf, AfterRun, Reorged, Consistent, ScanViews;
    var rewound := Rewound(st, start, run.rewind);
    if Reorged(st, run.rewind) {
      FreshAccurate(run.rewind, start, registry);
    } else {
      MovedAccurate(st, c, run.rewind, start, registry);
    }
    ScanViewsAccurate(rewound, run.rewind, run.views, run.plan, start, registry, tree);
    AfterRunKeepsScan(h, start, st, run, LastView(rewound, run.rewind, run.views, run.plan), registry);
  }

  lemma {:induction false} HistoryAccurate(h: Hash, start: nat, runs: seq<Run>, registry: Registry, tree: set<Chain>)
    requires Deployment(runs, registry, tree)
    ensures var st, c := History(h, start, runs), Seen(h, start, runs);
            && c in tree && Accurate(st, c, start, registry)
            && (OnChain(st.checkpoints, c) <==> LinkedHistory(h, start, runs))
    decreases |runs|
  {
    hide Accurate, OnChain, Linked, LastView, Lists, ViewsOf, AfterRun, Reorged, Tree, Rewound;
    if runs == [] {
      FreshAccurate([], start, registry);
    } else {
      var n := |runs| - 1;
      HistoryAccurate(h, start, runs[..n], registry, tree);
      if runs[n].stop.BeforeRewind? {
        NothingWritten(h, start, History(h, start, runs[..n]), runs[n]);
      } else {
        RunAccurate(h, start, History(h, start, runs[..n]), runs[n], Seen(h, start, runs[..n]), registry, tree);
      }
    }
  }

  lemma NothingWritten(h: Hash, start: nat, st: State, run: Run)
    requires run.stop.BeforeRewind?
    ensures AfterRun(h, start, st, run) == st
  {
  }

  /**
   After any history of runs, whatever views their ranges saw and however they
   ended: the checkpoints tile the indexed blocks, and the file is an index of the
   view seen last exactly when every range since the last rebuild was linked.
   */
  lemma HistoryIndexedIff(h: Hash, start: nat, runs: seq<Run>, registry: Registry, tree: set<Chain>)
    requires Deployment(runs, registry, tree)
    ensures Tiles(History(h, start, runs).checkpoints, start, History(h, start, runs).nextBlock)
    ensures Indexed(History(h, start, runs), Seen(h, start, runs), start, registry) <==> LinkedHistory(h, start, runs)
    ensures Indexed(History(h, start, runs), Seen(h, start, runs), start, registry)
            <==> OnChain(History(h, start, runs).checkpoints, Seen(h, start, runs))
  {
    hide Indexed, OnChain, LinkedHistory, Tiles, Reorged, History, Seen, Deployment;
    HistoryAccurate(h, start, runs, registry, tree);
    AccurateIndexed(History(h, start, runs), Seen(h, start, runs), start, registry);
  }

  /**
   The index equals a naive replay of the view seen last. Whenever every range was
   linked, a key is absent exactly when the indexed blocks have no event for it,
   never holds an orphan, and holds the last event when one contract writes it. A
   run that got to its head has indexed all blocks up to it.
   */
  lemma SyncAgreesWithReplay(h: Hash, start: nat, runs: seq<Run>, registry: Registry, tree: set<Chain>, k: Key)
    requires Deployment(runs, registry, tree) && LinkedHistory(h, start, runs)
    ensures var st, c := History(h, start, runs), Seen(h, start, runs);
            var events := EventsFor(c, start, st.nextBlock, registry, k);
            && (At(st, k).None? <==> events == [])
            && (At(st, k).Some? ==> At(st, k).value in events)
            && (forall a :: WrittenBy(LogsOf(c, start, st.nextBlock), registry, k, a) ==> At(st, k) == Last(events))
    ensures runs != [] && ReachesHead(start, History(h, start, runs[..|runs| - 1]), runs[|runs| - 1]) ==>
              History(h, start, runs).nextBlock >= runs[|runs| - 1].plan.head
  {
    hide LinkedHistory, Deployment, Seen, OnChain, Tiles, WrittenBy, Canonical, Values, LogsOf;
    HistoryIndexedIff(h, start, runs, registry, tree);
    assert KeyAgrees(History(h, start, runs), Seen(h, start, runs), start, registry, k);
    if runs != [] && ReachesHead(start, History(h, start, runs[..|runs| - 1]), runs[|runs| - 1]) {
      ReachedHead(h, start, History(h, start, runs[..|runs| - 1]), runs[|runs| - 1]);
    }
  }

  // -------------------------------------------------------------------------
  // The index in terms of the chain's logs
  // -------------------------------------------------------------------------

  /** The kind of contract whose events of this kind are indexed. */
  function KindFor(event: Event): Option<Kind> {
    match event
    case ReceiptAnchored(_, _, _, _, _) => Some(IndividualKind)
    case AuthorisedReceiptAnchored(_, _, _, _, _, _, _) => Some(AuthorisedKind)
    case ReceiptBatchAnchored(_, _, _, _, _) => Some(BatchKind)
    case ReceiptBatchAnchoredV2(_, _, _, _, _, _) => Some(BatchKind)
    case OtherEvent => None
  }

  /** An event of the kind for which its contract is listed. */
  predicate Announced(registry: Registry, log: Located) {
    log.address in registry && KindFor(log.event) == Some(registry[log.address])
  }

  /** The chain has the log at the log's position. */
  predicate EmittedOn(chain: Chain, log: Located) {
    && log.position.blockNumber < |chain| && chain[log.position.blockNumber].hash == log.position.blockHash
    && Log(log.address, log.event, log.position.transactionHash, log.position.logIndex) in chain[log.position.blockNumber].logs
  }

  /** The newest announced log for a key. */
  function NewestLog(logs: seq<Located>, registry: Registry, k: Key): Option<Located> {
    if logs == [] then None
    else
      var last := logs[|logs| - 1];
      if Announced(registry, last) && EventKey(last.event) == k then Some(last)
      else NewestLog(logs[..|logs| - 1], registry, k)
  }

  lemma AnnouncedIs(registry: Registry, log: Located)
    ensures Announced(registry, log) <==> Relevant(registry, log)
  {
  }

  lemma InBlock(number: nat, block: Block, log: Located)
    ensures log in BlockLogs(number, block.hash, block.logs) <==>
            && log.position.blockNumber == number && log.position.blockHash == block.hash
            && Log(log.address, log.event, log.position.transactionHash, log.position.logIndex) in block.logs
  {
    var located := BlockLogs(number, block.hash, block.logs);
    var l := Log(log.address, log.event, log.position.transactionHash, log.position.logIndex);
    if log.position.blockNumber == number && log.position.blockHash == block.hash && l in block.logs {
      var i :| 0 <= i < |block.logs| && block.logs[i] == l;
      assert located[i] == log;
    }
    if log in located {
      var i :| 0 <= i < |located| && located[i] == log;
      assert block.logs[i] == l;
    }
  }

  lemma {:induction false} InLogs(chain: Chain, lo: nat, hi: nat, log: Located)
    ensures log in LogsOf(chain, lo, hi) <==> lo <= log.position.blockNumber < hi && EmittedOn(chain, log)
    decreases hi
  {
    if lo < hi {
      hide BlockLogs;
      InLogs(chain, lo, hi - 1, log);
      if hi - 1 < |chain| {
        InBlock(hi - 1, chain[hi - 1], log);
      }
    }
  }

  /** The records give announced logs of the key back, the last record the newest log. */
  ghost predicate Decodes(rs: seq<Record>, logs: seq<Located>, registry: Registry, k: Key) {
    && (forall r :: r in rs ==> LogOf(r) in logs && Announced(registry, LogOf(r)) && EventKey(LogOf(r).event) == k)
    && (rs == [] <==> NewestLog(logs, registry, k).None?)
    && (rs != [] ==> NewestLog(logs, registry, k) == Some(LogOf(rs[|rs| - 1])))
  }

  /** One more log, which is stored for the key or is not. */
  lemma DecodesSnoc(rs: seq<Record>, front: seq<Located>, last: Located, registry: Registry, k: Key)
    requires Decodes(rs, front, registry, k)
    ensures Announced(registry, last) && EventKey(last.event) == k ==>
              Decodes(rs + [WriteOf(last).record], front + [last], registry, k)
    ensures !(Announced(registry, last) && EventKey(last.event) == k) ==> Decodes(rs, front + [last], registry, k)
  {
    hide WriteOf, EventOf, LogOf, EventKey;
    var logs := front + [last];
    assert logs[..|front|] == front;
    assert forall l :: l in front ==> l in logs;
    if Announced(registry, last) && EventKey(last.event) == k {
      WriteDecodes(last);
      var all := rs + [WriteOf(last).record];
      assert forall r :: r in all <==> r in rs || r == WriteOf(last).record;
      assert logs[|front|] == last;
    }
  }

  lemma {:induction false} ValuesDecode(logs: seq<Located>, registry: Registry, k: Key)
    ensures Decodes(Values(Canonical(logs, registry), k), logs, registry, k)
    decreases |logs|
  {
    if logs != [] {
      hide Decodes, Values, Canonical, Announced, Relevant, WriteOf, EventKey;
      var front, last := logs[..|logs| - 1], logs[|logs| - 1];
      assert front + [last] == logs;
      ValuesDecode(front, registry, k);
      CanonicalSnoc(front, last, registry, k);
      DecodesSnoc(Values(Canonical(front, registry), k), front, last, registry, k);
      AnnouncedIs(registry, last);
      if Relevant(registry, last) {
        RelevantEvent(registry, last);
        WriteDecodes(last);
      }
      assert Values(Canonical(front, registry), k) + [] == Values(Canonical(front, registry), k);
    } else {
      NothingDecodes(registry, k);
    }
  }

  lemma NothingDecodes(registry: Registry, k: Key)
    ensures Decodes(Values(Canonical([], registry), k), [], registry, k)
  {
  }

  lemma RelevantEvent(registry: Registry, log: Located)
    requires Relevant(registry, log)
    ensures !log.event.OtherEvent?
  {
  }

  lemma {:induction false} NewestExists(logs: seq<Located>, registry: Registry, log: Located)
    requires log in logs && Announced(registry, log)
    ensures NewestLog(logs, registry, EventKey(log.event)).Some?
    decreases |logs|
  {
    var n := |logs| - 1;
    if !(Announced(registry, logs[n]) && EventKey(logs[n].event) == EventKey(log.event)) {
      NewestExists(logs[..n], registry, log);
    }
  }

  /**
   When the ranges were linked: every entry gives back an announced event of the
   chain at its position among the indexed blocks, and a key with one writer the
   newest of them.
   */
  lemma EntriesAreEvents(h: Hash, start: nat, runs: seq<Run>, registry: Registry, tree: set<Chain>, k: Key)
    requires Deployment(runs, registry, tree) && LinkedHistory(h, start, runs)
    ensures var st, c := History(h, start, runs), Seen(h, start, runs);
            && (At(st, k).Some? ==>
                  var log := LogOf(At(st, k).value);
                  && start <= log.position.blockNumber < st.nextBlock && EmittedOn(c, log)
                  && Announced(registry, log) && EventKey(log.event) == k)
            && (forall a :: WrittenBy(LogsOf(c, start, st.nextBlock), registry, k, a) ==>
                  NewestLog(LogsOf(c, start, st.nextBlock), registry, k)
                  == match At(st, k) case None => None case Some(r) => Some(LogOf(r)))
  {
    hide LinkedHistory, Deployment, Seen, WrittenBy, Canonical, Values, LogsOf, LogOf, EmittedOn, Announced, EventKey, NewestLog;
    var st, c := History(h, start, runs), Seen(h, start, runs);
    SyncAgreesWithReplay(h, start, runs, registry, tree, k);
    ValuesDecode(LogsOf(c, start, st.nextBlock), registry, k);
    if At(st, k).Some? {
      InLogs(c, start, st.nextBlock, LogOf(At(st, k).value));
    }
  }

  /** And every announced event of the indexed blocks has an entry under its key. */
  lemma EventsHaveEntries(h: Hash, start: nat, runs: seq<Run>, registry: Registry, tree: set<Chain>, log: Located)
    requires Deployment(runs, registry, tree) && LinkedHistory(h, start, runs)
    requires start <= log.position.blockNumber < History(h, start, runs).nextBlock
    requires EmittedOn(Seen(h, start, runs), log) && Announced(registry, log)
    ensures At(History(h, start, runs), EventKey(log.event)).Some?
  {
    hide LinkedHistory, Deployment, Seen, Canonical, Values, LogsOf, EmittedOn, EventKey, NewestLog;
    var st, c := History(h, start, runs), Seen(h, start, runs);
    InLogs(c, start, st.nextBlock, log);
    NewestExists(LogsOf(c, start, st.nextBlock), registry, log);
    SyncAgreesWithReplay(h, start, runs, registry, tree, EventKey(log.event));
    ValuesDecode(LogsOf(c, start, st.nextBlock), registry, EventKey(log.event));
  }

  lemma ReachedHead(h: Hash, start: nat, st: State, run: Run)
    requires ReachesHead(start, st, run)
    ensures AfterRun(h, start, st, run).nextBlock >= run.plan.head
  {
    if AttachAll(h, Scanned(start, st, run), run.manifests).Ok? {
      AttachAllKeeps(h, Scanned(start, st, run), run.manifests, ReceiptKey(0));
    }
  }

  // -------------------------------------------------------------------------
  // A chain that does not change during a run
  // -------------------------------------------------------------------------

  /** All views of a run are the same chain, and its head is the chain's. */
  predicate Fixed(run: Run) {
    run.plan.head == |run.rewind| && forall i :: 0 <= i < |run.views| ==> run.views[i] == run.rewind
  }

  lemma {:induction false} FixedLinked(st: State, chain: Chain, views: seq<Chain>, plan: Plan, start: nat)
    requires forall i :: 0 <= i < |views| ==> views[i] == chain
    requires !Reorged(st, chain) && Tiles(st.checkpoints, start, st.nextBlock)
    ensures Linked(st, views, plan) && LastView(st, chain, views, plan) == chain
    decreases |views|
  {
    hide Tiles, Reorged, ScanRange, Scannable;
    if views != [] && Scannable(st, views[0], plan) {
      assert forall i :: 0 <= i < |views| - 1 ==> views[1..][i] == views[i + 1];
      ScanRangeCheckpoints(st, chain, plan, start);
      FixedLinked(ScanRange(st, chain, plan), chain, views[1..], plan, start);
    }
  }

  /** With a fixed chain in each run, whatever happens between runs, every range is linked. */
  lemma {:induction false} FixedChainsLinked(h: Hash, start: nat, runs: seq<Run>, registry: Registry, tree: set<Chain>)
    requires Deployment(runs, registry, tree) && forall i :: 0 <= i < |runs| ==> Fixed(runs[i])
    ensures LinkedHistory(h, start, runs)
    ensures runs != [] && !runs[|runs| - 1].stop.BeforeRewind? ==> Seen(h, start, runs) == runs[|runs| - 1].rewind
    decreases |runs|
  {
    hide Linked, LastView, Lists, AfterRun, OnChain, Indexed, Tree;
    if runs != [] {
      var n := |runs| - 1;
      FixedChainsLinked(h, start, runs[..n], registry, tree);
      HistoryAccurate(h, start, runs[..n], registry, tree);
      var st := History(h, start, runs[..n]);
      FixedLinked(Rewound(st, start, runs[n].rewind), runs[n].rewind, runs[n].views, runs[n].plan, start);
    }
  }

  lemma {:induction false} LogsPastHead(chain: Chain, lo: nat, hi: nat)
    requires hi >= |chain|
    ensures LogsOf(chain, lo, hi) == LogsOf(chain, lo, |chain|)
    decreases hi
  {
    if hi > |chain| && lo < hi {
      LogsPastHead(chain, lo, hi - 1);
    }
  }

  /** After a completing run on a fixed chain, the index equals a naive replay of that chain to its head. */
  lemma FixedChainAgrees(h: Hash, start: nat, runs: seq<Run>, registry: Registry, tree: set<Chain>, k: Key)
    requires Deployment(runs, registry, tree) && forall i :: 0 <= i < |runs| ==> Fixed(runs[i])
    requires runs != [] && ReachesHead(start, History(h, start, runs[..|runs| - 1]), runs[|runs| - 1])
    ensures var chain := runs[|runs| - 1].rewind;
            var events := EventsFor(chain, start, |chain|, registry, k);
            var held := At(History(h, start, runs), k);
            && (held.None? <==> events == [])
            && (held.Some? ==> held.value in events)
            && (forall a :: WrittenBy(LogsOf(chain, start, |chain|), registry, k, a) ==> held == Last(events))
  {
    hide LinkedHistory, Deployment, Seen, History, WrittenBy, Canonical, Values, LogsOf;
    FixedChainsLinked(h, start, runs, registry, tree);
    SyncAgreesWithReplay(h, start, runs, registry, tree, k);
    LogsPastHead(runs[|runs| - 1].rewind, start, History(h, start, runs).nextBlock);
  }

  // -------------------------------------------------------------------------
  // Which entry a key with several writers holds
  // -------------------------------------------------------------------------

  lemma NoOrder(logs: seq<Located>, k: Key)
    ensures Values(RangeWrites(logs, []), k) == []
  {
  }

  lemma {:induction false} LastWriterExists(logs: seq<Located>, order: seq<Contract>, k: Key) returns (i: nat)
    requires Values(RangeWrites(logs, order), k) != []
    ensures LastWriter(logs, order, k, i)
    decreases |order|
  {
    hide Parsed, Values;
    NoOrder(logs, k);
    var n := |order| - 1;
    RangeLast(logs, order, k);
    if Values(Parsed(logs, order[n]), k) != [] {
      i := n;
    } else {
      i := LastWriterExists(logs, order[..n], k);
    }
  }

  /** In contract order, the contract of the key's last event is the last to write the key. */
  ghost predicate LastEventWins(logs: seq<Located>, registry: Registry, order: seq<Contract>, k: Key)
    requires Values(Canonical(logs, registry), k) != []
  {
    exists i: nat :: LastWriter(logs, order, k, i)
                     && order[i].address == ContractOf(Last(Values(Canonical(logs, registry), k)).value)
  }

  lemma RangeAgrees(logs: seq<Located>, registry: Registry, order: seq<Contract>, k: Key)
    requires Lists(order, registry) && Values(Canonical(logs, registry), k) != []
    ensures Last(Values(RangeWrites(logs, order), k)) == Last(Values(Canonical(logs, registry), k))
            <==> LastEventWins(logs, registry, order, k)
  {
    hide Values, Parsed, Canonical, RangeWrites, Lists;
    RangeWritesKey(logs, registry, k, order);
    var i := LastWriterExists(logs, order, k);
    RangeAgreesIff(logs, registry, k, order, i);
    if LastEventWins(logs, registry, order, k) {
      var j: nat :| LastWriter(logs, order, k, j)
                    && order[j].address == ContractOf(Last(Values(Canonical(logs, registry), k)).value);
      RangeAgreesIff(logs, registry, k, order, j);
    }
  }

  function FreshEvents(st: State, view: Chain, plan: Plan, registry: Registry, k: Key): seq<Record> {
    EventsFor(view, st.nextBlock, RangeEnd(plan, st.nextBlock), registry, k)
  }

  /** Whether a key is up to date after one range, given whether it was before: only a range with an event for it decides. */
  ghost predicate CurrentAfter(st: State, view: Chain, plan: Plan, registry: Registry, k: Key, before: bool) {
    if FreshEvents(st, view, plan, registry, k) == [] then before
    else LastEventWins(LogsOf(view, st.nextBlock, RangeEnd(plan, st.nextBlock)), registry, plan.order, k)
  }

  /** One range and the stored entry: it is the last event of the view exactly when CurrentAfter says so. */
  lemma RangeEntryIff(st: State, view: Chain, plan: Plan, start: nat, registry: Registry, k: Key)
    requires Scannable(st, view, plan) && Lists(plan.order, registry) && start <= st.nextBlock
    ensures At(ScanRange(st, view, plan), k) == Last(EventsFor(view, start, RangeEnd(plan, st.nextBlock), registry, k))
            <==> CurrentAfter(st, view, plan, registry, k, At(st, k) == Last(EventsFor(view, start, st.nextBlock, registry, k)))
  {
    hide Values, RangeWrites, Canonical, LogsOf, At, Lists, LastEventWins;
    var end := RangeEnd(plan, st.nextBlock);
    var logs := LogsOf(view, st.nextBlock, end);
    var rs := ScanRangeWrites(st, view, plan, k);
    RangeWritesKey(logs, registry, k, plan.order);
    EventsSplit(view, start, st.nextBlock, end, registry, k);
    if FreshEvents(st, view, plan, registry, k) != [] {
      RangeAgrees(logs, registry, plan.order, k);
    }
  }

  /** The same for a scan: the last range with an event for the key decides. */
  ghost predicate CurrentAfterScan(st: State, views: seq<Chain>, plan: Plan, registry: Registry, k: Key, before: bool)
    decreases |views|
  {
    if views == [] || !Scannable(st, views[0], plan) then before
    else CurrentAfterScan(ScanRange(st, views[0], plan), views[1..], plan, registry, k,
                          CurrentAfter(st, views[0], plan, registry, k, before))
  }

  lemma {:induction false} ScanEntryIff(st: State, c: Chain, views: seq<Chain>, plan: Plan, start: nat, registry: Registry,
                                        tree: set<Chain>, k: Key)
    requires Lists(plan.order, registry) && Tree(tree) && c in tree && ViewsOf(views, tree)
    requires Indexed(st, c, start, registry) && Linked(st, views, plan)
    ensures var st', d := ScanViews(st, views, plan), LastView(st, c, views, plan);
            At(st', k) == Last(EventsFor(d, start, st'.nextBlock, registry, k))
            <==> CurrentAfterScan(st, views, plan, registry, k, At(st, k) == Last(EventsFor(c, start, st.nextBlock, registry, k)))
    decreases |views|
  {
    if views != [] && Scannable(st, views[0], plan) {
      hide Indexed, Lists, ScanRange, Scannable, At, EventsFor, CurrentAfter, Consistent;
      assert forall i :: 0 <= i < |views| - 1 ==> views[1..][i] == views[i + 1];
      var view := views[0];
      RangeIndexedIff(st, c, view, plan, start, registry);
      SameEvents(st, c, view, start, registry, k);
      ScanRangeNext(st, view, plan);
      RangeEntryIff(st, view, plan, start, registry, k);
      ScanEntryIff(ScanRange(st, view, plan), view, views[1..], plan, start, registry, tree, k);
    }
  }

  /** The same for a history of runs: a rebuild makes every key current, and after it the last range with an event decides. */
  ghost predicate CurrentAfterHistory(h: Hash, start: nat, runs: seq<Run>, registry: Registry, k: Key) {
    runs == [] ||
    (var front, last := runs[..|runs| - 1], runs[|runs| - 1];
     var st := History(h, start, front);
     if last.stop.BeforeRewind? then CurrentAfterHistory(h, start, front, registry, k)
     else CurrentAfterScan(Rewound(st, start, last.rewind), last.views, last.plan, registry, k,
                           Reorged(st, last.rewind) || CurrentAfterHistory(h, start, front, registry, k)))
  }

  lemma RunEntryIff(h: Hash, start: nat, st: State, run: Run, c: Chain, registry: Registry, tree: set<Chain>, k: Key)
    requires !run.stop.BeforeRewind? && Lists(run.plan.order, registry)
    requires Tree(tree) && c in tree && run.rewind in tree && ViewsOf(run.views, tree)
    requires Reorged(st, run.rewind) || Indexed(st, c, start, registry)
    requires Linked(Rewound(st, start, run.rewind), run.views, run.plan)
    ensures var rewound, st' := Rewound(st, start, run.rewind), AfterRun(h, start, st, run);
            var d := LastView(rewound, run.rewind, run.views, run.plan);
            var before := Reorged(st, run.rewind) || At(st, k) == Last(EventsFor(c, start, st.nextBlock, registry, k));
            At(st', k) == Last(EventsFor(d, start, st'.nextBlock, registry, k))
            <==> CurrentAfterScan(rewound, run.views, run.plan, registry, k, before)
  {
    hide Indexed, Linked, LastView, ScanViews, CurrentAfterScan, Lists, EventsFor, Reorged, ViewsOf, Consistent;
    var rewound := Rewound(st, start, run.rewind);
    if Reorged(st, run.rewind) {
      FreshIndexed(run.rewind, start, registry);
      FreshCurrent(run.rewind, start, registry, k);
    } else {
      RewoundIndexed(st, c, run.rewind, start, registry);
      SameEvents(st, c, run.rewind, start, registry, k);
    }
    ScanEntryIff(rewound, run.rewind, run.views, run.plan, start, registry, tree, k);
    if ReachesHead(start, st, run) && AttachAll(h, Scanned(start, st, run), run.manifests).Ok? {
      AttachAllKeeps(h, Scanned(start, st, run), run.manifests, k);
    }
  }

  lemma FreshCurrent(c: Chain, start: nat, registry: Registry, k: Key)
    ensures At(Fresh(start), k) == Last(EventsFor(c, start, start, registry, k))
  {
  }

  /** With any number of writers: a key holds its last event exactly when CurrentAfterHistory says so. */
  lemma {:induction false} HistoryEntryIff(h: Hash, start: nat, runs: seq<Run>, registry: Registry, tree: set<Chain>, k: Key)
    requires Deployment(runs, registry, tree) && LinkedHistory(h, start, runs)
    ensures var st := History(h, start, runs);
            At(st, k) == Last(EventsFor(Seen(h, start, runs), start, st.nextBlock, registry, k))
            <==> CurrentAfterHistory(h, start, runs, registry, k)
    decreases |runs|
  {
    hide Indexed, Linked, LastView, CurrentAfterScan, Lists, EventsFor, Reorged, ViewsOf, Tree, AfterRun, Rewound, At, Tiles, OnChain;
    if runs == [] {
      FreshCurrent([], start, registry, k);
    } else {
      var n := |runs| - 1;
      var st := History(h, start, runs[..n]);
      if runs[n].stop.BeforeRewind? {
        NothingWritten(h, start, st, runs[n]);
        HistoryEntryIff(h, start, runs[..n], registry, tree, k);
      } else {
        HistoryAccurate(h, start, runs[..n], registry, tree);
        if !Reorged(st, runs[n].rewind) {
          HistoryIndexedIff(h, start, runs[..n], registry, tree);
          HistoryEntryIff(h, start, runs[..n], registry, tree, k);
        }
        RunEntryIff(h, start, st, runs[n], Seen(h, start, runs[..n]), registry, tree, k);
      }
    }
  }

  lemma ScanRangeNext(st: State, view: Chain, plan: Plan)
    requires Scannable(st, view, plan)
    ensures ScanRange(st, view, plan).nextBlock == RangeEnd(plan, st.nextBlock)
  {
  }

  /** Views that share the newest checkpoint have the same indexed events. */
  lemma SameEvents(st: State, c: Chain, d: Chain, start: nat, registry: Registry, k: Key)
    requires Indexed(st, c, start, registry) && Consistent(c, d) && !Reorged(st, d)
    ensures start <= st.nextBlock
    ensures EventsFor(c, start, st.nextBlock, registry, k) == EventsFor(d, start, st.nextBlock, registry, k)
  {
    hide KeyAgrees;
    TilesBounds(st.checkpoints, start, st.nextBlock);
    if st.checkpoints != [] {
      NewestCheckpointDecides(st, c, d, start, registry);
      SameLogs(c, d, start, st.nextBlock);
    } else {
      assert LogsOf(c, start, st.nextBlock) == [] == LogsOf(d, start, st.nextBlock);
    }
  }

  // -------------------------------------------------------------------------
  // The checks inside one range: when its reads are those of one view
  // -------------------------------------------------------------------------

  /** For one contract: the view its logs were read on, and the view its events were checked against. */
  datatype Query = Query(logs: Chain, checks: Chain)

  predicate OnView(log: Located, view: Chain) {
    log.position.blockNumber < |view| && view[log.position.blockNumber].hash == log.position.blockHash
  }

  predicate Matching(log: Located, c: Contract) {
    log.address == c.address && Expected(c.kind, log.event)
  }

  /** The per-event check of one contract. */
  predicate EventsChecked(r: Query, c: Contract, lo: nat, hi: nat) {
    forall l :: l in LogsOf(r.logs, lo, hi) && Matching(l, c) ==> OnView(l, r.checks)
  }

  /** Two views agree on the range's last block. */
  predicate SameEnd(a: Chain, b: Chain, hi: nat)
    requires hi >= 1
  {
    hi <= |a| && hi <= |b| && a[hi - 1].hash == b[hi - 1].hash
  }

  /** All checks of a range: its last block before and after, and every event. */
  predicate RangeChecked(before: Chain, queries: seq<Query>, after: Chain, order: seq<Contract>, lo: nat, hi: nat)
    requires hi >= 1 && |queries| == |order|
  {
    SameEnd(before, after, hi) && forall i :: 0 <= i < |order| ==> EventsChecked(queries[i], order[i], lo, hi)
  }

  /** What the range writes, each contract's logs read on a view of its own. */
  function ReadWrites(queries: seq<Query>, order: seq<Contract>, lo: nat, hi: nat): seq<Write>
    requires |queries| == |order|
    decreases |order|
  {
    if order == [] then []
    else
      var n := |order| - 1;
      ReadWrites(queries[..n], order[..n], lo, hi) + Parsed(LogsOf(queries[n].logs, lo, hi), order[n])
  }

  /** If every log view has the range's last block, the range is read as if on one view. */
  lemma {:induction false} ReadsOfOneView(queries: seq<Query>, after: Chain, order: seq<Contract>, lo: nat, hi: nat)
    requires hi >= 1 && |queries| == |order|
    requires forall i :: 0 <= i < |queries| ==> SameEnd(queries[i].logs, after, hi) && Consistent(queries[i].logs, after)
    ensures ReadWrites(queries, order, lo, hi) == RangeWrites(LogsOf(after, lo, hi), order)
    decreases |order|
  {
    hide Parsed;
    if order != [] {
      var n := |order| - 1;
      ReadsOfOneView(queries[..n], after, order[..n], lo, hi);
      var v := queries[n].logs;
      assert v[hi - 1].hash == after[hi - 1].hash && v[..hi - 1 + 1] == after[..hi - 1 + 1];
      SameLogs(v, after, lo, hi);
    }
  }

  lemma {:induction false} ParsedIn(logs: seq<Located>, c: Contract, w: Write) returns (l: Located)
    requires w in Parsed(logs, c)
    ensures l in logs && Matching(l, c) && WriteOf(l) == w
    decreases |logs|
  {
    hide WriteOf;
    var front, last := logs[..|logs| - 1], logs[|logs| - 1];
    if Matching(last, c) && WriteOf(last) == w {
      l := last;
    } else {
      l := ParsedIn(front, c, w);
    }
  }

  lemma {:induction false} ParsedHas(logs: seq<Located>, c: Contract, l: Located)
    requires l in logs && Matching(l, c)
    ensures WriteOf(l) in Parsed(logs, c)
    decreases |logs|
  {
    hide WriteOf;
    var n := |logs| - 1;
    if logs[n] != l {
      ParsedHas(logs[..n], c, l);
    }
  }

  /** A checked event whose check view has the range's last block is an event of the final view. */
  lemma CheckedOnView(r: Query, after: Chain, c: Contract, lo: nat, hi: nat, w: Write)
    requires hi >= 1 && EventsChecked(r, c, lo, hi) && SameEnd(r.checks, after, hi)
    requires Consistent(r.checks, after) && Consistent(r.logs, after)
    requires w in Parsed(LogsOf(r.logs, lo, hi), c)
    ensures w in Parsed(LogsOf(after, lo, hi), c)
  {
    hide Parsed, WriteOf, LogsOf, BlockLogs, Expected;
    var l := ParsedIn(LogsOf(r.logs, lo, hi), c, w);
    InLogs(r.logs, lo, hi, l);
    var n := l.position.blockNumber;
    assert OnView(l, r.checks);
    assert r.checks[..hi - 1 + 1] == after[..hi - 1 + 1];
    assert r.checks[..hi][n] == after[..hi][n];
    assert r.logs[..n + 1] == after[..n + 1];
    assert r.logs[..n + 1][n] == after[..n + 1][n];
    InLogs(after, lo, hi, l);
    ParsedHas(LogsOf(after, lo, hi), c, l);
  }

  /** If every check view has the range's last block, a checked range writes no orphan, whatever views its logs came from. */
  lemma {:induction false} CheckedRangeHasNoOrphans(queries: seq<Query>, after: Chain, order: seq<Contract>, lo: nat, hi: nat, w: Write)
    requires hi >= 1 && |queries| == |order| && w in ReadWrites(queries, order, lo, hi)
    requires forall i :: 0 <= i < |order| ==> EventsChecked(queries[i], order[i], lo, hi) && SameEnd(queries[i].checks, after, hi)
    requires forall i :: 0 <= i < |order| ==> Consistent(queries[i].checks, after) && Consistent(queries[i].logs, after)
    ensures w in RangeWrites(LogsOf(after, lo, hi), order)
    decreases |order|
  {
    hide Parsed, LogsOf, EventsChecked, SameEnd, Consistent;
    var n := |order| - 1;
    if w in Parsed(LogsOf(queries[n].logs, lo, hi), order[n]) {
      CheckedOnView(queries[n], after, order[n], lo, hi, w);
    } else {
      CheckedRangeHasNoOrphans(queries[..n], after, order[..n], lo, hi, w);
    }
  }

  /** A chain that leaves while the logs are read and then returns: all checks pass, and an event is missed. */
  lemma LeavesAndReturns() returns (a: Chain, b: Chain, order: seq<Contract>, queries: seq<Query>)
    ensures Tree({a, b}) && |queries| == |order| && RangeChecked(a, queries, a, order, 0, 1)
    ensures ReadWrites(queries, order, 0, 1) == [] && |RangeWrites(LogsOf(a, 0, 1), order)| == 1
  {
    a := [Block(1, [Sample(7)])];
    b := [Block(2, [])];
    order := [Contract(IndividualKind, 7)];
    queries := [Query(b, a)];
    PlacedLogs(0, 1, 7);
    PlacedLogs(0, 2, 7);
    assert LogsOf(a, 0, 0) == [] && LogsOf(b, 0, 0) == [];
    assert LogsOf(a, 0, 1) == [Placed(0, 1, 7)] && LogsOf(b, 0, 1) == [];
    OneWrite(Placed(0, 1, 7), order[0]);
    assert queries[..0] == [] && order[..0] == [];
    assert ReadWrites([], [], 0, 1) == [];
  }

  // -------------------------------------------------------------------------
  // Manifests on reachable indexes
  // -------------------------------------------------------------------------

  /** Batches are keyed by their id, or by their root when they have none. */
  predicate KeyedByIdentity(batches: map<Digest, Batch>) {
    forall b :: b in batches ==>
      b == if batches[b].anchor.batchId.Some? then batches[b].anchor.batchId.value else batches[b].anchor.batchRoot
  }

  predicate RootMatchesAnchor(st: State, m: Manifest) {
    ManifestKey(m) in st.batches ==> st.batches[ManifestKey(m)].anchor.batchRoot == m.batchRoot
  }

  /**
   The attach step does not compare roots for manifests keyed by a batch id: it
   keeps the match exactly when the manifest's root is the anchored one. For
   manifests keyed by root it always does.
   */
  lemma AttachMatchesIff(h: Hash, st: State, m: Manifest)
    requires Attach(h, st, m).Ok? && KeyedByIdentity(st.batches) && ManifestsMatch(h, st.batches)
    ensures ManifestsMatch(h, Attach(h, st, m).value.batches) <==> RootMatchesAnchor(st, m)
    ensures m.batchId.None? ==> RootMatchesAnchor(st, m)
    ensures KeyedByIdentity(Attach(h, st, m).value.batches)
  {
    var st' := Attach(h, st, m).value;
    assert Matches(h, st'.batches[ManifestKey(m)]) <==> RootMatchesAnchor(st, m);
  }

  lemma {:induction false} AttachAllMatches(h: Hash, st: State, ms: seq<Manifest>)
    requires AttachAll(h, st, ms).Ok? && KeyedByIdentity(st.batches) && ManifestsMatch(h, st.batches)
    requires forall m :: m in ms && m.batchId.Some? ==> RootMatchesAnchor(st, m)
    ensures var st' := AttachAll(h, st, ms).value;
            KeyedByIdentity(st'.batches) && ManifestsMatch(h, st'.batches)
    decreases |ms|
  {
    if ms != [] {
      var front, m := ms[..|ms| - 1], ms[|ms| - 1];
      AttachAllMatches(h, st, front);
      var st' := AttachAll(h, st, front).value;
      if !(ValidateManifest(h, m).None? && ManifestKey(m) !in st'.batches) {
        AttachAllKeeps(h, st, front, BatchKey(ManifestKey(m)));
        AttachMatchesIff(h, st', m);
      }
    }
  }

  lemma PutMatches(h: Hash, st: State, log: Located)
    requires !log.event.OtherEvent? && KeyedByIdentity(st.batches) && ManifestsMatch(h, st.batches)
    ensures KeyedByIdentity(Put(st, WriteOf(log)).batches) && ManifestsMatch(h, Put(st, WriteOf(log)).batches)
  {
  }

  lemma {:induction false} ParsedMatches(h: Hash, st: State, logs: seq<Located>, c: Contract)
    requires KeyedByIdentity(st.batches) && ManifestsMatch(h, st.batches)
    ensures var st' := PutAll(st, Parsed(logs, c)); KeyedByIdentity(st'.batches) && ManifestsMatch(h, st'.batches)
    decreases |logs|
  {
    if logs != [] {
      hide KeyedByIdentity, ManifestsMatch, Put, WriteOf;
      var n := |logs| - 1;
      ParsedMatches(h, st, logs[..n], c);
      assert logs[..n + 1] == logs;
      ParsedStep(st, logs, n, c);
      if logs[n].address == c.address && Expected(c.kind, logs[n].event) {
        PutMatches(h, PutAll(st, Parsed(logs[..n], c)), logs[n]);
      }
    }
  }

  lemma {:induction false} RangeMatches(h: Hash, st: State, logs: seq<Located>, order: seq<Contract>)
    requires KeyedByIdentity(st.batches) && ManifestsMatch(h, st.batches)
    ensures var st' := PutAll(st, RangeWrites(logs, order)); KeyedByIdentity(st'.batches) && ManifestsMatch(h, st'.batches)
    decreases |order|
  {
    if order != [] {
      hide KeyedByIdentity, ManifestsMatch;
      var n := |order| - 1;
      RangeMatches(h, st, logs, order[..n]);
      PutAllConcat(st, RangeWrites(logs, order[..n]), Parsed(logs, order[n]));
      ParsedMatches(h, PutAll(st, RangeWrites(logs, order[..n])), logs, order[n]);
    }
  }

  lemma {:induction false} ScanViewsMatch(h: Hash, st: State, views: seq<Chain>, plan: Plan)
    requires KeyedByIdentity(st.batches) && ManifestsMatch(h, st.batches)
    ensures KeyedByIdentity(ScanViews(st, views, plan).batches) && ManifestsMatch(h, ScanViews(st, views, plan).batches)
    decreases |views|
  {
    if views != [] && Scannable(st, views[0], plan) {
      hide KeyedByIdentity, ManifestsMatch, PutAll, RangeWrites, LogsOf;
      RangeMatches(h, st, LogsOf(views[0], st.nextBlock, RangeEnd(plan, st.nextBlock)), plan.order);
      ScanViewsMatch(h, ScanRange(st, views[0], plan), views[1..], plan);
    }
  }

  /** Whenever a run attaches manifests keyed by a batch id, their roots are the anchored ones. */
  ghost predicate IdKeyedRootsMatch(h: Hash, start: nat, runs: seq<Run>) {
    runs == [] ||
    (var front, last := runs[..|runs| - 1], runs[|runs| - 1];
     && IdKeyedRootsMatch(h, start, front)
     && (ReachesHead(start, History(h, start, front), last) ==>
           forall m :: m in last.manifests && m.batchId.Some? ==> RootMatchesAnchor(Scanned(start, History(h, start, front), last), m)))
  }

  /** On every reachable index an attached manifest has its anchor's count and root. */
  lemma {:induction false} HistoryMatches(h: Hash, start: nat, runs: seq<Run>)
    requires IdKeyedRootsMatch(h, start, runs)
    ensures KeyedByIdentity(History(h, start, runs).batches) && ManifestsMatch(h, History(h, start, runs).batches)
    decreases |runs|
  {
    if runs != [] {
      hide KeyedByIdentity, ManifestsMatch, ScanViews, Reorged;
      var front, last := runs[..|runs| - 1], runs[|runs| - 1];
      HistoryMatches(h, start, front);
      var st := History(h, start, front);
      NoBatchesMatch(h, start);
      ScanViewsMatch(h, Rewound(st, start, last.rewind), last.views, last.plan);
      var scanned := Scanned(start, st, last);
      if ReachesHead(start, st, last) && AttachAll(h, scanned, last.manifests).Ok? {
        AttachAllMatches(h, scanned, last.manifests);
      }
    } else {
      NoBatchesMatch(h, start);
    }
  }

  lemma NoBatchesMatch(h: Hash, start: nat)
    ensures KeyedByIdentity(Fresh(start).batches) && ManifestsMatch(h, Fresh(start).batches)
  {
  }

  // -------------------------------------------------------------------------
  // What the hypotheses exclude
  // -------------------------------------------------------------------------

  function Sample(address: Address): Log {
    Log(address, ReceiptAnchored(5, 0, 0, "v", 0), 0, 0)
  }

  function Placed(number: nat, hash: Digest, address: Address): Located {
    Located(Position(number, hash, 0, 0), address, ReceiptAnchored(5, 0, 0, "v", 0))
  }

  lemma PlacedLogs(number: nat, hash: Digest, address: Address)
    ensures BlockLogs(number, hash, [Sample(address)]) == [Placed(number, hash, address)]
    ensures BlockLogs(number, hash, []) == []
  {
  }

  lemma OneWrite(log: Located, c: Contract)
    requires c.address == log.address && Expected(c.kind, log.event)
    ensures RangeWrites([log], [c]) == [WriteOf(log)]
    ensures RangeWrites([], [c]) == []
    ensures Values([WriteOf(log)], WriteOf(log).key) == [WriteOf(log).record]
  {
    hide WriteOf, EventOf, Canonical;
    OneParsed(log, c);
    OneValue(WriteOf(log), WriteOf(log).key);
    hide Parsed, Values;
    assert [c][..0] == [];
  }

  lemma OneParsed(log: Located, c: Contract)
    requires c.address == log.address && Expected(c.kind, log.event)
    ensures Parsed([log], c) == [WriteOf(log)] && Parsed([], c) == []
  {
    hide WriteOf;
    assert [log][..0] == [];
  }

  /**
   A reorganisation between two ranges of one run goes unnoticed: a range is not
   linked to the checkpoint before it, and later runs test only the newest one.
   */
  lemma ReorgBetweenRangesUnnoticed() returns (a: Chain, b: Chain, plan: Plan, registry: Registry, st: State, k: Key)
    ensures Lists(plan.order, registry) && Tree({[], a, b}) && |a| == 2 && |b| == 2 == plan.head
    ensures st == ScanViews(Fresh(0), [a, b], plan) && LastView(Fresh(0), [], [a, b], plan) == b
    ensures Tiles(st.checkpoints, 0, 2) && !Reorged(st, b) && !Linked(Fresh(0), [a, b], plan)
    ensures At(st, k).Some? && EventsFor(b, 0, 2, registry, k) == []
  {
    a := [Block(1, [Sample(7)]), Block(2, [])];
    b := [Block(3, []), Block(4, [])];
    plan := Plan(2, [Contract(IndividualKind, 7)], 1);
    registry := map[7 := IndividualKind];
    k := ReceiptKey(5);
    hide ScanRange, ScanViews, LastView, Linked, EventsFor, LogsOf, RangeWrites, Tiles, Reorged, Tree, At, Lists, Scannable, WriteOf;
    TreeOfTwo(a, b);
    var first := ReorgCheckpoints(a, b, plan);
    st := ScanRange(first, b, plan);
    TwoViews(Fresh(0), a, b, plan);
    NoCheckpoint(a);
    ListsOne(plan.order[0]);
    ReorgLogs(a, b, Placed(0, 1, 7), registry, k);
    KeptEntry(a, b, plan, Placed(0, 1, 7));
    PlacedKey(0, 1, 7);
  }

  lemma ListsOne(c: Contract)
    ensures Lists([c], map[c.address := c.kind])
  {
    assert [c][0] in [c];
  }

  lemma ListsTwo(c: Contract, d: Contract)
    requires c.address != d.address
    ensures Lists([c, d], map[c.address := c.kind, d.address := d.kind])
  {
    assert [c, d][0] in [c, d] && [c, d][1] in [c, d];
  }

  lemma PlacedKey(number: nat, hash: Digest, address: Address)
    ensures WriteOf(Placed(number, hash, address)).key == ReceiptKey(5)
  {
  }

  lemma TreeOfTwo(a: Chain, b: Chain)
    requires |a| == |b| == 2 && a[0].hash != b[0].hash && a[1].hash != b[1].hash
    ensures Tree({[], a, b})
  {
  }

  /** An entry written by the first range and not by the second stays. */
  lemma KeptEntry(a: Chain, b: Chain, plan: Plan, log: Located)
    requires plan == Plan(2, [Contract(IndividualKind, log.address)], 1) && log.event.ReceiptAnchored?
    requires LogsOf(a, 0, 1) == [log] && LogsOf(b, 1, 2) == []
    requires Scannable(Fresh(0), a, plan) && Scannable(ScanRange(Fresh(0), a, plan), b, plan)
    ensures At(ScanRange(ScanRange(Fresh(0), a, plan), b, plan), WriteOf(log).key).Some?
  {
    hide ScanRange, LogsOf, RangeWrites, At;
    var k, first := WriteOf(log).key, ScanRange(Fresh(0), a, plan);
    ScanRangeNext(Fresh(0), a, plan);
    OneWrite(log, plan.order[0]);
    NoValues(k);
    var rs := ScanRangeWrites(Fresh(0), a, plan, k);
    rs := ScanRangeWrites(first, b, plan, k);
  }

  lemma NoValues(k: Key)
    ensures Values([], k) == []
  {
  }

  lemma NoCheckpoint(c: Chain)
    ensures !Reorged(Fresh(0), c)
  {
  }

  lemma ReorgCheckpoints(a: Chain, b: Chain, plan: Plan) returns (first: State)
    requires |a| == |b| == plan.head == 2 && plan.maxRange == 1 && a[0].hash != b[0].hash
    ensures Scannable(Fresh(0), a, plan) && first == ScanRange(Fresh(0), a, plan)
    ensures Scannable(first, b, plan) && first.nextBlock == 1 && Reorged(first, b)
    ensures var st := ScanRange(first, b, plan); Tiles(st.checkpoints, 0, 2) && !Reorged(st, b)
  {
    hide LogsOf, RangeWrites, PutAll;
    first := ScanRange(Fresh(0), a, plan);
    var st := ScanRange(first, b, plan);
    assert st.checkpoints[..1] == first.checkpoints && first.checkpoints[..0] == [];
    assert Tiles(first.checkpoints, 0, 1);
  }

  /** A scan of two ranges, each on a view of its own. */
  lemma TwoViews(st: State, a: Chain, b: Chain, plan: Plan)
    requires Scannable(st, a, plan) && Scannable(ScanRange(st, a, plan), b, plan)
    ensures ScanViews(st, [a, b], plan) == ScanRange(ScanRange(st, a, plan), b, plan)
    ensures forall c :: LastView(st, c, [a, b], plan) == b
    ensures Linked(st, [a, b], plan) <==> !Reorged(st, a) && !Reorged(ScanRange(st, a, plan), b)
  {
    hide ScanRange, Scannable, Reorged;
    var one := ScanRange(st, a, plan);
    assert [a, b][1..] == [b] && [b][1..] == [];
    assert ScanViews(one, [b], plan) == ScanViews(ScanRange(one, b, plan), [], plan);
    assert Linked(one, [b], plan) <==> !Reorged(one, b) && Linked(ScanRange(one, b, plan), [], plan);
    forall c ensures LastView(st, c, [a, b], plan) == b {
      assert LastView(one, a, [b], plan) == LastView(ScanRange(one, b, plan), b, [], plan);
    }
  }

  /**
   The root of a manifest keyed by a batch id is not compared with the anchored
   one: a run attaches the manifest of receipt 5 to an anchor with root 6.
   */
  lemma ForeignManifestAttached(h: Hash) returns (run: Run, m: Manifest)
    ensures Fixed(run) && run.manifests == [m] && ReachesHead(0, Fresh(0), run) && ValidateManifest(h, m).None?
    ensures var scanned := Scanned(0, Fresh(0), run);
            ManifestsMatch(h, scanned.batches) && Attach(h, scanned, m).Ok? && !RootMatchesAnchor(scanned, m)
    ensures !ManifestsMatch(h, History(h, 0, [run]).batches)
  {
    var event := ReceiptBatchAnchoredV2(1, 6, 3, 1, "v", 0);
    var chain := [Block(1, [Log(8, event, 0, 0)])];
    var c := Contract(BatchKind, 8);
    var plan := Plan(1, [c], 1);
    m := Manifest(true, Some(1), Some(3), 5, [5], 1, "v");
    run := Run(chain, [chain], plan, [m], Completes);
    var anchor := BatchAnchor(Position(0, 1, 0, 0), 8, Some(1), 6, 3, 1, "v", 0);
    OneBatch(chain, c, anchor);
    hide LogsOf, RangeWrites, PutAll, ScanViews, History, AttachAll, Root;
    OneRange(Fresh(0), chain, plan);
    PutOne(Fresh(0), Write(BatchKey(1), BatchRecord(anchor)));
    var scanned := Scanned(0, Fresh(0), run);
    assert scanned.batches == map[1 := Batch(anchor, None)];
    SingleRoot(h, 5);
    AttachOne(h, scanned, m);
    HistoryOfOne(h, run);
    var after := Attach(h, scanned, m).value;
    assert 1 in after.batches && !Matches(h, after.batches[1]);
  }

  lemma OneBatch(chain: Chain, c: Contract, anchor: BatchAnchor)
    requires anchor == BatchAnchor(Position(0, 1, 0, 0), 8, Some(1), 6, 3, 1, "v", 0) && c == Contract(BatchKind, 8)
    requires chain == [Block(1, [Log(8, ReceiptBatchAnchoredV2(1, 6, 3, 1, "v", 0), 0, 0)])]
    ensures RangeWrites(LogsOf(chain, 0, 1), [c]) == [Write(BatchKey(1), BatchRecord(anchor))]
  {
    var log := Located(anchor.position, 8, ReceiptBatchAnchoredV2(1, 6, 3, 1, "v", 0));
    OneLog(chain, log);
    OneWrite(log, c);
    hide RangeWrites, LogsOf;
  }

  lemma OneLog(chain: Chain, log: Located)
    requires |chain| == 1 && |chain[0].logs| == 1 && log.position.blockNumber == 0 && log.position.blockHash == chain[0].hash
    requires chain[0].logs[0] == Log(log.address, log.event, log.position.transactionHash, log.position.logIndex)
    ensures LogsOf(chain, 0, 1) == [log]
  {
    assert LogsOf(chain, 0, 0) == [];
    assert BlockLogs(0, chain[0].hash, chain[0].logs) == [log];
  }

  lemma PutOne(st: State, w: Write)
    requires Typed(w)
    ensures PutAll(st, [w]) == Put(st, w)
  {
    assert [w][..0] == [];
  }

  /** A scan of one range, up to the head. */
  lemma OneRange(st: State, chain: Chain, plan: Plan)
    requires Scannable(st, chain, plan)
    ensures ScanViews(st, [chain], plan) == ScanRange(st, chain, plan)
  {
    hide ScanRange, Scannable;
    assert [chain][1..] == [];
  }

  lemma SingleRoot(h: Hash, id: Digest)
    ensures Root(h, [id]) == id
  {
  }

  lemma AttachOne(h: Hash, st: State, m: Manifest)
    requires ManifestKey(m) in st.batches
    ensures AttachAll(h, st, [m]) == Attach(h, st, m)
  {
    hide Attach, ManifestKey, ValidateManifest;
    assert [m][..0] == [];
    assert AttachAll(h, st, []) == Ok(st);
  }

  lemma HistoryOfOne(h: Hash, run: Run)
    ensures History(h, 0, [run]) == AfterRun(h, 0, Fresh(0), run)
  {
    hide AfterRun;
    assert [run][..0] == [];
  }

  /** The logs of the two chains of the example. */
  lemma ReorgLogs(a: Chain, b: Chain, log: Located, registry: Registry, k: Key)
    requires a == [Block(1, [Sample(7)]), Block(2, [])] && b == [Block(3, []), Block(4, [])] && log == Placed(0, 1, 7)
    ensures LogsOf(a, 0, 1) == [log] && LogsOf(b, 1, 2) == [] && EventsFor(b, 0, 2, registry, k) == []
  {
    PlacedLogs(0, 1, 7);
    PlacedLogs(0, 3, 7);
    PlacedLogs(1, 4, 7);
    assert LogsOf(a, 0, 0) == [] && LogsOf(b, 0, 0) == [] && LogsOf(b, 1, 1) == [];
    assert LogsOf(b, 0, 1) == [] && LogsOf(b, 0, 2) == [];
  }

  lemma TwoWrites(early: Located, late: Located, c7: Contract, c8: Contract)
    requires c7 == Contract(IndividualKind, late.address) && c8 == Contract(IndividualKind, early.address) && c7 != c8
    requires early.event.ReceiptAnchored? && late.event == early.event
    ensures RangeWrites([early, late], [c7, c8]) == [WriteOf(late), WriteOf(early)]
    ensures RangeWrites([early], [c7, c8]) == [WriteOf(early)]
    ensures RangeWrites([late], [c7, c8]) == [WriteOf(late)]
    ensures Last(Values([WriteOf(late), WriteOf(early)], WriteOf(late).key)) == Some(WriteOf(early).record)
    ensures Last(Values([WriteOf(late)], WriteOf(late).key)) == Some(WriteOf(late).record)
  {
    TwoParsed(early, late, c7, c8);
    hide Parsed, WriteOf;
    RangeOfTwo([late], c7, c8);
    RangeOfTwo([early], c7, c8);
    RangeOfTwo([early, late], c7, c8);
    OneValue(WriteOf(late), WriteOf(late).key);
    OneValue(WriteOf(early), WriteOf(late).key);
    ValuesConcat([WriteOf(late)], [WriteOf(early)], WriteOf(late).key);
    assert [WriteOf(late)] + [WriteOf(early)] == [WriteOf(late), WriteOf(early)];
  }

  lemma TwoParsed(early: Located, late: Located, c7: Contract, c8: Contract)
    requires c7 == Contract(IndividualKind, late.address) && c8 == Contract(IndividualKind, early.address) && c7 != c8
    requires early.event.ReceiptAnchored? && late.event == early.event
    ensures Parsed([late], c7) == [WriteOf(late)] && Parsed([late], c8) == []
    ensures Parsed([early], c7) == [] && Parsed([early], c8) == [WriteOf(early)]
    ensures Parsed([early, late], c7) == [WriteOf(late)] && Parsed([early, late], c8) == [WriteOf(early)]
    ensures WriteOf(late).key == WriteOf(early).key
  {
    assert [early, late][..1] == [early] && [early][..0] == [] && [late][..0] == [];
  }

  lemma RangeOfTwo(logs: seq<Located>, c: Contract, d: Contract)
    ensures RangeWrites(logs, [c, d]) == Parsed(logs, c) + Parsed(logs, d)
  {
    hide Parsed;
    assert [c, d][..1] == [c] && [c][..0] == [];
    assert RangeWrites(logs, []) == [];
    assert RangeWrites(logs, [c]) == Parsed(logs, c);
  }

  /** A key written by two contracts depends on the range size: here 2 blocks at once against one by one. */
  lemma TwoWritersDependOnRange() returns (chain: Chain, order: seq<Contract>, registry: Registry, k: Key)
    ensures |chain| == 2 && Lists(order, registry)
    ensures At(ScanViews(Fresh(0), [chain, chain], Plan(2, order, 1)), k) != At(ScanViews(Fresh(0), [chain, chain], Plan(2, order, 2)), k)
  {
    chain := [Block(1, [Sample(8)]), Block(2, [Sample(7)])];
    order := [Contract(IndividualKind, 7), Contract(IndividualKind, 8)];
    registry := map[7 := IndividualKind, 8 := IndividualKind];
    ListsTwo(order[0], order[1]);
    k := ReceiptKey(5);
    var early, late := Placed(0, 1, 8), Placed(1, 2, 7);
    PlacedLogs(0, 1, 8);
    PlacedLogs(1, 2, 7);
    assert LogsOf(chain, 0, 0) == [] && LogsOf(chain, 1, 1) == [];
    assert LogsOf(chain, 0, 1) == [early] && LogsOf(chain, 1, 2) == [late] && LogsOf(chain, 0, 2) == [early, late];
    TwoWrites(early, late, order[0], order[1]);
    hide RangeWrites, LogsOf, Values, PutAll, ScanViews, Lists;
    var slow, fast := Plan(2, order, 1), Plan(2, order, 2);
    var one, both := ScanRange(Fresh(0), chain, slow), ScanRange(Fresh(0), chain, fast);
    var two := ScanRange(one, chain, slow);
    var rs := ScanRangeWrites(one, chain, slow, k);
    assert At(two, k) == Some(WriteOf(late).record);
    rs := ScanRangeWrites(Fresh(0), chain, fast, k);
    assert At(both, k) == Some(WriteOf(early).record);
    TwoViews(Fresh(0), chain, chain, slow);
    OneView(Fresh(0), chain, fast);
  }

  /** A scan whose first range reaches the head. */
  lemma OneView(st: State, chain: Chain, plan: Plan)
    requires Scannable(st, chain, plan) && RangeEnd(plan, st.nextBlock) == plan.head
    ensures ScanViews(st, [chain, chain], plan) == ScanRange(st, chain, plan)
  {
    hide PutAll, RangeWrites, LogsOf;
    assert [chain, chain][1..] == [chain];
    assert ScanViews(ScanRange(st, chain, plan), [chain], plan) == ScanRange(st, chain, plan);
  }
}
