/**
 The durable event queue with its import checkpoint, and importers that page
 through a source from the stored cursor. Database transactions are atomic; an
 importer can stop anywhere and several can run on one database.
 */
module ImportQueue {
  import opened Arithmetic
  import opened Wrappers

  type EventId = nat
  type Body = nat
  type ImportId = nat
  type Binding = nat
  type Cursor = nat

  datatype Row = Row(id: EventId, body: Body)

  datatype Checkpoint = Checkpoint(binding: Binding, revision: nat, cursor: Option<Cursor>, complete: bool)

  datatype Db = Db(pending: seq<Row>, checkpoints: map<ImportId, Checkpoint>)

  datatype ImportError =
    | DuplicateIdentity | OtherSource | CheckpointChanged | CursorStuck | CheckpointCapacity | Collision | Full
    | PageLimit | CursorCycle | InvalidLimit | DeliveryFailed

  const MAX_IMPORTS: nat := 100
  const MAX_REVISIONS: nat := 10000

  // -------------------------------------------------------------------------
  // Transactions
  // -------------------------------------------------------------------------

  predicate UniqueIds(rows: seq<Row>) {
    forall i, j :: 0 <= i < j < |rows| ==> rows[i].id != rows[j].id
  }

  function BodyOf(pending: seq<Row>, id: EventId): (b: Option<Body>)
    ensures b.Some? ==> Row(id, b.value) in pending
    ensures b.None? ==> forall r :: r in pending ==> r.id != id
  {
    if pending == [] then None
    else if pending[|pending| - 1].id == id then Some(pending[|pending| - 1].body)
    else BodyOf(pending[..|pending| - 1], id)
  }

  /** One row: already there with the same body, a collision, no room, or inserted last. */
  function InsertRow(pending: seq<Row>, capacity: nat, r: Row): Result<seq<Row>, ImportError> {
    match BodyOf(pending, r.id)
    case Some(body) => if body == r.body then Ok(pending) else Err(Collision)
    case None => if |pending| >= capacity then Err(Full) else Ok(pending + [r])
  }

  function InsertRows(pending: seq<Row>, capacity: nat, rows: seq<Row>): Result<seq<Row>, ImportError> {
    if rows == [] then Ok(pending)
    else match InsertRows(pending, capacity, rows[..|rows| - 1])
      case Err(e) => Err(e)
      case Ok(front) => InsertRow(front, capacity, rows[|rows| - 1])
  }

  /** checkpoint(): the stored one, or the initial one. */
  function CheckpointOf(db: Db, id: ImportId, binding: Binding): Result<Checkpoint, ImportError> {
    if id !in db.checkpoints then Ok(Checkpoint(binding, 0, None, false))
    else if db.checkpoints[id].binding != binding then Err(OtherSource)
    else Ok(db.checkpoints[id])
  }

  function CommitPage(db: Db, capacity: nat, id: ImportId, binding: Binding, expected: nat, rows: seq<Row>, next: Option<Cursor>):
    Result<Db, ImportError>
  {
    if !UniqueIds(rows) then Err(DuplicateIdentity)
    else match CheckpointOf(db, id, binding)
      case Err(e) => Err(e)
      case Ok(current) =>
        if current.revision != expected || current.complete then Err(CheckpointChanged)
        else if next.Some? && next == current.cursor then Err(CursorStuck)
        else if current.revision == 0 && |db.checkpoints| >= MAX_IMPORTS then Err(CheckpointCapacity)
        else match InsertRows(db.pending, capacity, rows)
          case Err(e) => Err(e)
          case Ok(pending) =>
            Ok(Db(pending, db.checkpoints[id := Checkpoint(binding, expected + 1, next, next.None?)]))
  }

  /** All rows of a page are stored, older rows stay where they are, and ids stay unique. */
  lemma {:induction false} InsertedRows(pending: seq<Row>, capacity: nat, rows: seq<Row>)
    requires UniqueIds(pending) && InsertRows(pending, capacity, rows).Ok?
    ensures var p := InsertRows(pending, capacity, rows).value;
            && UniqueIds(p) && pending <= p
            && (forall r :: r in p <==> r in pending || r in rows)
            && (|pending| <= capacity ==> |p| <= capacity)
    decreases |rows|
  {
    if rows != [] {
      var n := |rows| - 1;
      InsertedRows(pending, capacity, rows[..n]);
      var front := InsertRows(pending, capacity, rows[..n]).value;
      assert forall r :: r in rows <==> r in rows[..n] || r == rows[n];
      InsertedRow(front, capacity, rows[n]);
    }
  }

  lemma InsertedRow(pending: seq<Row>, capacity: nat, r: Row)
    requires UniqueIds(pending) && InsertRow(pending, capacity, r).Ok?
    ensures var p := InsertRow(pending, capacity, r).value;
            && UniqueIds(p) && pending <= p
            && (forall x :: x in p <==> x in pending || x == r)
            && (|pending| <= capacity ==> |p| <= capacity)
  {
    if BodyOf(pending, r.id).None? {
      var p := pending + [r];
      forall i, j | 0 <= i < j < |p| ensures p[i].id != p[j].id {
        if j == |pending| {
          assert pending[i] in pending;
        }
      }
    }
  }

  class DurableQueue {
    const capacity: nat
    var pending: seq<Row>
    var checkpoints: map<ImportId, Checkpoint>
    /** What the API has accepted, oldest first. */
    var delivered: seq<Row>

    ghost function View(): Db
      reads this
    {
      Db(pending, checkpoints)
    }

    constructor (capacity: nat)
      ensures View() == Db([], map[]) && delivered == [] && this.capacity == capacity
    {
      this.capacity, pending, checkpoints, delivered := capacity, [], map[], [];
    }

    method Enqueue(r: Row) returns (outcome: Result<bool, ImportError>)
      modifies this`pending
      ensures outcome.Err? ==> View() == old(View()) && InsertRow(old(pending), capacity, r) == Err(outcome.error)
      ensures outcome.Ok? ==> InsertRow(old(pending), capacity, r) == Ok(pending)
                              && (outcome.value <==> pending != old(pending))
    {
      var previous := BodyOf(pending, r.id);
      if previous.Some? {
        return if previous.value != r.body then Err(Collision) else Ok(false);
      }
      if |pending| >= capacity {
        return Err(Full);
      }
      pending := pending + [r];
      return Ok(true);
    }

    /**
     flush, without interleaving: the oldest rows in order, each deleted once the
     API accepts it, up to the limit or the first failure. Nothing is lost.
     */
    method Flush(limit: int, accepts: Row -> bool) returns (r: Result<nat, ImportError>)
      modifies this`pending, this`delivered
      ensures delivered + pending == old(delivered) + old(pending)
      ensures !(1 <= limit <= 1000) ==> r == Err(InvalidLimit) && pending == old(pending)
      ensures |delivered| >= |old(delivered)| && forall i :: |old(delivered)| <= i < |delivered| ==> accepts(delivered[i])
      ensures r.Ok? ==> r.value == |delivered| - |old(delivered)| == if |old(pending)| <= limit then |old(pending)| else limit
      ensures 1 <= limit <= 1000 && r.Err? ==> pending != [] && !accepts(pending[0])
    {
      if limit < 1 || limit > 1000 {
        return Err(InvalidLimit);
      }
      var rows := if |pending| <= limit then pending else pending[..limit];
      var i := 0;
      while i < |rows|
        invariant 0 <= i <= |rows|
        invariant pending == old(pending)[i..] && delivered == old(delivered) + old(pending)[..i]
        invariant forall k :: 0 <= k < i ==> accepts(old(pending)[k])
      {
        if !accepts(rows[i]) {
          return Err(DeliveryFailed);
        }
        delivered := delivered + [rows[i]];
        pending := pending[1..];
        i := i + 1;
      }
      return Ok(|rows|);
    }

    /** The insert loop of the transaction, rolled back on the first failure. */
    method InsertPage(rows: seq<Row>) returns (error: Option<ImportError>)
      modifies this`pending
      ensures match InsertRows(old(pending), capacity, rows)
              case Ok(p) => error == None && pending == p
              case Err(e) => error == Some(e) && pending == old(pending)
    {
      var begun := pending;
      var i := 0;
      while i < |rows|
        invariant 0 <= i <= |rows|
        invariant InsertRows(begun, capacity, rows[..i]) == Ok(pending)
      {
        assert rows[..i + 1][..i] == rows[..i];
        var previous := BodyOf(pending, rows[i].id);
        if previous.Some? {
          if previous.value != rows[i].body {
            InsertFails(begun, capacity, rows, i + 1);
            pending := begun;
            return Some(Collision);
          }
        } else {
          if |pending| >= capacity {
            InsertFails(begun, capacity, rows, i + 1);
            pending := begun;
            return Some(Full);
          }
          pending := pending + [rows[i]];
        }
        i := i + 1;
      }
      assert rows[..i] == rows;
      return None;
    }

    /** All of the page and the new checkpoint, or nothing. */
    method CommitImportPage(id: ImportId, binding: Binding, expected: nat, rows: seq<Row>, next: Option<Cursor>)
      returns (error: Option<ImportError>)
      modifies this`pending, this`checkpoints
      ensures match CommitPage(old(View()), capacity, id, binding, expected, rows, next)
              case Ok(db) => error == None && View() == db
              case Err(e) => error == Some(e) && View() == old(View())
    {
      hide InsertRows;
      var unique := AllDistinct(rows);
      if !unique {
        return Some(DuplicateIdentity);
      }
      var current := Checkpoint(binding, 0, None, false);
      if id in checkpoints {
        if checkpoints[id].binding != binding {
          return Some(OtherSource);
        }
        current := checkpoints[id];
      }
      if current.revision != expected || current.complete {
        return Some(CheckpointChanged);
      }
      if next.Some? && next == current.cursor {
        return Some(CursorStuck);
      }
      if current.revision == 0 && |checkpoints| >= MAX_IMPORTS {
        return Some(CheckpointCapacity);
      }
      error := InsertPage(rows);
      if error.None? {
        checkpoints := checkpoints[id := Checkpoint(binding, current.revision + 1, next, next.None?)];
      }
    }
  }

  /** The identity set of a page is as large as the page. */
  method AllDistinct(rows: seq<Row>) returns (ok: bool)
    ensures ok <==> UniqueIds(rows)
  {
    var ids: set<EventId> := {};
    var i := 0;
    while i < |rows|
      invariant 0 <= i <= |rows| && UniqueIds(rows[..i])
      invariant ids == set j | 0 <= j < i :: rows[j].id
    {
      if rows[i].id in ids {
        return false;
      }
      ids := ids + {rows[i].id};
      i := i + 1;
    }
    assert rows[..i] == rows;
    return true;
  }

  lemma {:induction false} InsertFails(pending: seq<Row>, capacity: nat, rows: seq<Row>, n: nat)
    requires n <= |rows| && InsertRows(pending, capacity, rows[..n]).Err?
    ensures InsertRows(pending, capacity, rows) == InsertRows(pending, capacity, rows[..n])
    decreases |rows|
  {
    if n == |rows| {
      assert rows[..n] == rows;
    } else {
      assert rows[..|rows| - 1][..n] == rows[..n];
      InsertFails(pending, capacity, rows[..|rows| - 1], n);
    }
  }

  // -------------------------------------------------------------------------
  // Importers
  // -------------------------------------------------------------------------

  datatype Page = Page(rows: seq<Row>, next: Option<Cursor>)

  /** A source whose page depends only on the cursor. */
  type Source = Option<Cursor> -> Page

  /** One importLangfuseWindow call: its checkpoint, pages done, cursors seen, and a page it has fetched. */
  datatype Importer = Importer(checkpoint: Checkpoint, maxPages: nat, pages: nat, seen: set<Option<Cursor>>, fetched: Option<Page>)

  /** The import under study; every other use of the database is a step of its own. */
  datatype Setup = Setup(id: ImportId, binding: Binding, source: Source, capacity: nat)

  datatype World = World(db: Db, importers: map<nat, Importer>, committed: seq<Page>, delivered: set<Row>)

  datatype Step =
    | Begin(who: nat, maxPages: nat)
    | Fetch(who: nat)
    | Commit(who: nat)
    | Reread(who: nat)                                // the checkpoint a commit returns is read after its transaction
    | Stop(who: nat)                                  // an error, a crash, or the end of the call
    // an import of another source or window, under any id
    | OtherCommit(id: ImportId, binding: Binding, expected: nat, rows: seq<Row>, next: Option<Cursor>)
    | Enqueue(row: Row)
    | Deliver(row: Row)                               // flush: the API accepts the row
    | Delete(row: Row)                                // flush: the delivered row is removed

  function Without(pending: seq<Row>, row: Row): seq<Row> {
    if pending == [] then []
    else
      var front, last := Without(pending[..|pending| - 1], row), pending[|pending| - 1];
      if last == row then front else front + [last]
  }

  /** A step that is not possible changes nothing. */
  function Next(s: Setup, w: World, step: Step): World {
    match step
    case Begin(who, maxPages) =>
      (match CheckpointOf(w.db, s.id, s.binding)
       case Err(_) => w
       case Ok(cp) => w.(importers := w.importers[who := Importer(cp, maxPages, 0, {cp.cursor}, None)]))
    case Fetch(who) =>
      if who !in w.importers then w
      else
        var im := w.importers[who];
        if im.checkpoint.complete || im.pages >= im.maxPages || im.checkpoint.revision >= MAX_REVISIONS then w
        else w.(importers := w.importers[who := im.(fetched := Some(s.source(im.checkpoint.cursor)))])
    case Commit(who) =>
      if who !in w.importers || w.importers[who].fetched.None? then w
      else
        var im, page := w.importers[who], w.importers[who].fetched.value;
        if page.next.Some? && page.next in im.seen then w.(importers := w.importers - {who})
        else (match CommitPage(w.db, s.capacity, s.id, s.binding, im.checkpoint.revision, page.rows, page.next)
              case Err(_) => w.(importers := w.importers - {who})
              case Ok(db) =>
                w.(db := db, committed := w.committed + [page],
                   importers := w.importers[who := Importer(db.checkpoints[s.id], im.maxPages, im.pages + 1, im.seen + {page.next}, None)]))
    case Reread(who) =>
      if who !in w.importers || w.importers[who].fetched.Some? then w
      else (match CheckpointOf(w.db, s.id, s.binding)
            case Err(_) => w.(importers := w.importers - {who})
            case Ok(cp) =>
              w.(importers := w.importers[who := w.importers[who].(checkpoint := cp, seen := w.importers[who].seen + {cp.cursor})]))
    case Stop(who) => w.(importers := w.importers - {who})
    case OtherCommit(id, binding, expected, rows, next) =>
      if id == s.id && binding == s.binding then w
      else (match CommitPage(w.db, s.capacity, id, binding, expected, rows, next)
            case Err(_) => w
            case Ok(db) => w.(db := db))
    case Enqueue(row) =>
      (match InsertRow(w.db.pending, s.capacity, row)
       case Err(_) => w
       case Ok(pending) => w.(db := w.db.(pending := pending)))
    case Deliver(row) => if row in w.db.pending then w.(delivered := w.delivered + {row}) else w
    case Delete(row) => if row in w.delivered then w.(db := w.db.(pending := Without(w.db.pending, row))) else w
  }

  function Run(s: Setup, steps: seq<Step>): World {
    if steps == [] then World(Db([], map[]), map[], [], {})
    else Next(s, Run(s, steps[..|steps| - 1]), steps[|steps| - 1])
  }

  // -------------------------------------------------------------------------
  // The path through the source
  // -------------------------------------------------------------------------

  /** The cursor after r pages, from null. */
  function CursorAt(source: Source, r: nat): Option<Cursor> {
    if r == 0 then None else source(CursorAt(source, r - 1)).next
  }

  /** The stored checkpoint after r commits. */
  predicate OnPath(s: Setup, cp: Checkpoint) {
    && cp.binding == s.binding && cp.cursor == CursorAt(s.source, cp.revision)
    && (cp.complete <==> cp.revision > 0 && cp.cursor.None?)
    && (forall k :: 0 < k < cp.revision ==> CursorAt(s.source, k).Some?)
  }

  function Stored(s: Setup, db: Db): Checkpoint {
    if s.id in db.checkpoints then db.checkpoints[s.id] else Checkpoint(s.binding, 0, None, false)
  }

  ghost predicate Inv(s: Setup, w: World) {
    && (if Stored(s, w.db).binding == s.binding then OnPath(s, Stored(s, w.db)) && |w.committed| == Stored(s, w.db).revision
        else w.committed == [])
    && (forall k :: 0 <= k < |w.committed| ==> w.committed[k] == s.source(CursorAt(s.source, k)))
    && UniqueIds(w.db.pending)
    && (forall k :: 0 <= k < |w.committed| ==> forall r :: r in w.committed[k].rows ==> r in w.db.pending || r in w.delivered)
    && (forall who :: who in w.importers ==>
          OnPath(s, w.importers[who].checkpoint)
          && (w.importers[who].fetched.Some? ==> w.importers[who].fetched.value == s.source(w.importers[who].checkpoint.cursor)))
  }

  lemma {:induction false} WithoutRows(pending: seq<Row>, row: Row)
    requires UniqueIds(pending)
    ensures UniqueIds(Without(pending, row)) && forall r :: r in Without(pending, row) <==> r in pending && r != row
    decreases |pending|
  {
    if pending != [] {
      var n := |pending| - 1;
      WithoutRows(pending[..n], row);
      assert forall r :: r in pending <==> r in pending[..n] || r == pending[n];
      var front := Without(pending[..n], row);
      forall i | 0 <= i < |front| ensures front[i].id != pending[n].id {
        assert front[i] in front;
        var j :| 0 <= j < n && pending[..n][j] == front[i];
      }
    }
  }

  /** A successful commit of the page at the stored cursor moves the checkpoint one step along the path. */
  lemma CommitAdvances(s: Setup, db: Db, cp: Checkpoint, page: Page)
    requires Stored(s, db).binding == s.binding ==> OnPath(s, Stored(s, db))
    requires OnPath(s, cp) && page == s.source(cp.cursor)
    requires CommitPage(db, s.capacity, s.id, s.binding, cp.revision, page.rows, page.next).Ok?
    ensures var db' := CommitPage(db, s.capacity, s.id, s.binding, cp.revision, page.rows, page.next).value;
            && OnPath(s, Stored(s, db)) && OnPath(s, Stored(s, db')) && Stored(s, db').revision == Stored(s, db).revision + 1
            && cp.revision == Stored(s, db).revision && s.id in db'.checkpoints && s.binding == Stored(s, db).binding
  {
  }

  lemma CommitKeepsInv(s: Setup, w: World, who: nat)
    requires Inv(s, w) && who in w.importers && w.importers[who].fetched.Some?
    ensures Inv(s, Next(s, w, Commit(who)))
  {
    hide OnPath, InsertRows, UniqueIds;
    var im, page := w.importers[who], w.importers[who].fetched.value;
    if !(page.next.Some? && page.next in im.seen) {
      var r := CommitPage(w.db, s.capacity, s.id, s.binding, im.checkpoint.revision, page.rows, page.next);
      if r.Ok? {
        CommitAdvances(s, w.db, im.checkpoint, page);
        SamePosition(s, im.checkpoint, Stored(s, w.db));
        InsertedRows(w.db.pending, s.capacity, page.rows);
        PathCursor(s, Stored(s, r.value));
      }
    }
  }

  lemma SamePosition(s: Setup, a: Checkpoint, b: Checkpoint)
    requires OnPath(s, a) && OnPath(s, b) && a.revision == b.revision
    ensures a.cursor == CursorAt(s.source, b.revision)
  {
  }

  lemma OtherStepKeepsInv(s: Setup, w: World, step: Step)
    requires Inv(s, w) && (step.OtherCommit? || step.Enqueue? || step.Delete?)
    ensures Inv(s, Next(s, w, step))
  {
    hide OnPath, InsertRows, UniqueIds;
    match step
    case OtherCommit(id, binding, expected, rows, next) =>
      if InsertRows(w.db.pending, s.capacity, rows).Ok? {
        InsertedRows(w.db.pending, s.capacity, rows);
      }
    case Enqueue(row) =>
      if InsertRow(w.db.pending, s.capacity, row).Ok? {
        InsertedRow(w.db.pending, s.capacity, row);
      }
    case Delete(row) => WithoutRows(w.db.pending, row);
  }

  lemma NextKeepsInv(s: Setup, w: World, step: Step)
    requires Inv(s, w)
    ensures Inv(s, Next(s, w, step))
  {
    hide OnPath, InsertRows, UniqueIds, InsertRow, Without, CommitPage;
    match step
    case Commit(who) => if who in w.importers && w.importers[who].fetched.Some? { CommitKeepsInv(s, w, who); }
    case OtherCommit(_, _, _, _, _) => OtherStepKeepsInv(s, w, step);
    case Enqueue(_) => OtherStepKeepsInv(s, w, step);
    case Delete(_) => OtherStepKeepsInv(s, w, step);
    case _ =>
  }

  lemma {:induction false} EveryRunKeepsInv(s: Setup, steps: seq<Step>)
    ensures Inv(s, Run(s, steps))
    decreases |steps|
  {
    if steps != [] {
      hide Next, Inv;
      EveryRunKeepsInv(s, steps[..|steps| - 1]);
      NextKeepsInv(s, Run(s, steps[..|steps| - 1]), steps[|steps| - 1]);
    } else {
      StartInv(s);
    }
  }

  lemma StartInv(s: Setup)
    ensures Inv(s, World(Db([], map[]), map[], [], {}))
  {
  }

  /**
   Over every interleaving of importers, flushes, other imports and failures:
   unless another source took the import id first, in which case nothing is ever
   committed, the cursor stored at revision r is the r-th on the path from null,
   the commits are exactly the first r pages of the path, in order and each once,
   and complete means the path ends there. Every record of a committed page is
   pending or delivered.
   */
  lemma ImportsFollowThePath(s: Setup, steps: seq<Step>)
    ensures var w := Run(s, steps);
            var cp := Stored(s, w.db);
            && (cp.binding != s.binding ==> w.committed == [])
            && (cp.binding == s.binding ==>
                  && cp.cursor == CursorAt(s.source, cp.revision)
                  && |w.committed| == cp.revision
                  && (cp.complete <==> cp.revision > 0 && w.committed[cp.revision - 1].next.None?)
                  && (forall k :: 0 <= k < cp.revision - 1 ==> w.committed[k].next.Some?))
            && (forall k :: 0 <= k < |w.committed| ==> w.committed[k] == s.source(CursorAt(s.source, k)))
            && (forall k :: 0 <= k < |w.committed| ==> forall r :: r in w.committed[k].rows ==> r in w.db.pending || r in w.delivered)
  {
    hide Run;
    EveryRunKeepsInv(s, steps);
    var w := Run(s, steps);
    if Stored(s, w.db).binding == s.binding {
      forall k | 0 <= k < Stored(s, w.db).revision - 1 ensures w.committed[k].next.Some? {
        assert CursorAt(s.source, k + 1).Some?;
      }
    }
  }

  // -------------------------------------------------------------------------
  // The source's loop, one importer at a time
  // -------------------------------------------------------------------------

  /** Among the cursors lo..hi of the path, one comes twice. */
  ghost predicate CyclesWithin(source: Source, lo: nat, hi: nat) {
    exists i, j :: lo <= i < j <= hi && CursorAt(source, j).Some? && CursorAt(source, i) == CursorAt(source, j)
  }

  /** Rows of the pages lo..hi-1 of the path are all in the table. */
  ghost predicate PagesStored(source: Source, lo: nat, hi: nat, pending: seq<Row>) {
    forall k :: lo <= k < hi ==> forall r :: r in source(CursorAt(source, k)).rows ==> r in pending
  }

  lemma {:induction false} AllInserted(pending: seq<Row>, capacity: nat, rows: seq<Row>)
    requires InsertRows(pending, capacity, rows).Ok?
    ensures pending <= InsertRows(pending, capacity, rows).value
    ensures forall r :: r in rows ==> r in InsertRows(pending, capacity, rows).value
    decreases |rows|
  {
    if rows != [] {
      AllInserted(pending, capacity, rows[..|rows| - 1]);
      assert forall r :: r in rows <==> r in rows[..|rows| - 1] || r == rows[|rows| - 1];
    }
  }

  /** The cursors seen by a call are those of the path from its first one on. */
  ghost predicate SeenPath(source: Source, seen: set<Option<Cursor>>, lo: nat, hi: nat) {
    && (forall c :: c in seen ==> exists k :: lo <= k <= hi && CursorAt(source, k) == c)
    && (forall k :: lo <= k <= hi ==> CursorAt(source, k) in seen)
  }

  /** The seen set decides whether the next cursor repeats one of this call. */
  lemma CycleStep(source: Source, seen: set<Option<Cursor>>, lo: nat, hi: nat)
    requires lo <= hi && SeenPath(source, seen, lo, hi) && !CyclesWithin(source, lo, hi)
    ensures CyclesWithin(source, lo, hi + 1) <==> CursorAt(source, hi + 1).Some? && CursorAt(source, hi + 1) in seen
    ensures SeenPath(source, seen + {CursorAt(source, hi + 1)}, lo, hi + 1)
  {
    hide CursorAt;
    var grown := seen + {CursorAt(source, hi + 1)};
    forall c | c in grown ensures exists k :: lo <= k <= hi + 1 && CursorAt(source, k) == c {
      if c in seen {
        var k :| lo <= k <= hi && CursorAt(source, k) == c;
      }
    }
    if CursorAt(source, hi + 1).Some? && CursorAt(source, hi + 1) in seen {
      var k :| lo <= k <= hi && CursorAt(source, k) == CursorAt(source, hi + 1);
    }
  }

  /** Rows of the pages lo..hi-1 of the path, in order. */
  function PathRows(source: Source, lo: nat, hi: nat): seq<Row>
    decreases hi
  {
    if hi <= lo then [] else PathRows(source, lo, hi - 1) + source(CursorAt(source, hi - 1)).rows
  }

  /** The pages a call has to read: what the path has left, at most max. */
  function PagesDue(source: Source, cp: Checkpoint, max: nat): nat {
    if cp.complete then 0 else DueFrom(source, cp.revision, max)
  }

  function DueFrom(source: Source, r: nat, max: nat): (n: nat)
    ensures n <= max && (max > 0 ==> n > 0)
    ensures forall k :: r < k < r + n ==> CursorAt(source, k).Some?
    ensures n < max ==> CursorAt(source, r + n).None?
    decreases max
  {
    if max == 0 then 0
    else if CursorAt(source, r + 1).None? then 1
    else 1 + DueFrom(source, r + 1, max - 1)
  }

  // -------------------------------------------------------------------------
  // Which rows a table takes
  // -------------------------------------------------------------------------

  /** Two rows share an id and differ in their bodies. */
  predicate Conflict(rows: seq<Row>) {
    exists i, j :: 0 <= i < j < |rows| && rows[i].id == rows[j].id && rows[i].body != rows[j].body
  }

  function Ids(rows: seq<Row>): set<EventId> {
    set i | 0 <= i < |rows| :: rows[i].id
  }

  /** No new id, or all ids together fit. */
  predicate HasRoom(pending: seq<Row>, capacity: nat, rows: seq<Row>) {
    Ids(rows) <= Ids(pending) || |Ids(pending) + Ids(rows)| <= capacity
  }

  predicate Storable(pending: seq<Row>, capacity: nat, rows: seq<Row>) {
    !Conflict(pending + rows) && HasRoom(pending, capacity, rows)
  }

  lemma IdIn(rows: seq<Row>, id: EventId)
    ensures id in Ids(rows) <==> exists body :: Row(id, body) in rows
  {
    if id in Ids(rows) {
      var i :| 0 <= i < |rows| && rows[i].id == id;
      assert Row(id, rows[i].body) in rows;
    }
  }

  lemma IdsSnoc(rows: seq<Row>, r: Row)
    ensures Ids(rows + [r]) == Ids(rows) + {r.id}
  {
    var all := rows + [r];
    forall id | id in Ids(rows) + {r.id} ensures id in Ids(all) {
      if id in Ids(rows) {
        var i :| 0 <= i < |rows| && rows[i].id == id;
        assert all[i].id == id;
      } else {
        assert all[|rows|].id == id;
      }
    }
  }

  lemma {:induction false} IdCount(rows: seq<Row>)
    requires UniqueIds(rows)
    ensures |Ids(rows)| == |rows|
    decreases |rows|
  {
    if rows == [] {
      assert Ids(rows) == {};
    } else {
      var n := |rows| - 1;
      assert rows[..n] + [rows[n]] == rows;
      IdsSnoc(rows[..n], rows[n]);
      IdCount(rows[..n]);
    }
  }

  /** A further row conflicts with an earlier one, or there was a conflict before. */
  lemma ConflictSnoc(rows: seq<Row>, r: Row)
    ensures Conflict(rows + [r]) <==> Conflict(rows) || exists body :: Row(r.id, body) in rows && body != r.body
  {
    var all := rows + [r];
    if Conflict(rows) {
      var i, j :| 0 <= i < j < |rows| && rows[i].id == rows[j].id && rows[i].body != rows[j].body;
      assert all[i].id == all[j].id && all[i].body != all[j].body;
    }
    if body :| Row(r.id, body) in rows && body != r.body {
      var i :| 0 <= i < |rows| && rows[i] == Row(r.id, body);
      assert all[i].id == all[|rows|].id && all[i].body != all[|rows|].body;
    }
    if Conflict(all) {
      var i, j :| 0 <= i < j < |all| && all[i].id == all[j].id && all[i].body != all[j].body;
      if j == |rows| {
        assert Row(r.id, rows[i].body) in rows;
      } else {
        assert rows[i].id == rows[j].id && rows[i].body != rows[j].body;
      }
    }
  }

  /** With unique ids in the table, it takes a list of rows exactly when nothing conflicts and there is room. */
  lemma {:induction false} InsertRowsIff(pending: seq<Row>, capacity: nat, rows: seq<Row>)
    requires UniqueIds(pending)
    ensures InsertRows(pending, capacity, rows).Ok? <==> Storable(pending, capacity, rows)
    ensures InsertRows(pending, capacity, rows).Ok? ==> Ids(InsertRows(pending, capacity, rows).value) == Ids(pending) + Ids(rows)
    ensures InsertRows(pending, capacity, rows).Err? ==>
              match InsertRows(pending, capacity, rows).error
              case Collision => Conflict(pending + rows)
              case Full => !HasRoom(pending, capacity, rows)
              case _ => false
    decreases |rows|
  {
    if rows == [] {
      NoRows(pending, capacity);
    } else {
      hide Conflict, Ids, UniqueIds, BodyOf, InsertRow;
      var n := |rows| - 1;
      var front := rows[..n];
      assert front + [rows[n]] == rows && pending + rows == pending + front + [rows[n]];
      InsertRowsIff(pending, capacity, front);
      IdsSnoc(front, rows[n]);
      ConflictSnoc(pending + front, rows[n]);
      if InsertRows(pending, capacity, front).Ok? {
        InsertedRows(pending, capacity, front);
        InsertRowIff(pending, capacity, front, rows[n]);
      } else {
        RoomShrinks(pending, capacity, front, rows[n]);
      }
    }
  }

  lemma NoRows(pending: seq<Row>, capacity: nat)
    requires UniqueIds(pending)
    ensures Storable(pending, capacity, []) && Ids(pending) == Ids(pending) + Ids([])
  {
    assert pending + [] == pending;
  }

  lemma RoomShrinks(pending: seq<Row>, capacity: nat, rows: seq<Row>, r: Row)
    ensures HasRoom(pending, capacity, rows + [r]) ==> HasRoom(pending, capacity, rows)
  {
    hide Ids;
    IdsSnoc(rows, r);
    SubsetSize(Ids(pending) + Ids(rows), Ids(pending) + Ids(rows + [r]));
  }

  lemma SubsetSize(a: set<EventId>, b: set<EventId>)
    requires a <= b
    ensures |a| <= |b|
  {
    assert b == a + (b - a);
  }

  lemma InsertRowIff(pending: seq<Row>, capacity: nat, front: seq<Row>, r: Row)
    requires UniqueIds(pending) && InsertRows(pending, capacity, front).Ok? && Storable(pending, capacity, front)
    requires Ids(InsertRows(pending, capacity, front).value) == Ids(pending) + Ids(front)
    ensures var p := InsertRows(pending, capacity, front).value;
            var clash := exists body :: Row(r.id, body) in pending + front && body != r.body;
            && (InsertRow(p, capacity, r).Ok? <==> !clash && HasRoom(pending, capacity, front + [r]))
            && (InsertRow(p, capacity, r).Ok? ==> Ids(InsertRow(p, capacity, r).value) == Ids(pending) + Ids(front + [r]))
            && (InsertRow(p, capacity, r).Err? ==>
                  match InsertRow(p, capacity, r).error
                  case Collision => clash
                  case Full => !HasRoom(pending, capacity, front + [r])
                  case _ => false)
  {
    hide InsertRows, Ids, UniqueIds;
    var p := InsertRows(pending, capacity, front).value;
    InsertedRows(pending, capacity, front);
    IdsSnoc(front, r);
    IdsSnoc(p, r);
    IdCount(p);
    IdIn(p, r.id);
    assert forall x :: x in pending + front <==> x in p;
    if BodyOf(p, r.id).Some? {
      var body := BodyOf(p, r.id).value;
      assert Row(r.id, body) in pending + front;
      SameId(p, r.id, body);
      assert r.id in Ids(p) && Ids(pending) + Ids(front + [r]) == Ids(pending) + Ids(front);
      assert HasRoom(pending, capacity, front + [r]);
    } else {
      assert |Ids(p) + {r.id}| == |p| + 1;
      assert Ids(pending) + Ids(front + [r]) == Ids(p) + {r.id};
    }
  }

  /** One body per id. */
  lemma SameId(rows: seq<Row>, id: EventId, body: Body)
    requires UniqueIds(rows) && Row(id, body) in rows
    ensures forall other :: Row(id, other) in rows ==> other == body
  {
    forall other | Row(id, other) in rows ensures other == body {
      var i :| 0 <= i < |rows| && rows[i] == Row(id, body);
      var j :| 0 <= j < |rows| && rows[j] == Row(id, other);
    }
  }

  lemma {:induction false} InsertAppend(pending: seq<Row>, capacity: nat, a: seq<Row>, b: seq<Row>)
    ensures InsertRows(pending, capacity, a + b)
            == match InsertRows(pending, capacity, a)
               case Err(e) => Err(e)
               case Ok(p) => InsertRows(p, capacity, b)
    decreases |b|
  {
    if b == [] {
      assert a + b == a;
    } else {
      hide InsertRow;
      var n, all := |b| - 1, a + b;
      InsertAppend(pending, capacity, a, b[..n]);
      assert all[..|all| - 1] == a + b[..n] && all[|all| - 1] == b[n];
    }
  }

  /** A longer stretch of the path has the repetitions of a shorter one. */
  lemma CyclesWiden(source: Source, lo: nat, hi: nat, more: nat)
    requires CyclesWithin(source, lo, hi) && hi <= more
    ensures CyclesWithin(source, lo, more)
  {
    hide CursorAt;
    var i, j :| lo <= i < j <= hi && CursorAt(source, j).Some? && CursorAt(source, i) == CursorAt(source, j);
  }

  // -------------------------------------------------------------------------
  // When a call succeeds, and why it stops otherwise
  // -------------------------------------------------------------------------

  /**
   The import is this source's, and the pages due stay below the revision limit,
   have a checkpoint slot, repeat no id within a page and no cursor, and fit the
   table.
   */
  ghost predicate Importable(s: Setup, db: Db, maxPages: nat) {
    var cp := Stored(s, db);
    var n := PagesDue(s.source, cp, maxPages);
    && cp.binding == s.binding
    && (n > 0 ==>
          && cp.revision + n <= MAX_REVISIONS
          && (cp.revision > 0 || |db.checkpoints| < MAX_IMPORTS)
          && (forall k :: cp.revision <= k < cp.revision + n ==> UniqueIds(s.source(CursorAt(s.source, k)).rows))
          && !CyclesWithin(s.source, cp.revision, cp.revision + n)
          && Storable(db.pending, s.capacity, PathRows(s.source, cp.revision, cp.revision + n)))
  }

  /** What is wrong with the next page where a call stops with an error. */
  ghost predicate Refuses(s: Setup, db: Db, first: nat, error: ImportError) {
    var cp := Stored(s, db);
    var rows := s.source(CursorAt(s.source, cp.revision)).rows;
    !cp.complete &&
    match error
    case PageLimit => cp.revision >= MAX_REVISIONS
    case CursorCycle => CyclesWithin(s.source, first, cp.revision + 1)
    case DuplicateIdentity => !UniqueIds(rows)
    case CheckpointCapacity => cp.revision == 0 && |db.checkpoints| >= MAX_IMPORTS
    case Collision => Conflict(db.pending + rows)
    case Full => !HasRoom(db.pending, s.capacity, rows)
    case _ => false
  }

  /** A call under way: so many pages read, all stored, and what is still due. */
  ghost predicate Underway(s: Setup, begun: Db, db: Db, maxPages: nat, pages: nat) {
    var first, cp := Stored(s, begun), Stored(s, db);
    && OnPath(s, cp) && cp.revision == first.revision + pages && pages <= maxPages
    && PagesDue(s.source, first, maxPages) == pages + PagesDue(s.source, cp, maxPages - pages)
    && InsertRows(begun.pending, s.capacity, PathRows(s.source, first.revision, cp.revision)) == Ok(db.pending)
    && (forall k :: first.revision <= k < cp.revision ==> UniqueIds(s.source(CursorAt(s.source, k)).rows))
    && (pages == 0 ==> db == begun)
    && (pages > 0 ==> cp.revision <= MAX_REVISIONS && (first.revision > 0 || |begun.checkpoints| < MAX_IMPORTS))
  }

  lemma {:induction false} PathRowsSplit(source: Source, lo: nat, mid: nat, hi: nat)
    requires lo <= mid <= hi
    ensures PathRows(source, lo, hi) == PathRows(source, lo, mid) + PathRows(source, mid, hi)
    decreases hi
  {
    if mid < hi {
      hide CursorAt;
      PathRowsSplit(source, lo, mid, hi - 1);
    }
  }

  lemma NotBegun(s: Setup, db: Db, maxPages: nat)
    requires OnPath(s, Stored(s, db))
    ensures Underway(s, db, db, maxPages, 0)
  {
    hide OnPath;
    assert PathRows(s.source, Stored(s, db).revision, Stored(s, db).revision) == [];
  }

  /** A committed page is stored behind the others. */
  lemma PageRead(s: Setup, begun: Db, db: Db, maxPages: nat, pages: nat, page: Page)
    requires Underway(s, begun, db, maxPages, pages) && pages < maxPages
    requires Stored(s, db).revision < MAX_REVISIONS && page == s.source(Stored(s, db).cursor)
    requires CommitPage(db, s.capacity, s.id, s.binding, Stored(s, db).revision, page.rows, page.next).Ok?
    ensures Underway(s, begun, CommitPage(db, s.capacity, s.id, s.binding, Stored(s, db).revision, page.rows, page.next).value,
                     maxPages, pages + 1)
  {
    hide InsertRows, UniqueIds;
    var first, cp := Stored(s, begun), Stored(s, db);
    var db' := CommitPage(db, s.capacity, s.id, s.binding, cp.revision, page.rows, page.next).value;
    CommitAdvances(s, db, cp, page);
    InsertAppend(begun.pending, s.capacity, PathRows(s.source, first.revision, cp.revision), page.rows);
    assert PathRows(s.source, first.revision, cp.revision + 1) == PathRows(s.source, first.revision, cp.revision) + page.rows;
  }

  /** The page after those read is due as well. */
  lemma OneMoreDue(s: Setup, begun: Db, db: Db, maxPages: nat, pages: nat)
    requires Underway(s, begun, db, maxPages, pages) && pages < maxPages && !Stored(s, db).complete
    ensures PagesDue(s.source, Stored(s, begun), maxPages) >= pages + 1
    ensures var first, n := Stored(s, begun).revision, PagesDue(s.source, Stored(s, begun), maxPages);
            PathRows(s.source, first, first + n)
            == PathRows(s.source, first, first + pages) + s.source(CursorAt(s.source, first + pages)).rows
               + PathRows(s.source, first + pages + 1, first + n)
  {
    hide OnPath, InsertRows, UniqueIds, CursorAt;
    var first, n := Stored(s, begun).revision, PagesDue(s.source, Stored(s, begun), maxPages);
    PathRowsSplit(s.source, first, first + pages + 1, first + n);
  }

  /** A page that the table does not take makes the rows of the call too many. */
  lemma NotStorable(s: Setup, begun: Db, db: Db, maxPages: nat, pages: nat)
    requires Underway(s, begun, db, maxPages, pages) && pages < maxPages && !Stored(s, db).complete && UniqueIds(begun.pending)
    requires InsertRows(db.pending, s.capacity, s.source(Stored(s, db).cursor).rows).Err?
    ensures !Importable(s, begun, maxPages)
  {
    hide InsertRows, UniqueIds, Storable, CyclesWithin, CursorAt;
    var first, n := Stored(s, begun).revision, PagesDue(s.source, Stored(s, begun), maxPages);
    var rows := s.source(CursorAt(s.source, first + pages)).rows;
    PathCursor(s, Stored(s, db));
    OneMoreDue(s, begun, db, maxPages, pages);
    InsertAppend(begun.pending, s.capacity, PathRows(s.source, first, first + pages), rows);
    InsertAppend(begun.pending, s.capacity, PathRows(s.source, first, first + pages) + rows,
                 PathRows(s.source, first + pages + 1, first + n));
    InsertRowsIff(begun.pending, s.capacity, PathRows(s.source, first, first + n));
  }

  /** Where a call stops, the reason is one for which the pages due cannot be imported. */
  lemma CallStops(s: Setup, begun: Db, db: Db, maxPages: nat, pages: nat, error: ImportError)
    requires Underway(s, begun, db, maxPages, pages) && pages < maxPages && UniqueIds(begun.pending)
    requires Refuses(s, db, Stored(s, begun).revision, error)
    requires error.Collision? || error.Full? ==> InsertRows(db.pending, s.capacity, s.source(Stored(s, db).cursor).rows).Err?
    ensures !Importable(s, begun, maxPages)
  {
    hide OnPath, InsertRows, UniqueIds, Storable, CyclesWithin, CursorAt;
    var first, cp := Stored(s, begun), Stored(s, db);
    OneMoreDue(s, begun, db, maxPages, pages);
    if error.CursorCycle? {
      CyclesWiden(s.source, first.revision, cp.revision + 1, first.revision + PagesDue(s.source, first, maxPages));
    } else if error.Collision? || error.Full? {
      NotStorable(s, begun, db, maxPages, pages);
    }
  }

  lemma {:induction false} StillUnique(s: Setup, begun: Db, db: Db, maxPages: nat, pages: nat)
    requires Underway(s, begun, db, maxPages, pages) && UniqueIds(begun.pending)
    ensures UniqueIds(db.pending)
    ensures var rows := PathRows(s.source, Stored(s, begun).revision, Stored(s, db).revision);
            forall r :: r in db.pending <==> r in begun.pending || r in rows
  {
    hide UniqueIds, InsertRows;
    InsertedRows(begun.pending, s.capacity, PathRows(s.source, Stored(s, begun).revision, Stored(s, db).revision));
  }

  lemma {:induction false} PathRowsAre(source: Source, lo: nat, hi: nat, k: nat)
    requires lo <= k < hi
    ensures forall r :: r in source(CursorAt(source, k)).rows ==> r in PathRows(source, lo, hi)
    decreases hi
  {
    if k < hi - 1 {
      hide CursorAt;
      PathRowsAre(source, lo, hi - 1, k);
    }
  }

  /** What a call has stored wherever it ends. */
  lemma CallLeaves(s: Setup, begun: Db, db: Db, maxPages: nat, pages: nat)
    requires Underway(s, begun, db, maxPages, pages)
    ensures OnPath(s, Stored(s, db)) && begun.pending <= db.pending
    ensures PagesStored(s.source, Stored(s, begun).revision, Stored(s, db).revision, db.pending)
    ensures UniqueIds(begun.pending) ==>
              var rows := PathRows(s.source, Stored(s, begun).revision, Stored(s, db).revision);
              UniqueIds(db.pending) && forall r :: r in db.pending <==> r in begun.pending || r in rows
  {
    hide UniqueIds, InsertRows, OnPath, CursorAt;
    var lo, hi := Stored(s, begun).revision, Stored(s, db).revision;
    AllInserted(begun.pending, s.capacity, PathRows(s.source, lo, hi));
    if UniqueIds(begun.pending) {
      StillUnique(s, begun, db, maxPages, pages);
    }
    forall k | lo <= k < hi ensures forall r :: r in s.source(CursorAt(s.source, k)).rows ==> r in db.pending {
      PathRowsAre(s.source, lo, hi, k);
    }
  }

  /** What a failed commit says about its page. */
  lemma CommitRefuses(s: Setup, begun: Db, db: Db, maxPages: nat, pages: nat, page: Page)
    requires Underway(s, begun, db, maxPages, pages) && UniqueIds(begun.pending) && !Stored(s, db).complete
    requires !CyclesWithin(s.source, Stored(s, begun).revision, Stored(s, db).revision + 1)
    requires page == s.source(Stored(s, db).cursor)
    requires CommitPage(db, s.capacity, s.id, s.binding, Stored(s, db).revision, page.rows, page.next).Err?
    ensures var e := CommitPage(db, s.capacity, s.id, s.binding, Stored(s, db).revision, page.rows, page.next).error;
            && Refuses(s, db, Stored(s, begun).revision, e)
            && (e.Collision? || e.Full? ==> InsertRows(db.pending, s.capacity, page.rows).Err?)
  {
    hide InsertRows, UniqueIds, Conflict, HasRoom;
    var cp := Stored(s, db);
    StillUnique(s, begun, db, maxPages, pages);
    InsertRowsIff(db.pending, s.capacity, page.rows);
    NextCursor(s.source, cp.revision);
  }

  lemma Stopped(s: Setup, begun: Db, db: Db, maxPages: nat, pages: nat, error: ImportError)
    requires Underway(s, begun, db, maxPages, pages) && pages < maxPages && (error.PageLimit? || error.CursorCycle?)
    requires Refuses(s, db, Stored(s, begun).revision, error)
    ensures UniqueIds(begun.pending) ==> !Importable(s, begun, maxPages)
  {
    hide Underway, UniqueIds, Importable, Refuses;
    if UniqueIds(begun.pending) {
      CallStops(s, begun, db, maxPages, pages, error);
    }
  }

  lemma NotCommitted(s: Setup, begun: Db, db: Db, maxPages: nat, pages: nat, page: Page)
    requires Underway(s, begun, db, maxPages, pages) && pages < maxPages && !Stored(s, db).complete
    requires !CyclesWithin(s.source, Stored(s, begun).revision, Stored(s, db).revision + 1)
    requires page == s.source(Stored(s, db).cursor)
    requires CommitPage(db, s.capacity, s.id, s.binding, Stored(s, db).revision, page.rows, page.next).Err?
    ensures var e := CommitPage(db, s.capacity, s.id, s.binding, Stored(s, db).revision, page.rows, page.next).error;
            UniqueIds(begun.pending) ==> Refuses(s, db, Stored(s, begun).revision, e) && !Importable(s, begun, maxPages)
  {
    hide Underway, UniqueIds, Importable, Refuses, CommitPage, InsertRows, CyclesWithin;
    if UniqueIds(begun.pending) {
      var e := CommitPage(db, s.capacity, s.id, s.binding, Stored(s, db).revision, page.rows, page.next).error;
      CommitRefuses(s, begun, db, maxPages, pages, page);
      CallStops(s, begun, db, maxPages, pages, e);
    }
  }

  /** A call that has read all pages due had nothing in its way. */
  lemma CallDone(s: Setup, begun: Db, db: Db, maxPages: nat, pages: nat)
    requires Underway(s, begun, db, maxPages, pages) && UniqueIds(begun.pending)
    requires Stored(s, begun).binding == s.binding && (Stored(s, db).complete || pages == maxPages)
    requires !CyclesWithin(s.source, Stored(s, begun).revision, Stored(s, db).revision)
    ensures Importable(s, begun, maxPages) && pages == PagesDue(s.source, Stored(s, begun), maxPages)
  {
    hide OnPath, InsertRows, UniqueIds, Storable, CyclesWithin, CursorAt;
    InsertRowsIff(begun.pending, s.capacity, PathRows(s.source, Stored(s, begun).revision, Stored(s, db).revision));
  }

  /**
   importLangfuseWindow: stores and commits the next pages of the path, up to the
   page limit of the call or the end of the path. It returns normally exactly if
   those pages can all be imported, and otherwise says what is wrong with the page
   after those stored. A cycle is reported only if a cursor comes twice within the
   call's own pages.
   */
  method ImportWindow(q: DurableQueue, s: Setup, maxPages: nat) returns (r: Result<(nat, Checkpoint), ImportError>)
    requires q.capacity == s.capacity
    requires CheckpointOf(q.View(), s.id, s.binding).Ok? ==> OnPath(s, Stored(s, q.View()))
    modifies q
    ensures CheckpointOf(old(q.View()), s.id, s.binding).Err? ==> r == Err(OtherSource) && q.View() == old(q.View())
    ensures CheckpointOf(old(q.View()), s.id, s.binding).Ok? ==>
              var first, cp := Stored(s, old(q.View())).revision, Stored(s, q.View());
              && OnPath(s, cp) && cp.revision >= first
              && old(q.pending) <= q.pending && PagesStored(s.source, first, cp.revision, q.pending)
              && (r == Err(CursorCycle) ==> CyclesWithin(s.source, first, first + maxPages))
              && (r.Ok? && !cp.complete ==> !CyclesWithin(s.source, first, first + maxPages))
    ensures r.Ok? ==>
              var (pages, cp) := r.value;
              && cp == Stored(s, q.View()) && cp.revision == Stored(s, old(q.View())).revision + pages
              && pages <= maxPages && (cp.complete || pages == maxPages)
    ensures UniqueIds(old(q.pending)) ==> (r.Ok? <==> Importable(s, old(q.View()), maxPages))
    ensures UniqueIds(old(q.pending)) && r.Ok? ==> r.value.0 == PagesDue(s.source, Stored(s, old(q.View())), maxPages)
    ensures UniqueIds(old(q.pending)) && r.Err? && CheckpointOf(old(q.View()), s.id, s.binding).Ok? ==>
              Refuses(s, q.View(), Stored(s, old(q.View())).revision, r.error)
    ensures UniqueIds(old(q.pending)) && CheckpointOf(old(q.View()), s.id, s.binding).Ok? ==>
              var rows := PathRows(s.source, Stored(s, old(q.View())).revision, Stored(s, q.View()).revision);
              UniqueIds(q.pending) && forall x :: x in q.pending <==> x in old(q.pending) || x in rows
  {
    hide OnPath, InsertRows, CyclesWithin, SeenPath, CursorAt, PagesStored, Underway, Importable, UniqueIds, PathRows, PagesDue;
    ghost var begun := q.View();
    if s.id in q.checkpoints && q.checkpoints[s.id].binding != s.binding {
      assert !Importable(s, begun, maxPages) by { WrongSource(s, begun, maxPages); }
      return Err(OtherSource);
    }
    var cp := Checkpoint(s.binding, 0, None, false);
    if s.id in q.checkpoints {
      cp := q.checkpoints[s.id];
    }
    var pages, seen := 0, {cp.cursor};
    ghost var first := cp.revision;
    PathCursor(s, cp);
    CallStarts(s.source, first);
    NotBegun(s, begun, maxPages);
    while !cp.complete && pages < maxPages
      invariant cp == Stored(s, q.View()) && pages <= maxPages && cp.revision == first + pages
      invariant SeenPath(s.source, seen, first, cp.revision) && !CyclesWithin(s.source, first, cp.revision)
      invariant Underway(s, begun, q.View(), maxPages, pages)
      decreases maxPages - pages
    {
      ghost var db := q.View();
      CallLeaves(s, begun, db, maxPages, pages);
      PathCursor(s, cp);
      if cp.revision >= MAX_REVISIONS {
        Stopped(s, begun, db, maxPages, pages, PageLimit);
        return Err(PageLimit);
      }
      var page := s.source(cp.cursor);
      NextCursor(s.source, cp.revision);
      CycleStep(s.source, seen, first, cp.revision);
      if page.next.Some? && page.next in seen {
        CyclesWiden(s.source, first, cp.revision + 1, first + maxPages);
        Stopped(s, begun, db, maxPages, pages, CursorCycle);
        return Err(CursorCycle);
      }
      CommitErrors(db, s, cp.revision, page.rows, page.next);
      var error := q.CommitImportPage(s.id, s.binding, cp.revision, page.rows, page.next);
      if error.Some? {
        NotCommitted(s, begun, db, maxPages, pages, page);
        return Err(error.value);
      }
      CommitAdvances(s, db, cp, page);
      PageRead(s, begun, db, maxPages, pages, page);
      PathCursor(s, q.checkpoints[s.id]);
      cp := q.checkpoints[s.id];
      seen := seen + {cp.cursor};
      pages := pages + 1;
    }
    CallLeaves(s, begun, q.View(), maxPages, pages);
    if UniqueIds(begun.pending) {
      CallDone(s, begun, q.View(), maxPages, pages);
    }
    return Ok((pages, cp));
  }

  lemma WrongSource(s: Setup, db: Db, maxPages: nat)
    requires Stored(s, db).binding != s.binding
    ensures !Importable(s, db, maxPages)
  {
  }

  lemma CallStarts(source: Source, first: nat)
    ensures SeenPath(source, {CursorAt(source, first)}, first, first) && !CyclesWithin(source, first, first)
  {
  }

  lemma NextCursor(source: Source, r: nat)
    ensures CursorAt(source, r + 1) == source(CursorAt(source, r)).next
  {
  }

  lemma PathCursor(s: Setup, cp: Checkpoint)
    requires OnPath(s, cp)
    ensures cp.cursor == CursorAt(s.source, cp.revision) && cp.binding == s.binding
  {
  }

  /** The transaction itself never reports a cycle. */
  lemma {:induction false} CommitErrors(db: Db, s: Setup, expected: nat, rows: seq<Row>, next: Option<Cursor>)
    ensures CommitPage(db, s.capacity, s.id, s.binding, expected, rows, next) != Err(CursorCycle)
  {
    InsertErrors(db.pending, s.capacity, rows);
  }

  lemma {:induction false} InsertErrors(pending: seq<Row>, capacity: nat, rows: seq<Row>)
    ensures InsertRows(pending, capacity, rows) != Err(CursorCycle)
    decreases |rows|
  {
    if rows != [] {
      InsertErrors(pending, capacity, rows[..|rows| - 1]);
    }
  }

  // -------------------------------------------------------------------------
  // The steps of a call and of a flush that nothing interrupts
  // -------------------------------------------------------------------------

  function After(s: Setup, w: World, steps: seq<Step>): World {
    if steps == [] then w else Next(s, After(s, w, steps[..|steps| - 1]), steps[|steps| - 1])
  }

  lemma AfterSnoc(s: Setup, w: World, steps: seq<Step>, step: Step)
    ensures After(s, w, steps + [step]) == Next(s, After(s, w, steps), step)
  {
    hide Next;
    assert (steps + [step])[..|steps|] == steps;
  }

  /** Begin, then n pages, each fetched and committed. */
  function CallSteps(who: nat, maxPages: nat, n: nat): seq<Step> {
    if n == 0 then [Begin(who, maxPages)] else CallSteps(who, maxPages, n - 1) + [Fetch(who)] + [Commit(who)]
  }

  /** The importer has read so many pages of its call and holds the stored checkpoint. */
  ghost predicate Importing(s: Setup, begun: World, w: World, who: nat, maxPages: nat, pages: nat) {
    var first, cp := Stored(s, begun.db), Stored(s, w.db);
    && Underway(s, begun.db, w.db, maxPages, pages)
    && |w.committed| == |begun.committed| + pages
    && who in w.importers && w.importers[who].checkpoint == cp
    && w.importers[who].maxPages == maxPages && w.importers[who].pages == pages && w.importers[who].fetched.None?
    && SeenPath(s.source, w.importers[who].seen, first.revision, cp.revision)
  }

  lemma CallBegins(s: Setup, w: World, who: nat, maxPages: nat)
    requires Inv(s, w) && Stored(s, w.db).binding == s.binding
    ensures Importing(s, w, Next(s, w, Begin(who, maxPages)), who, maxPages, 0)
  {
    hide OnPath, Underway, SeenPath, CursorAt;
    NotBegun(s, w.db, maxPages);
    PathCursor(s, Stored(s, w.db));
    CallStarts(s.source, Stored(s, w.db).revision);
  }

  /** Nothing is wrong with the next page of an importable call. */
  lemma NextPageGood(s: Setup, begun: World, w: World, who: nat, maxPages: nat, pages: nat)
    requires Importing(s, begun, w, who, maxPages, pages) && Importable(s, begun.db, maxPages) && UniqueIds(begun.db.pending)
    requires pages < PagesDue(s.source, Stored(s, begun.db), maxPages)
    ensures var cp := Stored(s, w.db);
            var page := s.source(cp.cursor);
            && !cp.complete && pages < maxPages && cp.revision < MAX_REVISIONS
            && (page.next.Some? ==> page.next !in w.importers[who].seen)
            && SeenPath(s.source, w.importers[who].seen + {page.next}, Stored(s, begun.db).revision, cp.revision + 1)
            && CommitPage(w.db, s.capacity, s.id, s.binding, cp.revision, page.rows, page.next).Ok?
  {
    hide OnPath, CyclesWithin, SeenPath, CursorAt, InsertRows, Storable, UniqueIds, CommitPage;
    var first, cp, n := Stored(s, begun.db).revision, Stored(s, w.db), PagesDue(s.source, Stored(s, begun.db), maxPages);
    PathCursor(s, cp);
    NextCursor(s.source, cp.revision);
    if CyclesWithin(s.source, first, cp.revision) {
      CyclesWiden(s.source, first, cp.revision, first + n);
    }
    if CyclesWithin(s.source, first, cp.revision + 1) {
      CyclesWiden(s.source, first, cp.revision + 1, first + n);
    }
    CycleStep(s.source, w.importers[who].seen, first, cp.revision);
    var page := s.source(cp.cursor);
    if CommitPage(w.db, s.capacity, s.id, s.binding, cp.revision, page.rows, page.next).Err? {
      NotCommitted(s, begun.db, w.db, maxPages, pages, page);
    }
  }

  lemma PageImported(s: Setup, begun: World, w: World, who: nat, maxPages: nat, pages: nat)
    requires Importing(s, begun, w, who, maxPages, pages) && Importable(s, begun.db, maxPages) && UniqueIds(begun.db.pending)
    requires pages < PagesDue(s.source, Stored(s, begun.db), maxPages)
    ensures Importing(s, begun, Next(s, Next(s, w, Fetch(who)), Commit(who)), who, maxPages, pages + 1)
  {
    hide OnPath, CyclesWithin, SeenPath, CursorAt, InsertRows, Storable, UniqueIds, Importable, Underway, PagesDue;
    var cp := Stored(s, w.db);
    var page := s.source(cp.cursor);
    NextPageGood(s, begun, w, who, maxPages, pages);
    PageRead(s, begun.db, w.db, maxPages, pages, page);
    CommitMoves(s, w.db, page);
    var fetched := Next(s, w, Fetch(who));
    assert fetched == w.(importers := w.importers[who := w.importers[who].(fetched := Some(page))]);
  }

  lemma CommitMoves(s: Setup, db: Db, page: Page)
    requires CommitPage(db, s.capacity, s.id, s.binding, Stored(s, db).revision, page.rows, page.next).Ok?
    ensures var db' := CommitPage(db, s.capacity, s.id, s.binding, Stored(s, db).revision, page.rows, page.next).value;
            s.id in db'.checkpoints && Stored(s, db') == Checkpoint(s.binding, Stored(s, db).revision + 1, page.next, page.next.None?)
  {
    hide InsertRows;
  }

  /** An importer that nothing interrupts imports all pages due if they are importable, as ImportWindow does. */
  lemma {:induction false} AloneImports(s: Setup, w: World, who: nat, maxPages: nat, n: nat)
    requires Inv(s, w) && Importable(s, w.db, maxPages) && n <= PagesDue(s.source, Stored(s, w.db), maxPages)
    ensures Importing(s, w, After(s, w, CallSteps(who, maxPages, n)), who, maxPages, n)
    decreases n
  {
    hide Next, Importing, PagesDue, OnPath, UniqueIds, Storable, CyclesWithin;
    if n == 0 {
      CallBegins(s, w, who, maxPages);
      AfterSnoc(s, w, [], Begin(who, maxPages));
      assert [] + [Begin(who, maxPages)] == [Begin(who, maxPages)];
    } else {
      var steps := CallSteps(who, maxPages, n - 1);
      AloneImports(s, w, who, maxPages, n - 1);
      AfterSnoc(s, w, steps, Fetch(who));
      AfterSnoc(s, w, steps + [Fetch(who)], Commit(who));
      PageImported(s, w, After(s, w, steps), who, maxPages, n - 1);
    }
  }

  /** Where nothing is due any more, an importer fetches nothing. */
  lemma NothingFetched(s: Setup, w: World, who: nat)
    requires who in w.importers
    requires var im := w.importers[who];
             im.checkpoint.complete || im.pages >= im.maxPages || im.checkpoint.revision >= MAX_REVISIONS
    ensures Next(s, w, Fetch(who)) == w
  {
  }

  /** No call reads more pages than its limit, and no import more than 10000. */
  ghost predicate WithinPageLimits(s: Setup, w: World) {
    && (Stored(s, w.db).binding == s.binding ==> Stored(s, w.db).revision <= MAX_REVISIONS)
    && forall who :: who in w.importers ==>
         var im := w.importers[who];
         im.pages <= im.maxPages && (im.fetched.Some? ==> im.pages < im.maxPages && im.checkpoint.revision < MAX_REVISIONS)
  }

  lemma NextKeepsLimits(s: Setup, w: World, step: Step)
    requires WithinPageLimits(s, w)
    ensures WithinPageLimits(s, Next(s, w, step))
  {
    hide InsertRows, InsertRow, Without, UniqueIds;
  }

  lemma {:induction false} EveryRunWithinLimits(s: Setup, steps: seq<Step>)
    ensures WithinPageLimits(s, Run(s, steps))
    decreases |steps|
  {
    if steps != [] {
      hide Next, WithinPageLimits;
      EveryRunWithinLimits(s, steps[..|steps| - 1]);
      NextKeepsLimits(s, Run(s, steps[..|steps| - 1]), steps[|steps| - 1]);
    }
  }

  /** A call remembers every cursor it was at, and commits no page that leads back to one. */
  lemma CursorsRemembered(s: Setup, w: World, who: nat, step: Step)
    requires who in w.importers && w.importers[who].checkpoint.cursor in w.importers[who].seen
    requires !step.Begin? && who in Next(s, w, step).importers
    ensures var im, im' := w.importers[who], Next(s, w, step).importers[who];
            && im.seen <= im'.seen && im'.checkpoint.cursor in im'.seen
            && (step == Commit(who) && im'.pages != im.pages && im'.checkpoint.cursor.Some? ==> im'.checkpoint.cursor !in im.seen)
  {
    hide InsertRows, InsertRow, Without, UniqueIds;
  }

  /** A call begins with the cursor it starts from. */
  lemma CallRemembersStart(s: Setup, w: World, who: nat, maxPages: nat)
    requires Stored(s, w.db).binding == s.binding
    ensures var w' := Next(s, w, Begin(who, maxPages));
            who in w'.importers && w'.importers[who].checkpoint == Stored(s, w.db)
            && w'.importers[who].seen == {Stored(s, w.db).cursor} && w'.importers[who].pages == 0
  {
  }

  /** Reading the checkpoint again gives the stored one, whoever has moved it. */
  lemma RereadIsStored(s: Setup, w: World, who: nat)
    requires who in w.importers && w.importers[who].fetched.None? && Stored(s, w.db).binding == s.binding
    ensures var w' := Next(s, w, Reread(who)); who in w'.importers && w'.importers[who].checkpoint == Stored(s, w.db)
  {
  }

  /** Another import, under another id or of another source, commits its pages to the same table. */
  lemma OthersCommit(s: Setup, w: World, id: ImportId, binding: Binding, expected: nat, rows: seq<Row>, next: Option<Cursor>)
    requires id != s.id || binding != s.binding
    requires CommitPage(w.db, s.capacity, id, binding, expected, rows, next).Ok?
    ensures var w' := Next(s, w, OtherCommit(id, binding, expected, rows, next));
            && id in w'.db.checkpoints && w'.db.checkpoints[id].binding == binding && w'.db.checkpoints[id].revision == expected + 1
            && w'.committed == w.committed && InsertRows(w.db.pending, s.capacity, rows) == Ok(w'.db.pending)
  {
    hide InsertRows;
  }

  /** Deliver and delete the first n rows of the table, one after another. */
  function FlushSteps(rows: seq<Row>): seq<Step> {
    if rows == [] then []
    else FlushSteps(rows[..|rows| - 1]) + [Deliver(rows[|rows| - 1])] + [Delete(rows[|rows| - 1])]
  }

  lemma {:induction false} WithoutFirst(rows: seq<Row>)
    requires UniqueIds(rows) && rows != []
    ensures Without(rows, rows[0]) == rows[1..]
    decreases |rows|
  {
    var n := |rows| - 1;
    if n == 0 {
      assert rows[..0] == [];
    } else {
      WithoutFirst(rows[..n]);
      assert rows[..n][1..] + [rows[n]] == rows[1..];
    }
  }

  /** One row delivered and deleted. */
  lemma FlushOne(s: Setup, w: World)
    requires UniqueIds(w.db.pending) && w.db.pending != []
    ensures var r := w.db.pending[0];
            Next(s, Next(s, w, Deliver(r)), Delete(r))
            == w.(db := w.db.(pending := w.db.pending[1..]), delivered := w.delivered + {r})
  {
    hide Without, UniqueIds;
    WithoutFirst(w.db.pending);
  }

  /** A flush that nothing interrupts takes the oldest rows off the table, all of them delivered, as Flush does. */
  lemma {:induction false} AloneFlushes(s: Setup, w: World, n: nat)
    requires UniqueIds(w.db.pending) && n <= |w.db.pending|
    ensures var w' := After(s, w, FlushSteps(w.db.pending[..n]));
            w' == w.(db := w.db.(pending := w.db.pending[n..]), delivered := w.delivered + Members(w.db.pending[..n]))
    decreases n
  {
    hide Next, UniqueIds;
    var rows := w.db.pending;
    if n == 0 {
      assert FlushSteps(rows[..0]) == [] && rows[0..] == rows && Members(rows[..0]) == {};
    } else {
      var r, front := rows[n - 1], rows[..n - 1];
      assert rows[..n][..n - 1] == front;
      AloneFlushes(s, w, n - 1);
      AfterSnoc(s, w, FlushSteps(front), Deliver(r));
      AfterSnoc(s, w, FlushSteps(front) + [Deliver(r)], Delete(r));
      UniqueTail(rows, n - 1);
      assert rows[n - 1..][1..] == rows[n..];
      FlushOne(s, After(s, w, FlushSteps(front)));
      MembersSnoc(front, r);
      assert front + [r] == rows[..n];
    }
  }

  function Members(rows: seq<Row>): set<Row> {
    set i | 0 <= i < |rows| :: rows[i]
  }

  lemma MembersSnoc(rows: seq<Row>, r: Row)
    ensures Members(rows + [r]) == Members(rows) + {r}
  {
    var all := rows + [r];
    forall x | x in Members(rows) + {r} ensures x in Members(all) {
      if x in Members(rows) {
        var i :| 0 <= i < |rows| && rows[i] == x;
        assert all[i] == x;
      } else {
        assert all[|rows|] == x;
      }
    }
  }

  lemma UniqueTail(rows: seq<Row>, n: nat)
    requires UniqueIds(rows) && n <= |rows|
    ensures UniqueIds(rows[n..])
  {
  }

  // -------------------------------------------------------------------------
  // Which cycles a call sees
  // -------------------------------------------------------------------------

  /** A path that never ends and, from page i on, runs through a cycle of p different cursors. */
  ghost predicate Loops(source: Source, i: nat, p: nat) {
    && p >= 1
    && (forall k :: k > 0 ==> CursorAt(source, k).Some?)
    && CursorAt(source, i) == CursorAt(source, i + p)
    && (forall a, b :: i <= a < b < i + p ==> CursorAt(source, a) != CursorAt(source, b))
  }

  /** The path goes on alike from equal cursors. */
  lemma {:induction false} PathRepeats(source: Source, i: nat, j: nat, n: nat)
    requires CursorAt(source, i) == CursorAt(source, j)
    ensures CursorAt(source, i + n) == CursorAt(source, j + n)
    decreases n
  {
    if n > 0 {
      PathRepeats(source, i, j, n - 1);
    }
  }

  /** Every position has the cursor of one in the first round. */
  lemma {:induction false} FirstRound(source: Source, i: nat, p: nat, k: nat) returns (a: nat)
    requires Loops(source, i, p) && i <= k
    ensures i <= a < i + p && CursorAt(source, a) == CursorAt(source, k)
    ensures exists q: nat :: k == a + Product(q, p)
    decreases k
  {
    if k < i + p {
      a := k;
      assert k == a + Product(0, p);
    } else {
      hide CursorAt;
      a := FirstRound(source, i, p, k - p);
      PathRepeats(source, i, i + p, k - p - i);
      var q: nat :| k - p == a + Product(q, p);
      assert k == a + Product(q + 1, p);
    }
  }

  /** Less than a round apart, cursors differ. */
  lemma RoundDistinct(source: Source, i: nat, p: nat, a: nat, b: nat)
    requires Loops(source, i, p) && i <= a < b < a + p
    ensures CursorAt(source, a) != CursorAt(source, b)
  {
    hide CursorAt;
    var x := FirstRound(source, i, p, a);
    var y := FirstRound(source, i, p, b);
    if x == y {
      var q: nat :| a == x + Product(q, p);
      var r: nat :| b == x + Product(r, p);
      RoundsApart(q, r, p);
    }
  }

  lemma RoundsApart(q: nat, r: nat, p: nat)
    requires p >= 1 && Product(q, p) < Product(r, p)
    ensures Product(q, p) + p <= Product(r, p)
  {
    if r <= q {
      ProductMonotone(r, p, q, p);
    } else {
      ProductMonotone(q + 1, p, r, p);
    }
  }

  /** From any page in the cycle on, n more pages repeat a cursor exactly when the cycle is at most that long. */
  lemma CycleWithinIff(source: Source, i: nat, p: nat, first: nat, n: nat)
    requires Loops(source, i, p) && i <= first
    ensures CyclesWithin(source, first, first + n) <==> p <= n
  {
    hide CursorAt;
    if p <= n {
      PathRepeats(source, i, i + p, first - i);
      assert CursorAt(source, first) == CursorAt(source, first + p);
    }
    if CyclesWithin(source, first, first + n) {
      var a, b :| first <= a < b <= first + n && CursorAt(source, b).Some? && CursorAt(source, a) == CursorAt(source, b);
      if b < a + p {
        RoundDistinct(source, i, p, a, b);
      }
    }
  }

  /**
   A call that starts in a cycle reports it only if the cycle is at most as long
   as its page limit, and returns normally only if it is longer.
   */
  method ImportInCycle(q: DurableQueue, s: Setup, maxPages: nat, ghost i: nat, ghost p: nat)
    returns (r: Result<(nat, Checkpoint), ImportError>)
    requires q.capacity == s.capacity && Loops(s.source, i, p) && i <= Stored(s, q.View()).revision
    requires CheckpointOf(q.View(), s.id, s.binding).Ok? && OnPath(s, Stored(s, q.View()))
    modifies q
    ensures OnPath(s, Stored(s, q.View())) && !Stored(s, q.View()).complete
    ensures r == Err(CursorCycle) ==> p <= maxPages
    ensures r.Ok? ==> maxPages < p && r.value.0 == maxPages
  {
    hide CyclesWithin, PagesStored, CursorAt;
    CycleWithinIff(s.source, i, p, Stored(s, q.View()).revision, maxPages);
    r := ImportWindow(q, s, maxPages);
    assert Stored(s, q.View()).revision > 0 ==> CursorAt(s.source, Stored(s, q.View()).revision).Some?;
  }

  /** A source that alternates between two cursors. */
  function Alternating(): Source {
    (c: Option<Cursor>) => Page([], if c == Some(1) then Some(2) else Some(1))
  }

  lemma {:induction false} AlternatingCursor(k: nat)
    ensures CursorAt(Alternating(), k) == if k == 0 then None else if k % 2 == 1 then Some(1) else Some(2)
  {
    if k > 0 {
      AlternatingCursor(k - 1);
    }
  }

  /** An instance that calls of one page never see, however many follow each other. */
  lemma LongCycleUnseen(first: nat)
    requires first >= 1
    ensures Loops(Alternating(), 1, 2) && !CyclesWithin(Alternating(), first, first + 1)
  {
    forall k | k > 0 ensures CursorAt(Alternating(), k).Some? {
      AlternatingCursor(k);
    }
    AlternatingCursor(1);
    AlternatingCursor(2);
    AlternatingCursor(3);
    CycleWithinIff(Alternating(), 1, 2, first, 1);
  }
}
