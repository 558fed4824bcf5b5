/**
 The two-directory release: stage both builds, swap them in by renames, roll
 back when a service or the health check fails. Directories are a map from
 paths to builds; rename, systemctl and health outcomes come from oracles.
 */
module RuntimeRelease {
  import opened Wrappers

  datatype Component = Api | Worker

  datatype Path = Current(c: Component) | Stage(c: Component) | Previous(c: Component) | Failed(c: Component)

  datatype Build = Old | New

  type Dirs = map<Path, Build>

  /** The two RuntimeErrors that reach the caller are told apart by their messages. */
  datatype Exit =
    | Normal | OSError | CalledProcessError | TimeoutExpired | ValueError
    | PriorBuildRestored                              // RuntimeError: the prior build is back and healthy
    | RollbackUnhealthy                               // RuntimeError: it is back, but fails its health check

  /** How one systemctl call ends. */
  datatype Call = Succeeds | NonZero | TimesOut | CannotRun

  /**
   The environment of a release: the number of the one rename that fails, if
   any; the outcome of each systemctl call and of each health check; whether the
   archives verify, which of them unpack, and whether all units are active.
   */
  datatype Faults = Faults(
    failingRename: Option<nat>,
    call: nat -> Call,
    healthy: nat -> bool,
    archivesVerify: bool,
    unpacks: Component -> bool,
    unitsActive: bool,
    units: nat)

  // -------------------------------------------------------------------------
  // Renames and their undoing
  // -------------------------------------------------------------------------

  function Move(d: Dirs, from: Path, to: Path): Dirs {
    if from in d && to !in d then (d - {from})[to := d[from]] else d
  }

  type Rename = (Path, Path)

  function Moves(d: Dirs, rs: seq<Rename>): Dirs {
    if rs == [] then d else Move(Moves(d, rs[..|rs| - 1]), rs[|rs| - 1].0, rs[|rs| - 1].1)
  }

  /** Every rename of the list finds its source and a free destination. */
  predicate Movable(d: Dirs, rs: seq<Rename>) {
    rs == [] ||
    (var n := |rs| - 1;
     Movable(d, rs[..n]) && rs[n].0 in Moves(d, rs[..n]) && rs[n].1 !in Moves(d, rs[..n]))
  }

  lemma MoveBack(d: Dirs, from: Path, to: Path)
    requires from in d && to !in d
    ensures Move(Move(d, from, to), to, from) == d
    ensures to in Move(d, from, to) && from !in Move(d, from, to)
  {
  }

  function SwapRenames(): (rs: seq<Rename>)
    ensures |rs| == 4
  {
    [(Current(Api), Previous(Api)), (Stage(Api), Current(Api)),
     (Current(Worker), Previous(Worker)), (Stage(Worker), Current(Worker))]
  }

  function RestoreRenames(): (rs: seq<Rename>)
    ensures |rs| == 4
  {
    [(Current(Worker), Failed(Worker)), (Previous(Worker), Current(Worker)),
     (Current(Api), Failed(Api)), (Previous(Api), Current(Api))]
  }

  const OLD_ONLY: Dirs := map[Current(Api) := Old, Current(Worker) := Old]
  const STAGED: Dirs := map[Current(Api) := Old, Current(Worker) := Old, Stage(Api) := New, Stage(Worker) := New]
  const INSTALLED: Dirs := map[Current(Api) := New, Current(Worker) := New, Previous(Api) := Old, Previous(Worker) := Old]
  const ROLLED_BACK: Dirs := map[Current(Api) := Old, Current(Worker) := Old, Failed(Api) := New, Failed(Worker) := New]

  predicate CanMove(d: Dirs, r: Rename) {
    r.0 in d && r.1 !in d
  }

  lemma FourMoves(d: Dirs, a: Rename, b: Rename, c: Rename, e: Rename)
    requires CanMove(d, a) && CanMove(Move(d, a.0, a.1), b)
    requires CanMove(Move(Move(d, a.0, a.1), b.0, b.1), c)
    requires CanMove(Move(Move(Move(d, a.0, a.1), b.0, b.1), c.0, c.1), e)
    ensures Moves(d, [a, b, c, e]) == Move(Move(Move(Move(d, a.0, a.1), b.0, b.1), c.0, c.1), e.0, e.1)
    ensures Movable(d, [a, b, c, e])
  {
    hide Move;
    assert [a, b, c, e][..3] == [a, b, c] && [a, b, c][..2] == [a, b] && [a, b][..1] == [a] && [a][..0] == [];
    assert Moves(d, []) == d && Movable(d, []);
    assert Moves(d, [a]) == Move(d, a.0, a.1) && Movable(d, [a]);
    assert Moves(d, [a, b]) == Move(Move(d, a.0, a.1), b.0, b.1) && Movable(d, [a, b]);
    assert Moves(d, [a, b, c]) == Move(Moves(d, [a, b]), c.0, c.1) && Movable(d, [a, b, c]);
  }

  /** The swap installs the new builds and keeps the old ones beside them. */
  lemma SwapInstalls()
    ensures Movable(STAGED, SwapRenames()) && Moves(STAGED, SwapRenames()) == INSTALLED
  {
    var rs := SwapRenames();
    FourMoves(STAGED, rs[0], rs[1], rs[2], rs[3]);
    assert rs == [rs[0], rs[1], rs[2], rs[3]];
  }

  /** The restore brings the old builds back. */
  lemma RestoreRollsBack()
    ensures Movable(INSTALLED, RestoreRenames()) && Moves(INSTALLED, RestoreRenames()) == ROLLED_BACK
  {
    var rs := RestoreRenames();
    FourMoves(INSTALLED, rs[0], rs[1], rs[2], rs[3]);
    assert rs == [rs[0], rs[1], rs[2], rs[3]];
  }

  lemma {:induction false} MovablePrefix(d: Dirs, rs: seq<Rename>, k: nat)
    requires Movable(d, rs) && k < |rs|
    ensures Movable(d, rs[..k]) && rs[k].0 in Moves(d, rs[..k]) && rs[k].1 !in Moves(d, rs[..k])
    ensures Moves(d, rs[..k + 1]) == Move(Moves(d, rs[..k]), rs[k].0, rs[k].1)
    decreases |rs|
  {
    assert rs[..k + 1][..k] == rs[..k];
    if k < |rs| - 1 {
      var front := rs[..|rs| - 1];
      MovablePrefix(d, front, k);
      assert front[..k] == rs[..k] && front[..k + 1] == rs[..k + 1];
    } else {
      assert rs[..k + 1] == rs;
    }
  }

  /** Stages aside, the end states are told apart by what is current. */
  lemma EndStates()
    ensures OLD_ONLY != INSTALLED && ROLLED_BACK != INSTALLED
    ensures OLD_ONLY - {Stage(Api), Stage(Worker)} == OLD_ONLY == STAGED - {Stage(Api), Stage(Worker)}
    ensures INSTALLED - {Stage(Api), Stage(Worker)} == INSTALLED
    ensures ROLLED_BACK - {Stage(Api), Stage(Worker)} == ROLLED_BACK
    ensures OLD_ONLY[Stage(Api) := New] - {Stage(Api), Stage(Worker)} == OLD_ONLY
    ensures OLD_ONLY[Stage(Api) := New][Stage(Worker) := New] == STAGED
  {
    assert OLD_ONLY[Current(Api)] != INSTALLED[Current(Api)];
    assert ROLLED_BACK[Current(Api)] != INSTALLED[Current(Api)];
  }

  // -------------------------------------------------------------------------
  // The exact outcome of a release, from its faults
  // -------------------------------------------------------------------------

  function Raises(c: Call, checked: bool): Option<Exit> {
    match c
    case Succeeds => None
    case NonZero => if checked then Some(CalledProcessError) else None
    case TimesOut => Some(TimeoutExpired)
    case CannotRun => Some(OSError)
  }

  /** Calls from..from+n-1 all return. */
  predicate AllReturn(f: Faults, from: nat, n: nat, checked: bool) {
    forall i :: from <= i < from + n ==> Raises(f.call(i), checked).None?
  }

  /** The number of calls made by a loop of n calls that ends at the first exception. */
  function CallsMade(f: Faults, from: nat, n: nat, checked: bool): (k: nat)
    ensures k <= n
    decreases n
  {
    if n == 0 then 0
    else if Raises(f.call(from), checked).Some? then 1
    else 1 + CallsMade(f, from + 1, n - 1, checked)
  }

  /** One systemctl call: which unit it stops or starts. */
  datatype Command = Stop(unit: nat) | Start(unit: nat)

  function Stops(n: nat): (cs: seq<Command>)
    ensures |cs| == n
  {
    seq(n, i requires 0 <= i < n => Stop(i))
  }

  /** In reverse order of stopping. */
  function Starts(n: nat): (cs: seq<Command>)
    ensures |cs| == n
  {
    seq(n, i requires 0 <= i < n => Start(n - 1 - i))
  }

  function Failing(f: Faults, lo: nat, hi: nat): bool {
    f.failingRename.Some? && lo <= f.failingRename.value < hi
  }

  predicate Prepared(f: Faults) {
    f.archivesVerify && f.unpacks(Api) && f.unpacks(Worker) && f.unitsActive
  }

  predicate Stageable(f: Faults) {
    Prepared(f) && AllReturn(f, 0, f.units, true)
  }

  predicate NewBuildRuns(f: Faults) {
    AllReturn(f, f.units, f.units, true) && f.healthy(0)
  }

  // -------------------------------------------------------------------------
  // Which services a release leaves started
  // -------------------------------------------------------------------------

  /** The last command that names the unit. */
  function LastFor(cs: seq<Command>, u: nat): Option<Command> {
    if cs == [] then None
    else if cs[|cs| - 1].unit == u then Some(cs[|cs| - 1])
    else LastFor(cs[..|cs| - 1], u)
  }

  /** After its last stop, a start has been issued for every unit that a stop was issued for. */
  ghost predicate Restarted(cs: seq<Command>) {
    forall u :: Stop(u) in cs ==> LastFor(cs, u) == Some(Start(u))
  }

  lemma {:induction false} LastAppend(a: seq<Command>, b: seq<Command>, u: nat)
    ensures LastFor(a + b, u) == if LastFor(b, u).Some? then LastFor(b, u) else LastFor(a, u)
    decreases |b|
  {
    if b == [] {
      assert a + b == a;
    } else {
      assert (a + b)[..|a| + |b| - 1] == a + b[..|b| - 1];
      LastAppend(a, b[..|b| - 1], u);
    }
  }

  lemma {:induction false} LastOfStops(n: nat, k: nat, u: nat)
    requires k <= n
    ensures LastFor(Stops(n)[..k], u) == if u < k then Some(Stop(u)) else None
    decreases k
  {
    if k > 0 {
      assert Stops(n)[..k][..k - 1] == Stops(n)[..k - 1];
      LastOfStops(n, k - 1, u);
    }
  }

  /** The starts undo the stops from the last unit on. */
  lemma {:induction false} LastOfStarts(n: nat, k: nat, u: nat)
    requires k <= n
    ensures LastFor(Starts(n)[..k], u) == if n - k <= u < n then Some(Start(u)) else None
    decreases k
  {
    if k > 0 {
      assert Starts(n)[..k][..k - 1] == Starts(n)[..k - 1];
      LastOfStarts(n, k - 1, u);
    }
  }

  predicate OnlyUnits(cs: seq<Command>, n: nat) {
    forall i :: 0 <= i < |cs| ==> cs[i].unit < n
  }

  /** Starting n stopped units: all of them if every start is issued, else unit 0 stays behind. */
  lemma StartsRestart(cs: seq<Command>, n: nat, k: nat)
    requires OnlyUnits(cs, n) && k <= n
    ensures k == n ==> Restarted(cs + Starts(n)[..k])
    ensures k < n && LastFor(cs, 0) == Some(Stop(0)) ==> !Restarted(cs + Starts(n)[..k])
  {
    var all := cs + Starts(n)[..k];
    if k == n {
      forall u | Stop(u) in all ensures LastFor(all, u) == Some(Start(u)) {
        var i :| 0 <= i < |all| && all[i] == Stop(u);
        LastAppend(cs, Starts(n)[..k], u);
        LastOfStarts(n, k, u);
      }
    } else if LastFor(cs, 0) == Some(Stop(0)) {
      LastAppend(cs, Starts(n)[..k], 0);
      LastOfStarts(n, k, 0);
      LastIssued(all, 0);
    }
  }

  /** Further starts leave restarted units restarted. */
  lemma StartsKeep(cs: seq<Command>, n: nat, k: nat)
    requires Restarted(cs) && k <= n
    ensures Restarted(cs + Starts(n)[..k])
  {
    var all := cs + Starts(n)[..k];
    forall u | Stop(u) in all ensures LastFor(all, u) == Some(Start(u)) {
      LastAppend(cs, Starts(n)[..k], u);
      LastOfStarts(n, k, u);
      var i :| 0 <= i < |all| && all[i] == Stop(u);
      assert i < |cs| ==> cs[i] == Stop(u);
    }
  }

  /** After stops of which the first is unit 0's, starts restart all units exactly if all of them are issued. */
  lemma StopsThenStarts(before: seq<Command>, n: nat, stops: nat, k: nat)
    requires OnlyUnits(before, n) && 1 <= stops <= n && k <= n
    ensures OnlyUnits(before + Stops(n)[..stops], n) && LastFor(before + Stops(n)[..stops], 0) == Some(Stop(0))
    ensures Restarted(before + Stops(n)[..stops] + Starts(n)[..k]) <==> k == n
    ensures k < n ==> LastFor(before + Stops(n)[..stops] + Starts(n)[..k], 0) == Some(Stop(0))
    ensures OnlyUnits(before + Stops(n)[..stops] + Starts(n)[..k], n)
  {
    var cs := before + Stops(n)[..stops];
    LastAppend(before, Stops(n)[..stops], 0);
    LastOfStops(n, stops, 0);
    StartsRestart(cs, n, k);
    LastAppend(cs, Starts(n)[..k], 0);
    LastOfStarts(n, k, 0);
  }

  /** A second round of starts helps if either round is complete. */
  lemma TwoRounds(cs: seq<Command>, n: nat, j: nat, k: nat)
    requires OnlyUnits(cs, n) && LastFor(cs, 0) == Some(Stop(0)) && j <= n && k <= n
    ensures Restarted(cs + Starts(n)[..j] + Starts(n)[..k]) <==> j == n || k == n
  {
    var first := cs + Starts(n)[..j];
    StartsRestart(cs, n, j);
    LastAppend(cs, Starts(n)[..j], 0);
    LastOfStarts(n, j, 0);
    if j == n {
      StartsKeep(first, n, k);
    } else {
      StartsRestart(first, n, k);
    }
  }

  /** A stop without any start after it. */
  lemma StopsAlone(before: seq<Command>, n: nat, stops: nat)
    requires 1 <= stops <= n
    ensures !Restarted(before + Stops(n)[..stops])
  {
    var cs := before + Stops(n)[..stops];
    LastAppend(before, Stops(n)[..stops], 0);
    LastOfStops(n, stops, 0);
    LastIssued(cs, 0);
  }

  /** The stop that failed is not undone. */
  lemma FailedStopStays(n: nat, stopped: nat, k: nat)
    requires stopped < n && k <= stopped
    ensures !Restarted(Stops(n)[..stopped + 1] + Starts(stopped)[..k])
  {
    var cs := Stops(n)[..stopped + 1] + Starts(stopped)[..k];
    LastAppend(Stops(n)[..stopped + 1], Starts(stopped)[..k], stopped);
    LastOfStops(n, stopped + 1, stopped);
    LastOfStarts(stopped, k, stopped);
    LastIssued(cs, stopped);
  }

  lemma {:induction false} LastIssued(cs: seq<Command>, u: nat)
    requires LastFor(cs, u).Some?
    ensures LastFor(cs, u).value in cs && LastFor(cs, u).value.unit == u
    decreases |cs|
  {
    if cs[|cs| - 1].unit != u {
      LastIssued(cs[..|cs| - 1], u);
      assert forall c :: c in cs[..|cs| - 1] ==> c in cs;
    }
  }

  /** Everything the new release needs goes well. */
  predicate Succeeds'(f: Faults) {
    Stageable(f) && !Failing(f, 0, 4) && NewBuildRuns(f)
  }

  /** Every start of a round is issued: none before the last raises. */
  predicate StartsAll(f: Faults, from: nat, n: nat) {
    CallsMade(f, from, n, true) == n
  }

  /** From the rollback's first call on: the commands end with a start for every unit. */
  predicate RollbackStarts(f: Faults, from: nat, n: nat) {
    if !AllReturn(f, from, n, false) then
      !Failing(f, 4, 8) && StartsAll(f, from + CallsMade(f, from, n, false), n)
    else
      || StartsAll(f, from + n, n)
      || (!Failing(f, 4, 8) && StartsAll(f, from + n + CallsMade(f, from + n, n, true), n))
  }

  /**
   Which failing calls leave every stopped unit started again: no first stop
   raises, and the last round of starts is complete. There is none after Strands.
   */
  predicate ServicesBack(f: Faults) {
    !Prepared(f) || f.units == 0 ||
    (AllReturn(f, 0, f.units, true) &&
     if Failing(f, 0, 4) then StartsAll(f, f.units, f.units)
     else NewBuildRuns(f) || RollbackStarts(f, f.units + CallsMade(f, f.units, f.units, true), f.units))
  }

  /** The rollback runs to its end. */
  predicate RollsBackCleanly(f: Faults) {
    var from := f.units + CallsMade(f, f.units, f.units, true);
    && Stageable(f) && !Failing(f, 0, 8) && !NewBuildRuns(f)
    && AllReturn(f, from, f.units, false) && AllReturn(f, from + f.units, f.units, true)
  }

  /**
   The new build does not run, a stop of the rollback raises, and the failing
   rename is one of the restore that the outer handler then tries once.
   */
  predicate Strands(f: Faults) {
    && Stageable(f) && !NewBuildRuns(f)
    && !AllReturn(f, f.units + CallsMade(f, f.units, f.units, true), f.units, false)
    && Failing(f, 4, 8)
  }

  /** How a release ends, stages aside: the directories, the exit and the commands issued, from its faults. */
  ghost predicate Ended(f: Faults, dirs: Dirs, exit: Exit, issued: seq<Command>) {
    var checked := AllReturn(f, f.units, f.units, true);
    && dirs in {OLD_ONLY, ROLLED_BACK, INSTALLED}
    && (exit.Normal? <==> Succeeds'(f))
    && (dirs == INSTALLED <==> exit.Normal? || Strands(f))
    && (Restarted(issued) <==> ServicesBack(f))
    && (exit.ValueError? <==> !Prepared(f))
    && (exit.PriorBuildRestored? || exit.RollbackUnhealthy? <==> RollsBackCleanly(f))
    && (exit.PriorBuildRestored? ==> f.healthy(if checked then 1 else 0))
    && (exit.RollbackUnhealthy? ==> !f.healthy(if checked then 1 else 0))
  }

  // -------------------------------------------------------------------------
  // The source's procedures
  // -------------------------------------------------------------------------

  class Host {
    const faults: Faults
    var dirs: Dirs
    var renames: nat
    var calls: nat
    var checks: nat
    /** All systemctl calls made, failed ones included. */
    var issued: seq<Command>

    constructor (faults: Faults, dirs: Dirs)
      ensures this.faults == faults && this.dirs == dirs && renames == calls == checks == 0 && issued == []
    {
      this.faults, this.dirs, renames, calls, checks, issued := faults, dirs, 0, 0, 0, [];
    }

    method RenameDir(from: Path, to: Path) returns (ok: bool)
      modifies this`dirs, this`renames
      ensures renames == old(renames) + 1
      ensures ok <==> faults.failingRename != Some(old(renames)) && from in old(dirs) && to !in old(dirs)
      ensures dirs == if ok then Move(old(dirs), from, to) else old(dirs)
    {
      ok := faults.failingRename != Some(renames) && from in dirs && to !in dirs;
      renames := renames + 1;
      if ok {
        dirs := (dirs - {from})[to := dirs[from]];
      }
    }

    method Systemctl(command: Command, checked: bool) returns (exit: Option<Exit>)
      modifies this`calls, this`issued
      ensures calls == old(calls) + 1 && exit == Raises(faults.call(old(calls)), checked)
      ensures issued == old(issued) + [command]
      ensures exit.Some? ==> exit.value in {OSError, CalledProcessError, TimeoutExpired}
    {
      exit := Raises(faults.call(calls), checked);
      calls, issued := calls + 1, issued + [command];
    }

    method CheckHealth() returns (healthy: bool)
      modifies this`checks
      ensures checks == old(checks) + 1 && healthy == faults.healthy(old(checks))
    {
      healthy := faults.healthy(checks);
      checks := checks + 1;
    }

    /** Calls in a row, ending at the first exception. */
    method CallUnits(commands: seq<Command>, checked: bool) returns (done: nat, exit: Option<Exit>)
      modifies this`calls, this`issued
      ensures exit.None? <==> AllReturn(faults, old(calls), |commands|, checked)
      ensures calls == old(calls) + CallsMade(faults, old(calls), |commands|, checked)
      ensures issued == old(issued) + commands[..CallsMade(faults, old(calls), |commands|, checked)]
      ensures if exit.None? then done == |commands| == CallsMade(faults, old(calls), |commands|, checked)
              else done < |commands| && CallsMade(faults, old(calls), |commands|, checked) == done + 1
      ensures exit.Some? ==> exit.value in {OSError, CalledProcessError, TimeoutExpired}
    {
      var n := |commands|;
      done := 0;
      while done < n
        invariant 0 <= done <= n && calls == old(calls) + done && issued == old(issued) + commands[..done]
        invariant AllReturn(faults, old(calls), done, checked)
        invariant CallsMade(faults, old(calls), n, checked) == done + CallsMade(faults, calls, n - done, checked)
        modifies this`calls, this`issued
      {
        assert commands[..done + 1] == commands[..done] + [commands[done]];
        exit := Systemctl(commands[done], checked);
        if exit.Some? {
          return;
        }
        done := done + 1;
      }
      exit := None;
    }

    /** On a failed stop the units stopped before it are started again, in reverse, as far as starting works. */
    method StopUnits(n: nat) returns (stopped: nat, exit: Option<Exit>)
      modifies this`calls, this`issued
      ensures exit.None? <==> AllReturn(faults, old(calls), n, true)
      ensures exit.None? ==> stopped == n && calls == old(calls) + CallsMade(faults, old(calls), n, true)
      ensures exit.None? ==> issued == old(issued) + Stops(n)
      ensures exit.Some? ==>
                var back := CallsMade(faults, old(calls) + stopped + 1, stopped, true);
                && stopped < n && issued == old(issued) + Stops(n)[..stopped + 1] + Starts(stopped)[..back]
                && (AllReturn(faults, old(calls) + stopped + 1, stopped, true) ==> back == stopped)
      ensures exit.Some? ==> exit.value in {OSError, CalledProcessError, TimeoutExpired}
    {
      stopped, exit := CallUnits(Stops(n), true);
      if exit.None? {
        AllReturnMade(faults, old(calls), n, true);
        assert Stops(n)[..n] == Stops(n);
      } else {
        if AllReturn(faults, calls, stopped, true) {
          AllReturnMade(faults, calls, stopped, true);
        }
        var again := StartUnits(stopped);
        if again.Some? {
          exit := again;
        }
      }
    }

    method StartUnits(n: nat) returns (exit: Option<Exit>)
      modifies this`calls, this`issued
      ensures exit.None? <==> AllReturn(faults, old(calls), n, true)
      ensures calls == old(calls) + CallsMade(faults, old(calls), n, true)
      ensures issued == old(issued) + Starts(n)[..CallsMade(faults, old(calls), n, true)]
      ensures exit.Some? ==> exit.value in {OSError, CalledProcessError, TimeoutExpired}
    {
      var _, e := CallUnits(Starts(n), true);
      exit := e;
    }

    /** The undo list, newest rename first. */
    method UndoRenames(moved: seq<Rename>, ghost before: Dirs)
      requires Movable(before, moved) && dirs == Moves(before, moved)
      requires faults.failingRename.Some? && faults.failingRename.value < renames
      modifies this`dirs, this`renames
      ensures dirs == before
      ensures renames >= old(renames)
    {
      var i := |moved|;
      assert moved[..i] == moved;
      while i > 0
        invariant 0 <= i <= |moved| && renames >= old(renames)
        invariant dirs == Moves(before, moved[..i])
        modifies this`dirs, this`renames
      {
        i := i - 1;
        MovablePrefix(before, moved, i);
        MoveBack(Moves(before, moved[..i]), moved[i].0, moved[i].1);
        var ok := RenameDir(moved[i].1, moved[i].0);
      }
    }

    /**
     Renames in order with undo on failure: the shared shape of swap_in (plan
     SwapRenames) and restore_previous (plan RestoreRenames).
     */
    method RenameAll(plan: seq<Rename>) returns (exit: Option<Exit>)
      requires Movable(dirs, plan)
      modifies this`dirs, this`renames
      ensures exit.None? <==> !Failing(faults, old(renames), old(renames) + |plan|)
      ensures exit.None? ==> dirs == Moves(old(dirs), plan) && renames == old(renames) + |plan|
      ensures exit.Some? ==> exit.value == OSError && dirs == old(dirs) && faults.failingRename.value < renames
    {
      ghost var before := dirs;
      var moved: seq<Rename> := [];
      while |moved| < |plan|
        invariant |moved| <= |plan| && moved == plan[..|moved|]
        invariant renames == old(renames) + |moved| && !Failing(faults, old(renames), renames)
        invariant dirs == Moves(before, moved)
        modifies this`dirs, this`renames
        decreases |plan| - |moved|
      {
        var k := |moved|;
        MovablePrefix(before, plan, k);
        var ok := RenameDir(plan[k].0, plan[k].1);
        if !ok {
          UndoRenames(moved, before);
          return Some(OSError);
        }
        moved := moved + [plan[k]];
        assert moved == plan[..k + 1];
      }
      assert plan[..|moved|] == plan;
      return None;
    }

    method RemoveStages()
      modifies this`dirs
      ensures dirs == old(dirs) - {Stage(Api), Stage(Worker)}
    {
      dirs := dirs - {Stage(Api), Stage(Worker)};
    }

    /**
     activate. With at most one failing rename and any service and health
     outcomes, both components always end on the same release. It is the new one
     on a normal return, and otherwise the old one, except for Strands.
     */
    method Activate() returns (exit: Exit)
      requires dirs == OLD_ONLY && renames == calls == checks == 0 && issued == []
      modifies this
      ensures dirs in {OLD_ONLY, ROLLED_BACK, INSTALLED}
      ensures exit.Normal? <==> Succeeds'(faults)
      ensures dirs == INSTALLED <==> exit.Normal? || Strands(faults)
      ensures Restarted(issued) <==> ServicesBack(faults)
      ensures exit.ValueError? <==> !Prepared(faults)
      ensures exit.PriorBuildRestored? || exit.RollbackUnhealthy? <==> RollsBackCleanly(faults)
      ensures exit.PriorBuildRestored? ==> faults.healthy(if AllReturn(faults, faults.units, faults.units, true) then 1 else 0)
      ensures exit.RollbackUnhealthy? ==> !faults.healthy(if AllReturn(faults, faults.units, faults.units, true) then 1 else 0)
    {
      exit := Deploy();
      RemoveStages();
    }

    /** The part of activate guarded by its finally clause. */
    method Deploy() returns (exit: Exit)
      requires dirs == OLD_ONLY && renames == calls == checks == 0 && issued == []
      modifies this
      ensures Ended(faults, dirs - {Stage(Api), Stage(Worker)}, exit, issued)
    {
      hide Movable, Moves, AllReturn, CallsMade, Restarted, RollbackStarts, LastFor, Stops, Starts;
      EndStates();
      NothingIssued();
      if !faults.archivesVerify {
        return ValueError;
      }
      dirs := dirs[Stage(Api) := New];
      if !faults.unpacks(Api) {
        return ValueError;
      }
      dirs := dirs[Stage(Worker) := New];
      if !faults.unpacks(Worker) || !faults.unitsActive {
        return ValueError;
      }
      var stopped, failure := StopUnits(faults.units);
      if failure.Some? {
        StopsFailed(faults, stopped, issued);
        return failure.value;
      }
      AllReturnMade(faults, 0, faults.units, true);
      hide Ended;
      exit := Replace(stopped);
    }

    /** With all units stopped: swap, start and check, or the handlers. */
    method Replace(stopped: nat) returns (exit: Exit)
      requires dirs == STAGED && renames == checks == 0 && Stageable(faults)
      requires stopped == calls == faults.units && issued == Stops(stopped)
      modifies this
      ensures Ended(faults, dirs - {Stage(Api), Stage(Worker)}, exit, issued)
    {
      hide Movable, Moves, AllReturn, CallsMade, Restarted, RollbackStarts, LastFor, Stops, Starts;
      EndStates();
      NothingIssued();
      StopsMade(stopped);
      SwapInstalls();
      RoundIssued(faults, [], stopped, stopped);
      assert [] + Stops(stopped) == Stops(stopped);
      var swap := RenameAll(SwapRenames());
      if swap.Some? {
        exit := OuterHandler(stopped, OSError);
        return;
      }
      var start := StartUnits(stopped);
      var healthy := false;
      if start.None? {
        healthy := CheckHealth();
      }
      if healthy {
        AllReturnMade(faults, stopped, stopped, true);
        return Normal;
      }
      exit := RollBack(stopped);
    }

    /** The inner handler: stop everything, restore, restart; an exception on the way reaches the outer handler. */
    method RollBack(stopped: nat) returns (exit: Exit)
      requires dirs == INSTALLED && renames == 4 && !Failing(faults, 0, 4) && OnlyUnits(issued, stopped)
      modifies this
      ensures !exit.Normal? && !exit.ValueError?
      ensures dirs in {ROLLED_BACK, INSTALLED}
      ensures dirs == INSTALLED <==> Failing(faults, 4, 8) && !AllReturn(faults, old(calls), stopped, false)
      ensures if stopped == 0 then issued == old(issued)
              else Restarted(issued) <==> RollbackStarts(faults, old(calls), stopped)
      ensures exit.PriorBuildRestored? || exit.RollbackUnhealthy? <==>
              && AllReturn(faults, old(calls), stopped, false) && !Failing(faults, 4, 8)
              && AllReturn(faults, old(calls) + stopped, stopped, true)
      ensures exit.PriorBuildRestored? ==> faults.healthy(old(checks))
      ensures exit.RollbackUnhealthy? ==> !faults.healthy(old(checks))
    {
      hide Movable, Moves, AllReturn, CallsMade, Restarted, LastFor, Stops, Starts;
      EndStates();
      RestoreRollsBack();
      StopsMade(stopped);
      NothingIssued();
      ghost var before, from := issued, calls;
      if AllReturn(faults, from, stopped, false) {
        AllReturnMade(faults, from, stopped, false);
        ghost var first := CallsMade(faults, from + stopped, stopped, true);
        if stopped > 0 {
          StopsReturned(before, stopped, first, CallsMade(faults, from + stopped + first, stopped, true));
        }
        if AllReturn(faults, from + stopped, stopped, true) {
          AllReturnMade(faults, from + stopped, stopped, true);
        }
      } else {
        StopsRaised(faults, before, from, stopped);
      }
      var _, stopFailure := CallUnits(Stops(stopped), false);
      if stopFailure.Some? {
        assert issued + [] == issued;
        exit := OuterHandler(stopped, stopFailure.value);
        return;
      }
      var restore := RenameAll(RestoreRenames());
      if restore.Some? {
        exit := OuterHandler(stopped, restore.value);
        return;
      }
      var restart := StartUnits(stopped);
      if restart.Some? {
        exit := OuterHandler(stopped, restart.value);
        return;
      }
      var healthy := CheckHealth();
      return if healthy then PriorBuildRestored else RollbackUnhealthy;
    }

    /** The outer handler: restore if both previous builds are there, restart, and pass the exception on. */
    method OuterHandler(stopped: nat, cause: Exit) returns (exit: Exit)
      requires dirs in {STAGED, INSTALLED, ROLLED_BACK} && cause in {OSError, CalledProcessError, TimeoutExpired}
      modifies this
      ensures exit in {OSError, CalledProcessError, TimeoutExpired}
      ensures issued == old(issued) + if old(dirs) == INSTALLED && Failing(faults, old(renames), old(renames) + 4) then []
                                      else Starts(stopped)[..CallsMade(faults, old(calls), stopped, true)]
      ensures old(dirs) == INSTALLED ==> dirs == if Failing(faults, old(renames), old(renames) + 4) then INSTALLED else ROLLED_BACK
      ensures old(dirs) != INSTALLED ==> dirs == old(dirs)
    {
      hide Movable, Moves;
      RestoreRollsBack();
      if Previous(Api) in dirs && Previous(Worker) in dirs {
        assert dirs == INSTALLED;
        var restore := RenameAll(RestoreRenames());
        if restore.Some? {
          return OSError;
        }
      }
      var restart := StartUnits(stopped);
      return if restart.Some? then restart.value else cause;
    }
  }

  lemma {:induction false} AllReturnMade(f: Faults, from: nat, n: nat, checked: bool)
    requires AllReturn(f, from, n, checked)
    ensures CallsMade(f, from, n, checked) == n
    decreases n
  {
    if n > 0 {
      AllReturnMade(f, from + 1, n - 1, checked);
    }
  }

  lemma StopsMade(n: nat)
    ensures Stops(n)[..n] == Stops(n) && OnlyUnits(Stops(n), n)
  {
  }

  lemma StopsFailed(f: Faults, stopped: nat, issued: seq<Command>)
    requires stopped < f.units
    requires issued == Stops(f.units)[..stopped + 1] + Starts(stopped)[..CallsMade(f, stopped + 1, stopped, true)]
    ensures !Restarted(issued)
  {
    FailedStopStays(f.units, stopped, CallsMade(f, stopped + 1, stopped, true));
  }

  /** The first stops and a round of starts. */
  lemma RoundIssued(f: Faults, before: seq<Command>, from: nat, n: nat)
    requires OnlyUnits(before, n)
    ensures var cs := before + Stops(n) + Starts(n)[..CallsMade(f, from, n, true)];
            && OnlyUnits(cs, n)
            && (n > 0 ==> (Restarted(cs) <==> StartsAll(f, from, n)))
            && (n == 0 ==> cs == before)
  {
    StopsMade(n);
    if n > 0 {
      StopsThenStarts(before, n, n, CallsMade(f, from, n, true));
    }
  }

  lemma NothingIssued()
    ensures Restarted([]) && OnlyUnits([], 0)
    ensures Stops(0) == [] && Starts(0) == []
  {
  }

  /** The commands of a rollback whose stops raise, without and with a round of starts. */
  lemma StopsRaised(f: Faults, before: seq<Command>, from: nat, n: nat)
    requires OnlyUnits(before, n) && !AllReturn(f, from, n, false)
    ensures var stops := CallsMade(f, from, n, false);
            && n > 0 && !Restarted(before + Stops(n)[..stops])
            && (Restarted(before + Stops(n)[..stops] + Starts(n)[..CallsMade(f, from + stops, n, true)]) <==>
                  StartsAll(f, from + stops, n))
  {
    hide Restarted, OnlyUnits, LastFor;
    var stops := CallsMade(f, from, n, false);
    StopsAlone(before, n, stops);
    StopsThenStarts(before, n, stops, CallsMade(f, from + stops, n, true));
  }

  /** The commands of a rollback whose stops return, with one round of starts and with two. */
  lemma StopsReturned(before: seq<Command>, n: nat, first: nat, second: nat)
    requires OnlyUnits(before, n) && n > 0 && first <= n && second <= n
    ensures Restarted(before + Stops(n) + Starts(n)[..first]) <==> first == n
    ensures Restarted(before + Stops(n) + Starts(n)[..first] + Starts(n)[..second]) <==> first == n || second == n
  {
    hide Restarted, OnlyUnits, LastFor;
    StopsMade(n);
    StopsThenStarts(before, n, n, first);
    TwoRounds(before + Stops(n), n, first, second);
  }

  /** If every call succeeds, every stopped unit is started again, whatever renames and health checks do. */
  lemma CallsSucceedServicesBack(f: Faults)
    requires forall i :: f.call(i).Succeeds?
    ensures ServicesBack(f)
  {
    var n := f.units;
    AllReturnMade(f, n, n, true);
    AllReturnMade(f, 2 * n, n, false);
    AllReturnMade(f, 3 * n, n, true);
  }

  /** A normal return means that every first stop and start succeeded, a nonzero status being none. */
  lemma NormalCallsSucceeded(f: Faults)
    requires Succeeds'(f)
    ensures forall i :: 0 <= i < 2 * f.units ==> f.call(i).Succeeds?
  {
  }

  /** Only a stop that times out or cannot be run strands the new build; a nonzero status does not. */
  lemma NonzeroStopsDoNotStrand(f: Faults)
    requires forall i :: f.call(i).Succeeds? || f.call(i).NonZero?
    ensures !Strands(f)
  {
  }

  /** Strands is not empty: the health check fails, the one stop times out, and the fifth rename fails. */
  lemma StrandingHappens() returns (f: Faults)
    ensures Strands(f)
  {
    f := Faults(Some(4), i => if i == 2 then TimesOut else Succeeds, i => false, true, c => true, true, 1);
    assert f.call(0) == f.call(1) == Succeeds;
    AllReturnMade(f, 1, 1, true);
    assert Raises(f.call(2), false).Some?;
  }
}
