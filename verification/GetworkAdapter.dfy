/**
 The getwork adapter under concurrent requests: bounded tracking of work and
 submissions, and one node submission per key in flight. Every stretch of code
 under the lock, and every node call, is one step of the machine.
 */
module GetworkAdapter {
  import opened Wrappers

  const MAX_TRACKED_WORK: nat := 64
  const MAX_TRACKED_SUBMISSIONS: nat := 2048

  type Header = nat
  type WorkId = nat

  /** The text workId:nonce:mixDigest; its parts have fixed widths. */
  datatype Key = Key(workId: WorkId, nonce: nat, mixDigest: nat)

  // -------------------------------------------------------------------------
  // Ordered dictionaries, oldest entry first
  // -------------------------------------------------------------------------

  datatype Item<K, V> = Item(key: K, value: V)

  function Remove<K(==), V>(d: seq<Item<K, V>>, k: K): seq<Item<K, V>> {
    if d == [] then []
    else
      var front, last := Remove(d[..|d| - 1], k), d[|d| - 1];
      if last.key == k then front else front + [last]
  }

  /** Set a key, move it to the end, evict the oldest entries beyond the bound. */
  function Touch<K(==), V>(d: seq<Item<K, V>>, k: K, v: V, bound: nat): seq<Item<K, V>> {
    var all := Remove(d, k) + [Item(k, v)];
    if |all| > bound then all[|all| - bound..] else all
  }

  function Get<K(==), V>(d: seq<Item<K, V>>, k: K): Option<V> {
    if d == [] then None
    else if d[|d| - 1].key == k then Some(d[|d| - 1].value)
    else Get(d[..|d| - 1], k)
  }

  function Keys<K(==), V>(d: seq<Item<K, V>>): set<K> {
    set i | 0 <= i < |d| :: d[i].key
  }

  predicate UniqueKeys<K(==), V>(d: seq<Item<K, V>>) {
    forall i, j :: 0 <= i < j < |d| ==> d[i].key != d[j].key
  }

  predicate Bounded<K(==), V>(d: seq<Item<K, V>>, bound: nat) {
    UniqueKeys(d) && |d| <= bound
  }

  lemma {:induction false} RemoveKeeps<K, V>(d: seq<Item<K, V>>, k: K)
    requires UniqueKeys(d)
    ensures UniqueKeys(Remove(d, k)) && |Remove(d, k)| <= |d|
    ensures forall i :: 0 <= i < |Remove(d, k)| ==> Remove(d, k)[i].key != k
    ensures forall i :: 0 <= i < |Remove(d, k)| ==> exists j :: 0 <= j < |d| && d[j] == Remove(d, k)[i]
    decreases |d|
  {
    if d != [] {
      var n := |d| - 1;
      var front, r := Remove(d[..n], k), Remove(d, k);
      RemoveKeeps(d[..n], k);
      forall i | 0 <= i < |front|
        ensures front[i].key != d[n].key && exists j :: 0 <= j < n && d[j] == front[i]
      {
        var j :| 0 <= j < n && d[..n][j] == front[i];
        assert d[j] == front[i];
      }
      forall i | 0 <= i < |r| ensures exists j :: 0 <= j < |d| && d[j] == r[i] {
        if i < |front| {
          var j :| 0 <= j < n && d[j] == front[i];
          assert d[j] == r[i];
        } else {
          assert d[n] == r[i];
        }
      }
    }
  }

  /** The touched key is the newest entry, keys stay unique and the bound holds. */
  lemma TouchBounded<K, V>(d: seq<Item<K, V>>, k: K, v: V, bound: nat)
    requires UniqueKeys(d) && bound >= 1
    ensures var t := Touch(d, k, v, bound);
            Bounded(t, bound) && t != [] && t[|t| - 1] == Item(k, v)
  {
    RemoveKeeps(d, k);
  }

  // -------------------------------------------------------------------------
  // Interleavings
  // -------------------------------------------------------------------------

  /** Where a submit_work call is: work looked up, node called, answered, taken out of flight. */
  datatype Phase = LookedUp(key: Key) | Calling(key: Key) | Answered(key: Key, result: Option<bool>) | Discarded(key: Key, accepted: bool)

  datatype World = World(
    work: seq<Item<Header, WorkId>>,
    submissions: seq<Item<Key, bool>>,
    inflight: set<Key>,
    threads: map<nat, Phase>,
    forwarded: seq<Key>,        // history: keys sent to the node,
    failed: set<Key>,           // keys whose call gave no usable answer,
    evicted: set<Key>)          // and keys pushed out of the tracked submissions

  datatype Step =
    | RecordWork(header: Header, id: WorkId)
    | LookUp(who: nat, header: Header, nonce: nat, mixDigest: nat, expired: bool)
    | Admit(who: nat)
    | Answer(who: nat, result: Option<bool>)          // None: the node call raises or is malformed
    | Discard(who: nat)
    | Track(who: nat)

  function Next(w: World, step: Step): World {
    match step
    case RecordWork(header, id) => w.(work := Touch(w.work, header, id, MAX_TRACKED_WORK))
    case LookUp(who, header, nonce, mix, expired) =>
      if who in w.threads || expired then w
      else (match Get(w.work, header)
            case None => w
            case Some(id) => w.(threads := w.threads[who := LookedUp(Key(id, nonce, mix))]))
    case Admit(who) =>
      if who !in w.threads || !w.threads[who].LookedUp? then w
      else
        var key := w.threads[who].key;
        if Get(w.submissions, key).Some? || key in w.inflight then w.(threads := w.threads - {who})
        else w.(inflight := w.inflight + {key}, threads := w.threads[who := Calling(key)], forwarded := w.forwarded + [key])
    case Answer(who, result) =>
      if who !in w.threads || !w.threads[who].Calling? then w
      else w.(threads := w.threads[who := Answered(w.threads[who].key, result)])
    case Discard(who) =>
      if who !in w.threads || !w.threads[who].Answered? then w
      else
        var p := w.threads[who];
        var threads := if p.result.None? then w.threads - {who} else w.threads[who := Discarded(p.key, p.result.value)];
        w.(inflight := w.inflight - {p.key}, threads := threads,
           failed := if p.result.None? then w.failed + {p.key} else w.failed)
    case Track(who) =>
      if who !in w.threads || !w.threads[who].Discarded? then w
      else
        var p := w.threads[who];
        var all := Remove(w.submissions, p.key) + [Item(p.key, p.accepted)];
        var kept := Touch(w.submissions, p.key, p.accepted, MAX_TRACKED_SUBMISSIONS);
        w.(submissions := kept, threads := w.threads - {who}, evicted := w.evicted + (Keys(all) - Keys(kept)))
  }

  function Start(): World {
    World([], [], {}, map[], [], {}, {})
  }

  function Run(steps: seq<Step>): World {
    if steps == [] then Start() else Next(Run(steps[..|steps| - 1]), steps[|steps| - 1])
  }

  /** A submission the node has been sent and that is not yet out of flight. */
  predicate InFlight(p: Phase) {
    p.Calling? || p.Answered?
  }

  ghost predicate Inv(w: World) {
    && Bounded(w.work, MAX_TRACKED_WORK) && Bounded(w.submissions, MAX_TRACKED_SUBMISSIONS)
    && (forall t :: t in w.threads && InFlight(w.threads[t]) ==> w.threads[t].key in w.inflight)
    && (forall t, u :: t in w.threads && u in w.threads && t != u && InFlight(w.threads[t]) && InFlight(w.threads[u]) ==>
          w.threads[t].key != w.threads[u].key)
    && (forall k :: k in w.inflight ==> exists t :: t in w.threads && InFlight(w.threads[t]) && w.threads[t].key == k)
  }

  lemma NextKeepsInv(w: World, step: Step)
    requires Inv(w)
    ensures Inv(Next(w, step))
  {
    hide Touch, Bounded, UniqueKeys;
    match step
    case RecordWork(header, id) =>
      BoundedUnique(w.work, MAX_TRACKED_WORK);
      TouchBounded(w.work, header, id, MAX_TRACKED_WORK);
    case Admit(who) => AdmitKeepsInv(w, who);
    case Answer(who, result) => AnswerKeepsInv(w, who, result);
    case Discard(who) => DiscardKeepsInv(w, who);
    case Track(who) =>
      if who in w.threads && w.threads[who].Discarded? {
        BoundedUnique(w.submissions, MAX_TRACKED_SUBMISSIONS);
        TouchBounded(w.submissions, w.threads[who].key, w.threads[who].accepted, MAX_TRACKED_SUBMISSIONS);
        KeepsFlight(w, Next(w, step));
      }
    case LookUp(_, _, _, _, _) => KeepsFlight(w, Next(w, step));
  }

  lemma BoundedUnique<K, V>(d: seq<Item<K, V>>, bound: nat)
    requires Bounded(d, bound)
    ensures UniqueKeys(d)
  {
  }

  /** A step that leaves every in-flight thread and the in-flight set alone. */
  lemma KeepsFlight(w: World, w': World)
    requires Inv(w) && w'.inflight == w.inflight
    requires Bounded(w'.work, MAX_TRACKED_WORK) && Bounded(w'.submissions, MAX_TRACKED_SUBMISSIONS)
    requires forall t :: t in w.threads && InFlight(w.threads[t]) ==> t in w'.threads && w'.threads[t] == w.threads[t]
    requires forall t :: t in w'.threads && InFlight(w'.threads[t]) ==> t in w.threads && w'.threads[t] == w.threads[t]
    ensures Inv(w')
  {
    hide Bounded;
    forall k | k in w'.inflight
      ensures exists t :: t in w'.threads && InFlight(w'.threads[t]) && w'.threads[t].key == k
    {
      var t :| t in w.threads && InFlight(w.threads[t]) && w.threads[t].key == k;
      assert t in w'.threads;
    }
  }

  lemma AdmitKeepsInv(w: World, who: nat)
    requires Inv(w)
    ensures Inv(Next(w, Admit(who)))
  {
    hide Bounded;
    var w' := Next(w, Admit(who));
    if who in w.threads && w.threads[who].LookedUp? {
      var key := w.threads[who].key;
      forall k | k in w'.inflight
        ensures exists t :: t in w'.threads && InFlight(w'.threads[t]) && w'.threads[t].key == k
      {
        if k in w.inflight {
          var t :| t in w.threads && InFlight(w.threads[t]) && w.threads[t].key == k;
          assert t in w'.threads && w'.threads[t] == w.threads[t];
        } else {
          assert w'.threads[who].key == k;
        }
      }
    }
  }

  lemma AnswerKeepsInv(w: World, who: nat, result: Option<bool>)
    requires Inv(w)
    ensures Inv(Next(w, Answer(who, result)))
  {
    hide Bounded;
    var w' := Next(w, Answer(who, result));
    forall k | k in w'.inflight
      ensures exists t :: t in w'.threads && InFlight(w'.threads[t]) && w'.threads[t].key == k
    {
      var t :| t in w.threads && InFlight(w.threads[t]) && w.threads[t].key == k;
      assert t in w'.threads && InFlight(w'.threads[t]) && w'.threads[t].key == k;
    }
  }

  lemma DiscardKeepsInv(w: World, who: nat)
    requires Inv(w)
    ensures Inv(Next(w, Discard(who)))
  {
    hide Bounded;
    var w' := Next(w, Discard(who));
    forall k | k in w'.inflight
      ensures exists t :: t in w'.threads && InFlight(w'.threads[t]) && w'.threads[t].key == k
    {
      var t :| t in w.threads && InFlight(w.threads[t]) && w.threads[t].key == k;
      assert t in w'.threads && w'.threads[t] == w.threads[t];
    }
  }

  /** Every key sent to the node is in flight, in the gap, tracked, failed or evicted. */
  ghost predicate Accounted(w: World, k: Key) {
    k in w.inflight || InGap(w, k) || k in Keys(w.submissions) || k in w.failed || k in w.evicted
  }

  /** Out of flight and not tracked yet. */
  ghost predicate InGap(w: World, k: Key) {
    exists t :: t in w.threads && w.threads[t].Discarded? && w.threads[t].key == k
  }

  ghost predicate AllAccounted(w: World) {
    forall i :: 0 <= i < |w.forwarded| ==> Accounted(w, w.forwarded[i])
  }

  lemma {:induction false} GetFindsKeys<K, V>(d: seq<Item<K, V>>, k: K)
    ensures Get(d, k).Some? <==> k in Keys(d)
    decreases |d|
  {
    if d != [] {
      var n := |d| - 1;
      GetFindsKeys(d[..n], k);
      assert Keys(d) == Keys(d[..n]) + {d[n].key} by {
        forall x | x in Keys(d) ensures x in Keys(d[..n]) + {d[n].key} {
          var i :| 0 <= i < |d| && d[i].key == x;
          assert i < n ==> d[..n][i].key == x;
        }
        forall x | x in Keys(d[..n]) ensures x in Keys(d) {
          var i :| 0 <= i < n && d[..n][i].key == x;
          assert d[i].key == x;
        }
      }
    }
  }

  /** Setting a key forgets no other key. */
  lemma {:induction false} RemoveForgetsOne<K, V>(d: seq<Item<K, V>>, k: K, other: K)
    requires other in Keys(d) && other != k
    ensures other in Keys(Remove(d, k))
    decreases |d|
  {
    var n := |d| - 1;
    var front, r := Remove(d[..n], k), Remove(d, k);
    if d[n].key == other {
      assert r[|r| - 1].key == other;
    } else {
      var i :| 0 <= i < |d| && d[i].key == other;
      assert d[..n][i].key == other;
      RemoveForgetsOne(d[..n], k, other);
      var j :| 0 <= j < |front| && front[j].key == other;
      assert r[j].key == other;
    }
  }

  lemma NextKeepsAccounted(w: World, step: Step, k: Key)
    requires Inv(w) && (Accounted(w, k) || Next(w, step).forwarded == w.forwarded + [k])
    ensures Accounted(Next(w, step), k)
  {
    hide Touch, Remove, Keys, Bounded, Get;
    var w' := Next(w, step);
    if w'.forwarded == w.forwarded + [k] {
      assert w'.forwarded[|w.forwarded|] == k && step.Admit?;
      assert w'.forwarded == w.forwarded + [w.threads[step.who].key];
      assert k in w'.inflight;
    } else if InGap(w, k) {
      var t :| t in w.threads && w.threads[t].Discarded? && w.threads[t].key == k;
      if step == Track(t) {
        TrackAccounts(w, t, k);
      } else {
        assert t in w'.threads && w'.threads[t] == w.threads[t];
      }
    } else if k in w.inflight && k !in w'.inflight {
      var t := step.who;
      if w.threads[t].result.Some? {
        assert w'.threads[t].Discarded? && w'.threads[t].key == k;
      }
    } else if step.Track? {
      TrackAccounts(w, step.who, k);
    }
  }

  lemma TrackAccounts(w: World, who: nat, k: Key)
    requires Accounted(w, k)
    requires !InGap(w, k) || (who in w.threads && w.threads[who].Discarded? && w.threads[who].key == k)
    ensures Accounted(Next(w, Track(who)), k)
  {
    hide Touch, Remove, Get;
    if who in w.threads && w.threads[who].Discarded? {
      var p := w.threads[who];
      var all := Remove(w.submissions, p.key) + [Item(p.key, p.accepted)];
      if k == p.key {
        assert all[|all| - 1].key == k;
        assert k in Keys(all);
      } else if k in Keys(w.submissions) {
        RemoveForgetsOne(w.submissions, p.key, k);
        var j :| 0 <= j < |Remove(w.submissions, p.key)| && Remove(w.submissions, p.key)[j].key == k;
        assert all[j].key == k;
        assert k in Keys(all);
      }
    }
  }

  lemma {:induction false} EveryRunKeepsInv(steps: seq<Step>)
    ensures Inv(Run(steps)) && AllAccounted(Run(steps))
    decreases |steps|
  {
    if steps != [] {
      hide Accounted, Inv;
      var w, step := Run(steps[..|steps| - 1]), steps[|steps| - 1];
      EveryRunKeepsInv(steps[..|steps| - 1]);
      NextKeepsInv(w, step);
      assert Next(w, step).forwarded == w.forwarded
             || (step.Admit? && Next(w, step).forwarded == w.forwarded + [w.threads[step.who].key]);
      forall i | 0 <= i < |Next(w, step).forwarded| ensures Accounted(Next(w, step), Next(w, step).forwarded[i]) {
        NextKeepsAccounted(w, step, Next(w, step).forwarded[i]);
      }
    } else {
      hide Accounted;
      StartInv();
    }
  }

  lemma StartInv()
    ensures Inv(Start())
  {
  }

  /**
   In every interleaving: tracked work and submissions stay within their bounds,
   no two threads have the same key at the node, and the key a step forwards is
   neither tracked nor in flight.
   */
  lemma OneSubmissionPerKey(steps: seq<Step>, step: Step)
    ensures var w, w' := Run(steps), Next(Run(steps), step);
            && |w.work| <= MAX_TRACKED_WORK && |w.submissions| <= MAX_TRACKED_SUBMISSIONS
            && (forall t, u :: t in w.threads && u in w.threads && t != u && w.threads[t].Calling? && w.threads[u].Calling? ==>
                  w.threads[t].key != w.threads[u].key)
            && (w'.forwarded != w.forwarded ==>
                  exists k :: w'.forwarded == w.forwarded + [k] && Get(w.submissions, k).None?
                              && forall t :: t in w.threads && InFlight(w.threads[t]) ==> w.threads[t].key != k)
  {
    hide Run;
    EveryRunKeepsInv(steps);
    var w, w' := Run(steps), Next(Run(steps), step);
    if w'.forwarded != w.forwarded {
      assert w'.forwarded == w.forwarded + [w.threads[step.who].key];
    }
  }

  // -------------------------------------------------------------------------
  // Second forwards
  // -------------------------------------------------------------------------

  /** Only keys sent to the node get past the lookup, fail, are tracked or are evicted. */
  ghost predicate Known(w: World) {
    && (forall t :: t in w.threads && !w.threads[t].LookedUp? ==> w.threads[t].key in w.forwarded)
    && (forall k :: k in w.failed || k in w.evicted || k in Keys(w.submissions) ==> k in w.forwarded)
  }

  lemma {:induction false} RemoveAddsNone<K, V>(d: seq<Item<K, V>>, k: K)
    ensures Keys(Remove(d, k)) <= Keys(d)
    decreases |d|
  {
    if d != [] {
      var n := |d| - 1;
      RemoveAddsNone(d[..n], k);
      forall x | x in Keys(Remove(d, k)) ensures x in Keys(d) {
        var i :| 0 <= i < |Remove(d, k)| && Remove(d, k)[i].key == x;
        if i < |Remove(d[..n], k)| {
          assert x in Keys(Remove(d[..n], k));
          var j :| 0 <= j < n && d[..n][j].key == x;
          assert d[j].key == x;
        } else {
          assert d[n].key == x;
        }
      }
    }
  }

  /** A tracked submission adds its own key at most. */
  lemma TouchAddsOne<K, V>(d: seq<Item<K, V>>, k: K, v: V, bound: nat)
    ensures Keys(Remove(d, k) + [Item(k, v)]) <= Keys(d) + {k}
    ensures Keys(Touch(d, k, v, bound)) <= Keys(d) + {k}
  {
    RemoveAddsNone(d, k);
    var r := Remove(d, k);
    var all := r + [Item(k, v)];
    forall x | x in Keys(all) ensures x in Keys(d) + {k} {
      var i :| 0 <= i < |all| && all[i].key == x;
      assert i < |r| ==> r[i].key == x && x in Keys(r);
    }
    var t := Touch(d, k, v, bound);
    forall x | x in Keys(t) ensures x in Keys(all) {
      var i :| 0 <= i < |t| && t[i].key == x;
      assert all[|all| - |t| + i].key == x;
    }
  }

  lemma NextKeepsKnown(w: World, step: Step)
    requires Known(w)
    ensures Known(Next(w, step))
  {
    hide Touch, Remove, Keys, Get;
    if step.Track? && step.who in w.threads && w.threads[step.who].Discarded? {
      var p := w.threads[step.who];
      TouchAddsOne(w.submissions, p.key, p.accepted, MAX_TRACKED_SUBMISSIONS);
    } else if Next(w, step).forwarded != w.forwarded {
      var k := w.threads[step.who].key;
      assert forall x :: x in w.forwarded + [k] <==> x in w.forwarded || x == k;
    }
  }

  lemma {:induction false} EveryRunKnown(steps: seq<Step>)
    ensures Known(Run(steps))
    decreases |steps|
  {
    if steps != [] {
      hide Known, Next;
      EveryRunKnown(steps[..|steps| - 1]);
      NextKeepsKnown(Run(steps[..|steps| - 1]), steps[|steps| - 1]);
    }
  }

  /** A key that was sent to the node and that admission does not recognise. */
  ghost predicate Forgotten(w: World, k: Key) {
    InGap(w, k) || k in w.failed || k in w.evicted
  }

  /**
   A key is forwarded again exactly when, at its admission, another thread is
   between leaving flight and tracking it, an earlier call for it gave no usable
   answer, or it was evicted.
   */
  lemma ForwardedAgainIff(steps: seq<Step>, step: Step, k: Key)
    requires Next(Run(steps), step).forwarded == Run(steps).forwarded + [k]
    ensures k in Run(steps).forwarded <==> Forgotten(Run(steps), k)
  {
    hide Run, Inv;
    EveryRunKeepsInv(steps);
    EveryRunKnown(steps);
    var w := Run(steps);
    var sent := Next(w, step).forwarded;
    assert sent[|sent| - 1] == k;
    GetFindsKeys(w.submissions, k);
    if k in w.forwarded {
      var i :| 0 <= i < |w.forwarded| && w.forwarded[i] == k;
      assert Accounted(w, w.forwarded[i]);
    }
  }

  /** No step forwards a key that is forgotten at that moment. */
  ghost predicate FreshAdmissions(steps: seq<Step>) {
    steps == [] ||
    (var n := |steps| - 1;
     var w := Run(steps[..n]);
     && FreshAdmissions(steps[..n])
     && forall k :: Next(w, steps[n]).forwarded == w.forwarded + [k] ==> !Forgotten(w, k))
  }

  predicate Distinct(ks: seq<Key>) {
    forall i, j :: 0 <= i < j < |ks| ==> ks[i] != ks[j]
  }

  lemma DistinctSnoc(ks: seq<Key>, k: Key)
    ensures Distinct(ks + [k]) <==> Distinct(ks) && k !in ks
  {
    var all := ks + [k];
    if Distinct(all) {
      assert forall i :: 0 <= i < |ks| ==> all[i] == ks[i] && all[i] != all[|ks|];
    }
  }

  lemma ForwardsOne(w: World, step: Step)
    ensures Next(w, step).forwarded == w.forwarded
            || (step.Admit? && step.who in w.threads && Next(w, step).forwarded == w.forwarded + [w.threads[step.who].key])
  {
    hide Touch, Remove, Keys, Get;
  }

  lemma SameSnoc(ks: seq<Key>, k: Key, x: Key)
    ensures ks + [k] != ks && (ks + [k] == ks + [x] ==> k == x)
  {
    assert |ks + [k]| == |ks| + 1;
    assert (ks + [k])[|ks|] == k && (ks + [x])[|ks|] == x;
  }

  /** A run forwards every key at most once exactly when no admission is of a forgotten key. */
  lemma {:induction false} ForwardedOnceIff(steps: seq<Step>)
    ensures Distinct(Run(steps).forwarded) <==> FreshAdmissions(steps)
    decreases |steps|
  {
    if steps != [] {
      hide Next, Distinct, Forgotten;
      var n := |steps| - 1;
      var w := Run(steps[..n]);
      var w' := Next(w, steps[n]);
      ForwardsOne(w, steps[n]);
      ForwardedOnceIff(steps[..n]);
      if w'.forwarded != w.forwarded {
        var k := w.threads[steps[n].who].key;
        DistinctSnoc(w.forwarded, k);
        ForwardedAgainIff(steps[..n], steps[n], k);
        forall x ensures w'.forwarded == w.forwarded + [x] ==> x == k { SameSnoc(w.forwarded, k, x); }
      } else {
        forall x ensures w'.forwarded != w.forwarded + [x] { SameSnoc(w.forwarded, x, x); }
      }
    } else {
      hide Next;
      assert Run(steps).forwarded == [];
    }
  }

  function Tracks(steps: seq<Step>): nat {
    if steps == [] then 0 else Tracks(steps[..|steps| - 1]) + (if steps[|steps| - 1].Track? then 1 else 0)
  }

  lemma {:induction false} RemoveShrinks<K, V>(d: seq<Item<K, V>>, k: K)
    ensures |Remove(d, k)| <= |d|
    decreases |d|
  {
    if d != [] {
      RemoveShrinks(d[..|d| - 1], k);
    }
  }

  /** Nothing is evicted before more than 2048 submissions have been tracked. */
  lemma {:induction false} EvictionNeedsLoad(steps: seq<Step>)
    requires Tracks(steps) <= MAX_TRACKED_SUBMISSIONS
    ensures Run(steps).evicted == {} && |Run(steps).submissions| <= Tracks(steps)
    decreases |steps|
  {
    if steps != [] {
      hide Get, Keys, Remove;
      var n := |steps| - 1;
      var w := Run(steps[..n]);
      EvictionNeedsLoad(steps[..n]);
      if steps[n].Track? && steps[n].who in w.threads && w.threads[steps[n].who].Discarded? {
        RemoveShrinks(w.submissions, w.threads[steps[n].who].key);
      }
    }
  }

  /**
   "At most once" does not hold: between leaving flight and being tracked a key is
   in neither collection, and a second thread can forward it again.
   */
  lemma ForwardedTwice() returns (steps: seq<Step>, key: Key)
    ensures Run(steps).forwarded == [key, key]
  {
    key := Key(9, 1, 2);
    var steps' := [RecordWork(7, 9), LookUp(0, 7, 1, 2, false), LookUp(1, 7, 1, 2, false), Admit(0), Answer(0, Some(true)), Discard(0)];
    steps := steps' + [Admit(1)];
    assert steps[..6] == steps';
    var w0 := Start();
    var w1 := Next(w0, steps[0]);
    assert Remove(w0.work, 7) == [] && w1.work == [Item(7, 9)];
    assert Get(w1.work, 7) == Some(9);
    var w2 := Next(w1, steps[1]);
    var w3 := Next(w2, steps[2]);
    var w4 := Next(w3, steps[3]);
    var w5 := Next(w4, steps[4]);
    var w6 := Next(w5, steps[5]);
    var w7 := Next(w6, steps[6]);
    RunSix(steps, w1, w2, w3, w4, w5, w6);
    assert w7.forwarded == [key, key];
  }

  lemma RunSix(steps: seq<Step>, w1: World, w2: World, w3: World, w4: World, w5: World, w6: World)
    requires |steps| == 7
    requires w1 == Next(Start(), steps[0]) && w2 == Next(w1, steps[1]) && w3 == Next(w2, steps[2])
    requires w4 == Next(w3, steps[3]) && w5 == Next(w4, steps[4]) && w6 == Next(w5, steps[5])
    ensures Run(steps) == Next(w6, steps[6])
  {
    hide Next;
    assert steps[..6][..5] == steps[..5] && steps[..5][..4] == steps[..4] && steps[..4][..3] == steps[..3];
    assert steps[..3][..2] == steps[..2] && steps[..2][..1] == steps[..1] && steps[..1][..0] == [];
    assert Run(steps[..1]) == w1;
    assert Run(steps[..2]) == w2;
    assert Run(steps[..3]) == w3;
    assert Run(steps[..4]) == w4;
    assert Run(steps[..5]) == w5;
    assert Run(steps[..6]) == w6;
  }

  // -------------------------------------------------------------------------
  // The source's class: its critical sections, and a whole submission
  // -------------------------------------------------------------------------

  /** From the node's answer on; steps that do not apply change nothing. */
  function AfterCall(w: World, who: nat, result: Option<bool>): World {
    Next(Next(Next(w, Answer(who, result)), Discard(who)), Track(who))
  }

  /** A submission of one thread that no other thread interrupts. */
  function AfterSubmit(w: World, who: nat, header: Header, nonce: nat, mixDigest: nat, expired: bool, result: Option<bool>): World {
    AfterCall(Next(Next(w, LookUp(who, header, nonce, mixDigest, expired)), Admit(who)), who, result)
  }

  lemma NoCall(w: World, who: nat, result: Option<bool>)
    requires who !in w.threads
    ensures AfterCall(w, who, result) == w
    ensures Next(w, Admit(who)) == w
  {
  }

  lemma SubmitRefused(w: World, who: nat, header: Header, nonce: nat, mixDigest: nat, expired: bool, result: Option<bool>)
    requires who !in Next(w, LookUp(who, header, nonce, mixDigest, expired)).threads
    ensures AfterSubmit(w, who, header, nonce, mixDigest, expired, result) == Next(w, LookUp(who, header, nonce, mixDigest, expired))
  {
    NoCall(Next(w, LookUp(who, header, nonce, mixDigest, expired)), who, result);
  }

  lemma SubmitDuplicate(w: World, who: nat, header: Header, nonce: nat, mixDigest: nat, expired: bool, result: Option<bool>)
    requires who !in Next(Next(w, LookUp(who, header, nonce, mixDigest, expired)), Admit(who)).threads
    ensures AfterSubmit(w, who, header, nonce, mixDigest, expired, result)
            == Next(Next(w, LookUp(who, header, nonce, mixDigest, expired)), Admit(who))
  {
    NoCall(Next(Next(w, LookUp(who, header, nonce, mixDigest, expired)), Admit(who)), who, result);
  }

  lemma SubmitFinished(w: World, known: World, admitted: World, done: World, who: nat,
                       header: Header, nonce: nat, mixDigest: nat, expired: bool, result: Option<bool>)
    requires known == Next(w, LookUp(who, header, nonce, mixDigest, expired)) && admitted == Next(known, Admit(who))
    requires done == AfterCall(admitted, who, result)
    ensures done == AfterSubmit(w, who, header, nonce, mixDigest, expired, result)
  {
  }

  lemma NothingToTrack(w: World, who: nat)
    requires who !in w.threads
    ensures Next(w, Track(who)) == w
  {
  }

  lemma TouchedWork(w: World, header: Header, id: WorkId)
    requires Inv(w)
    ensures var t := Touch(w.work, header, id, MAX_TRACKED_WORK);
            |t| <= MAX_TRACKED_WORK && t != [] && t[|t| - 1] == Item(header, id)
  {
    TouchBounded(w.work, header, id, MAX_TRACKED_WORK);
  }

  lemma TouchedSubmissions(w: World, key: Key, accepted: bool)
    requires Inv(w)
    ensures var t := Touch(w.submissions, key, accepted, MAX_TRACKED_SUBMISSIONS);
            |t| <= MAX_TRACKED_SUBMISSIONS && t != [] && t[|t| - 1] == Item(key, accepted)
  {
    TouchBounded(w.submissions, key, accepted, MAX_TRACKED_SUBMISSIONS);
  }

  /** In a dictionary without repeated keys, a lookup gives the one entry of the key. */
  lemma {:induction false} GetIs<K, V>(d: seq<Item<K, V>>, k: K, v: V)
    requires UniqueKeys(d)
    ensures Get(d, k) == Some(v) <==> Item(k, v) in d
    decreases |d|
  {
    if d != [] {
      var n := |d| - 1;
      GetIs(d[..n], k, v);
      assert forall x :: x in d <==> x in d[..n] || x == d[n];
    }
  }

  /** A submission for work id gets past both checks: the work is tracked, the key neither tracked nor in flight. */
  ghost predicate Admissible(w: World, header: Header, id: WorkId, nonce: nat, mixDigest: nat) {
    Item(header, id) in w.work && Key(id, nonce, mixDigest) !in Keys(w.submissions) && Key(id, nonce, mixDigest) !in w.inflight
  }

  /** What the lookups of a call decide, in terms of the entries. */
  lemma AdmissibleIs(w: World, header: Header, nonce: nat, mixDigest: nat)
    requires Inv(w)
    ensures (exists id: WorkId :: Admissible(w, header, id, nonce, mixDigest)) <==>
            Get(w.work, header).Some? &&
            var key := Key(Get(w.work, header).value, nonce, mixDigest);
            Get(w.submissions, key).None? && key !in w.inflight
  {
    hide Get, Keys;
    if Get(w.work, header).Some? {
      var id := Get(w.work, header).value;
      GetIs(w.work, header, id);
      GetFindsKeys(w.submissions, Key(id, nonce, mixDigest));
      assert Admissible(w, header, id, nonce, mixDigest) <==>
             Get(w.submissions, Key(id, nonce, mixDigest)).None? && Key(id, nonce, mixDigest) !in w.inflight;
    }
    forall id: WorkId | Admissible(w, header, id, nonce, mixDigest) ensures Get(w.work, header) == Some(id) {
      GetIs(w.work, header, id);
    }
  }

  class Adapter {
    var work: seq<Item<Header, WorkId>>
    var submissions: seq<Item<Key, bool>>
    var inflight: set<Key>
    ghost var threads: map<nat, Phase>
    ghost var forwarded: seq<Key>
    ghost var failed: set<Key>
    ghost var evicted: set<Key>

    ghost function View(): World
      reads this
    {
      World(work, submissions, inflight, threads, forwarded, failed, evicted)
    }

    constructor ()
      ensures View() == Start() && Inv(View())
    {
      work, submissions, inflight := [], [], {};
      threads, forwarded, failed, evicted := map[], [], {}, {};
    }

    /** Set a key, move it to the end, evict the oldest entries. */
    method TouchWork(header: Header, id: WorkId)
      modifies this`work
      ensures work == Touch(old(work), header, id, MAX_TRACKED_WORK)
    {
      work := Remove(work, header) + [Item(header, id)];
      ghost var all := work;
      while |work| > MAX_TRACKED_WORK
        invariant |work| <= |all| && work == all[|all| - |work|..]
        invariant |all| > MAX_TRACKED_WORK ==> |work| >= MAX_TRACKED_WORK
        invariant |all| <= MAX_TRACKED_WORK ==> work == all
      {
        work := work[1..];
      }
    }

    method TouchSubmissions(key: Key, accepted: bool)
      modifies this`submissions
      ensures submissions == Touch(old(submissions), key, accepted, MAX_TRACKED_SUBMISSIONS)
    {
      submissions := Remove(submissions, key) + [Item(key, accepted)];
      ghost var all := submissions;
      while |submissions| > MAX_TRACKED_SUBMISSIONS
        invariant |submissions| <= |all| && submissions == all[|all| - |submissions|..]
        invariant |all| > MAX_TRACKED_SUBMISSIONS ==> |submissions| >= MAX_TRACKED_SUBMISSIONS
        invariant |all| <= MAX_TRACKED_SUBMISSIONS ==> submissions == all
      {
        submissions := submissions[1..];
      }
    }

    /** The new work is the newest entry, and at most 64 are kept. */
    method RecordWork(header: Header, id: WorkId)
      requires Inv(View())
      modifies this`work
      ensures View() == Next(old(View()), Step.RecordWork(header, id)) && Inv(View())
      ensures |work| <= MAX_TRACKED_WORK && work != [] && work[|work| - 1] == Item(header, id)
    {
      NextKeepsInv(View(), Step.RecordWork(header, id));
      TouchedWork(View(), header, id);
      hide Inv, Touch;
      TouchWork(header, id);
    }

    /** Unknown or expired work ends the call. */
    method LookUpWork(ghost who: nat, header: Header, nonce: nat, mixDigest: nat, expired: bool) returns (key: Option<Key>)
      requires Inv(View()) && who !in threads
      modifies this`threads
      ensures View() == Next(old(View()), LookUp(who, header, nonce, mixDigest, expired)) && Inv(View())
      ensures key.Some? <==> who in threads
      ensures key.Some? <==> !expired && Get(old(work), header).Some?
      ensures key.Some? ==> key.value == Key(Get(old(work), header).value, nonce, mixDigest)
      ensures key.None? ==> threads == old(threads)
      ensures key.Some? ==> threads == old(threads)[who := LookedUp(key.value)]
    {
      NextKeepsInv(View(), LookUp(who, header, nonce, mixDigest, expired));
      hide Inv;
      var id := Get(work, header);
      if id.None? || expired {
        return None;
      }
      key := Some(Key(id.value, nonce, mixDigest));
      threads := threads[who := LookedUp(key.value)];
    }

    /** A tracked or in-flight key ends the call; any other is forwarded and now in flight. */
    method AdmitKey(ghost who: nat, key: Key) returns (duplicate: bool)
      requires Inv(View()) && who in threads && threads[who] == LookedUp(key)
      modifies this`inflight, this`threads, this`forwarded
      ensures View() == Next(old(View()), Admit(who)) && Inv(View())
      ensures duplicate <==> who !in threads
      ensures duplicate <==> Get(old(submissions), key).Some? || key in old(inflight)
      ensures !duplicate ==> key in inflight && key !in old(inflight)
      ensures forwarded == if duplicate then old(forwarded) else old(forwarded) + [key]
      ensures threads == if duplicate then old(threads) - {who} else old(threads)[who := Calling(key)]
    {
      NextKeepsInv(View(), Admit(who));
      hide Inv;
      if Get(submissions, key).Some? || key in inflight {
        threads := threads - {who};
        return true;
      }
      inflight := inflight + {key};
      threads, forwarded := threads[who := Calling(key)], forwarded + [key];
      return false;
    }

    /** The key leaves flight whatever the node answered; without a usable answer the call ends. */
    method DiscardKey(ghost who: nat, key: Key, result: Option<bool>)
      requires Inv(View()) && who in threads && threads[who] == Answered(key, result)
      modifies this`inflight, this`threads, this`failed
      ensures View() == Next(old(View()), Discard(who)) && Inv(View())
      ensures forall t :: t in threads && InFlight(threads[t]) ==> threads[t].key in inflight && threads[t].key != key
      ensures threads == if result.None? then old(threads) - {who} else old(threads)[who := Discarded(key, result.value)]
    {
      NextKeepsInv(View(), Discard(who));
      inflight := inflight - {key};
      if result.None? {
        threads, failed := threads - {who}, failed + {key};
      } else {
        threads := threads[who := Discarded(key, result.value)];
      }
    }

    /** The submission is the newest entry, and at most 2048 are kept. */
    method TrackSubmission(ghost who: nat, key: Key, accepted: bool)
      requires Inv(View()) && who in threads && threads[who] == Discarded(key, accepted)
      modifies this`submissions, this`threads, this`evicted
      ensures View() == Next(old(View()), Track(who)) && Inv(View())
      ensures |submissions| <= MAX_TRACKED_SUBMISSIONS && submissions != [] && submissions[|submissions| - 1] == Item(key, accepted)
      ensures threads == old(threads) - {who}
    {
      NextKeepsInv(View(), Track(who));
      TouchedSubmissions(View(), key, accepted);
      hide Inv, Touch, Keys, Remove;
      ghost var all := Remove(submissions, key) + [Item(key, accepted)];
      TouchSubmissions(key, accepted);
      threads, evicted := threads - {who}, evicted + (Keys(all) - Keys(submissions));
    }

    /** The node call returns; its answer is not usable if it raises or is malformed. */
    ghost method ReceiveAnswer(who: nat, key: Key, result: Option<bool>)
      requires Inv(View()) && who in threads && threads[who] == Calling(key)
      modifies this`threads
      ensures View() == Next(old(View()), Answer(who, result)) && Inv(View())
      ensures threads == old(threads)[who := Answered(key, result)]
    {
      NextKeepsInv(View(), Answer(who, result));
      threads := threads[who := Answered(key, result)];
    }

    /** A forwarded submission, from the node's answer on. */
    method FinishSubmission(ghost who: nat, key: Key, result: Option<bool>) returns (accepted: bool)
      requires Inv(View()) && who in threads && threads[who] == Calling(key)
      modifies this`inflight, this`submissions, this`threads, this`failed, this`evicted
      ensures View() == AfterCall(old(View()), who, result) && Inv(View())
      ensures threads == old(threads) - {who} && (accepted <==> result == Some(true))
    {
      hide Inv, Next;
      ReceiveAnswer(who, key, result);
      DiscardKey(who, key, result);
      if result.None? {
        NothingToTrack(View(), who);
        return false;
      }
      TrackSubmission(who, key, result.value);
      return result.value;
    }

    /**
     submit_work from lookup to tracking: accepted exactly if the header has
     unexpired work, its key is neither tracked nor in flight, and the node says so.
     */
    method SubmitWork(ghost who: nat, header: Header, nonce: nat, mixDigest: nat, expired: bool, result: Option<bool>)
      returns (accepted: bool)
      requires Inv(View()) && who !in threads
      modifies this
      ensures View() == AfterSubmit(old(View()), who, header, nonce, mixDigest, expired, result) && Inv(View())
      ensures threads == old(threads)
      ensures accepted <==> !expired && result == Some(true) && exists id: WorkId :: Admissible(old(View()), header, id, nonce, mixDigest)
      ensures accepted ==> |forwarded| == |old(forwarded)| + 1
    {
      hide Inv, AfterCall, AfterSubmit, Get, Admissible, Next, Keys;
      ghost var before := View();
      AdmissibleIs(before, header, nonce, mixDigest);
      var key := LookUpWork(who, header, nonce, mixDigest, expired);
      ghost var known := View();
      if key.None? {
        SubmitRefused(before, who, header, nonce, mixDigest, expired, result);
        return false;
      }
      var duplicate := AdmitKey(who, key.value);
      ghost var admitted := View();
      if duplicate {
        SubmitDuplicate(before, who, header, nonce, mixDigest, expired, result);
        return false;
      }
      accepted := FinishSubmission(who, key.value, result);
      SubmitFinished(before, known, admitted, View(), who, header, nonce, mixDigest, expired, result);
    }
  }
}
