/**
 The capped relayer: budget checks made between awaits, serialised by a promise
 tail, with a reservation persisted before each broadcast. Times are Unix
 milliseconds and amounts wei.
 */
module CappedRelayer {
  import opened Wrappers

  const HOUR: int := 3600000
  const DAY: int := 86400000

  datatype Policy = Policy(
    maxTransactionsPerHour: nat, maxDailySpendWei: nat, maxGasPriceWei: nat, gasLimitMultiplierBps: nat, paused: bool)

  datatype Status = Reserved | Submitted | BroadcastUncertain

  /** day is the UTC day the quote was made for. */
  datatype Reservation = Reservation(day: int, at: int, wei: nat, status: Status)

  datatype Quote = Quote(gasLimit: nat, maxFeePerGas: nat, reservedWei: nat, day: int)

  datatype Refusal = Paused | GasPrice | DailyCount | HourlyRate | DailyBudget

  // -------------------------------------------------------------------------
  // The budget check
  // -------------------------------------------------------------------------

  function CountDay(rs: seq<Reservation>, day: int): nat {
    if rs == [] then 0
    else CountDay(rs[..|rs| - 1], day) + (if rs[|rs| - 1].day == day then 1 else 0)
  }

  /** The day's reservations made at or after a time. */
  function CountSince(rs: seq<Reservation>, day: int, since: int): nat {
    if rs == [] then 0
    else
      var last := rs[|rs| - 1];
      CountSince(rs[..|rs| - 1], day, since) + (if last.day == day && last.at >= since then 1 else 0)
  }

  function SumDay(rs: seq<Reservation>, day: int): nat {
    if rs == [] then 0
    else SumDay(rs[..|rs| - 1], day) + (if rs[|rs| - 1].day == day then rs[|rs| - 1].wei else 0)
  }

  function QuoteFor(policy: Policy, estimatedGas: nat, fee: nat, day: int): Quote {
    var gasLimit := estimatedGas * policy.gasLimitMultiplierBps / 10000;
    Quote(gasLimit, fee, gasLimit * fee, day)
  }

  /** The synchronous end of prepare, at clock readings dayClock and hourClock. */
  function Check(policy: Policy, rs: seq<Reservation>, estimatedGas: nat, fee: nat, dayClock: int, hourClock: int): Result<Quote, Refusal> {
    var q := QuoteFor(policy, estimatedGas, fee, dayClock / DAY);
    if fee > policy.maxGasPriceWei then Err(GasPrice)
    else if CountDay(rs, q.day) >= policy.maxTransactionsPerHour * 24 then Err(DailyCount)
    else if CountSince(rs, q.day, hourClock - HOUR) >= policy.maxTransactionsPerHour then Err(HourlyRate)
    else if SumDay(rs, q.day) + q.reservedWei > policy.maxDailySpendWei then Err(DailyBudget)
    else Ok(q)
  }

  /**
   A quote within every limit: the fee at most the cap, the gas limit the estimate
   times the multiplier, rounded down, the day the clock's, and one more
   reservation of limit times fee within the day's and the hour's caps.
   */
  predicate WithinLimits(policy: Policy, rs: seq<Reservation>, estimatedGas: nat, fee: nat, dayClock: int, hourClock: int, q: Quote) {
    && q.maxFeePerGas == fee <= policy.maxGasPriceWei
    && q.gasLimit * 10000 <= estimatedGas * policy.gasLimitMultiplierBps < (q.gasLimit + 1) * 10000
    && q.reservedWei == q.gasLimit * q.maxFeePerGas
    && q.day * DAY <= dayClock < (q.day + 1) * DAY
    && CountDay(rs, q.day) + 1 <= policy.maxTransactionsPerHour * 24
    && CountSince(rs, q.day, hourClock - HOUR) + 1 <= policy.maxTransactionsPerHour
    && SumDay(rs, q.day) + q.reservedWei <= policy.maxDailySpendWei
  }

  /** The check gives a quote exactly if it is within every limit. */
  lemma CheckIff(policy: Policy, rs: seq<Reservation>, estimatedGas: nat, fee: nat, dayClock: int, hourClock: int, q: Quote)
    ensures Check(policy, rs, estimatedGas, fee, dayClock, hourClock) == Ok(q)
            <==> WithinLimits(policy, rs, estimatedGas, fee, dayClock, hourClock, q)
  {
    if WithinLimits(policy, rs, estimatedGas, fee, dayClock, hourClock, q) {
      assert q.gasLimit == estimatedGas * policy.gasLimitMultiplierBps / 10000;
      assert q.day == dayClock / DAY;
    }
  }

  /** A refusal names a limit that the next reservation would exceed. */
  lemma RefusedFor(policy: Policy, rs: seq<Reservation>, estimatedGas: nat, fee: nat, dayClock: int, hourClock: int, day: int)
    requires day * DAY <= dayClock < (day + 1) * DAY
    ensures match Check(policy, rs, estimatedGas, fee, dayClock, hourClock)
            case Ok(_) => true
            case Err(GasPrice) => fee > policy.maxGasPriceWei
            case Err(DailyCount) => CountDay(rs, day) + 1 > policy.maxTransactionsPerHour * 24
            case Err(HourlyRate) => CountSince(rs, day, hourClock - HOUR) + 1 > policy.maxTransactionsPerHour
            case Err(DailyBudget) =>
              SumDay(rs, day) + estimatedGas * policy.gasLimitMultiplierBps / 10000 * fee > policy.maxDailySpendWei
            case Err(Paused) => false
  {
    assert day == dayClock / DAY;
  }

  /** The filters and the sum of the source, as one pass over the reservations. */
  method Prepare(policy: Policy, rs: seq<Reservation>, estimatedGas: nat, fee: nat, dayClock: int, hourClock: int)
    returns (r: Result<Quote, Refusal>)
    ensures r == Check(policy, rs, estimatedGas, fee, dayClock, hourClock)
  {
    if fee > policy.maxGasPriceWei {
      return Err(GasPrice);
    }
    var quote := QuoteFor(policy, estimatedGas, fee, dayClock / DAY);
    var today, recent, dailyReserved := 0, 0, 0;
    var i := 0;
    while i < |rs|
      invariant 0 <= i <= |rs|
      invariant today == CountDay(rs[..i], quote.day)
      invariant recent == CountSince(rs[..i], quote.day, hourClock - HOUR)
      invariant dailyReserved == SumDay(rs[..i], quote.day)
    {
      assert rs[..i + 1][..i] == rs[..i];
      if rs[i].day == quote.day {
        today := today + 1;
        if rs[i].at >= hourClock - HOUR {
          recent := recent + 1;
        }
        dailyReserved := dailyReserved + rs[i].wei;
      }
      i := i + 1;
    }
    assert rs[..i] == rs;
    if today >= policy.maxTransactionsPerHour * 24 {
      return Err(DailyCount);
    }
    if recent >= policy.maxTransactionsPerHour {
      return Err(HourlyRate);
    }
    if dailyReserved + quote.reservedWei > policy.maxDailySpendWei {
      return Err(DailyBudget);
    }
    return Ok(quote);
  }

  // -------------------------------------------------------------------------
  // The protocol: one step per stretch of code between awaits and file writes
  // -------------------------------------------------------------------------

  /**
   Where the one running submission is. A quote's hour check was made at
   `checkedAt`; afterwards `index` is the position of its reservation.
   */
  datatype Phase =
    | Idle
    | Preparing
    | Quoted(quote: Quote, checkedAt: int)
    | Pushed(quote: Quote, index: nat)
    | Persisted(quote: Quote, index: nat)
    | Sending(index: nat)

  datatype Broadcast = Broadcast(reservation: nat, gasLimit: nat, maxFeePerGas: nat)

  datatype World = World(
    memory: seq<Reservation>, file: seq<Reservation>, waiting: nat, phase: Phase, clock: int, broadcasts: seq<Broadcast>)

  datatype Step =
    | Call                                                        // submit: the run is chained to the tail
    | Begin                                                       // the tail settles and the next run starts
    | CheckBudget(estimatedGas: nat, fee: nat, dayDelay: nat, hourDelay: nat)
    | Abandon                                                     // refusal, dry run, missing signer or RPC failure
    | Push(delay: nat)                                            // the reservation enters the list in memory
    | Persist(written: bool)                                      // a failed write ends the run
    | Send                                                        // hand the transaction to the signer
    | Settle(accepted: bool, written: bool, rewritten: bool)      // answer; write; the error path writes again
    | Restart                                                     // a crash at any point, then a new process

  function SetStatus(rs: seq<Reservation>, i: nat, s: Status): seq<Reservation> {
    if i < |rs| then rs[i := rs[i].(status := s)] else rs
  }

  /** A step that does not apply to the current phase leaves the world as it is. */
  function Next(policy: Policy, w: World, step: Step): World {
    match step
    case Call => w.(waiting := w.waiting + 1)
    case Begin =>
      if w.phase.Idle? && w.waiting > 0 then
        w.(waiting := w.waiting - 1, phase := if policy.paused then Idle else Preparing)
      else w
    case CheckBudget(gas, fee, dayDelay, hourDelay) =>
      if !w.phase.Preparing? then w
      else
        var dayClock, hourClock := w.clock + dayDelay, w.clock + dayDelay + hourDelay;
        (match Check(policy, w.memory, gas, fee, dayClock, hourClock)
         case Err(_) => w.(phase := Idle, clock := hourClock)
         case Ok(q) => w.(phase := Quoted(q, hourClock), clock := hourClock))
    case Abandon => if w.phase.Preparing? || w.phase.Quoted? then w.(phase := Idle) else w
    case Push(delay) =>
      if !w.phase.Quoted? then w
      else
        var q, now := w.phase.quote, w.clock + delay;
        w.(memory := w.memory + [Reservation(q.day, now, q.reservedWei, Reserved)], clock := now, phase := Pushed(q, |w.memory|))
    case Persist(written) =>
      if !w.phase.Pushed? then w
      else if written then w.(file := w.memory, phase := Persisted(w.phase.quote, w.phase.index))
      else w.(phase := Idle)
    case Send =>
      if !w.phase.Persisted? then w
      else
        var q := w.phase.quote;
        w.(broadcasts := w.broadcasts + [Broadcast(w.phase.index, q.gasLimit, q.maxFeePerGas)], phase := Sending(w.phase.index))
    case Settle(accepted, written, rewritten) =>
      if !w.phase.Sending? then w
      else
        var done := accepted && written;
        var rs := SetStatus(w.memory, w.phase.index, if done then Submitted else BroadcastUncertain);
        w.(memory := rs, file := if done || rewritten then rs else w.file, phase := Idle)
    case Restart => w.(memory := w.file, waiting := 0, phase := Idle)
  }

  function Start(clock: int): World {
    World([], [], 0, Idle, clock, [])
  }

  function Run(policy: Policy, clock: int, steps: seq<Step>): World {
    if steps == [] then Start(clock)
    else Next(policy, Run(policy, clock, steps[..|steps| - 1]), steps[|steps| - 1])
  }

  // -------------------------------------------------------------------------
  // What every run keeps
  // -------------------------------------------------------------------------

  /** Each day's count and sum are within the caps. */
  ghost predicate DaysCapped(policy: Policy, rs: seq<Reservation>) {
    && (forall day :: CountDay(rs, day) <= policy.maxTransactionsPerHour * 24)
    && (forall day :: SumDay(rs, day) <= policy.maxDailySpendWei)
  }

  /** Up to each reservation, the day's last hour is within the hourly cap. */
  ghost predicate HoursCapped(policy: Policy, rs: seq<Reservation>) {
    forall n :: 0 < n <= |rs| ==> CountSince(rs[..n], rs[n - 1].day, rs[n - 1].at - HOUR) <= policy.maxTransactionsPerHour
  }

  /** An older version of the list: fewer reservations, statuses aside the same. */
  predicate Behind(older: seq<Reservation>, rs: seq<Reservation>) {
    && |older| <= |rs|
    && forall i :: 0 <= i < |older| ==> older[i] == rs[i].(status := older[i].status)
  }

  /** A broadcast was preceded by the persisted reservation of its whole cost. */
  predicate Backed(b: Broadcast, file: seq<Reservation>) {
    b.reservation < |file| && file[b.reservation].wei == b.gasLimit * b.maxFeePerGas
  }

  /** Every broadcast is backed, each by a reservation of its own. */
  ghost predicate AllBacked(bs: seq<Broadcast>, file: seq<Reservation>) {
    && (forall i :: 0 <= i < |bs| ==> Backed(bs[i], file))
    && (forall i, j :: 0 <= i < j < |bs| ==> bs[i].reservation < bs[j].reservation)
  }

  /** The quote still fits the reservations, and its cost is gas limit times fee. */
  predicate QuoteFits(policy: Policy, rs: seq<Reservation>, q: Quote, checkedAt: int) {
    && CountDay(rs, q.day) < policy.maxTransactionsPerHour * 24
    && CountSince(rs, q.day, checkedAt - HOUR) < policy.maxTransactionsPerHour
    && SumDay(rs, q.day) + q.reservedWei <= policy.maxDailySpendWei
    && q.reservedWei == q.gasLimit * q.maxFeePerGas
  }

  predicate Reserves(rs: seq<Reservation>, index: nat, q: Quote) {
    index < |rs| && rs[index].wei == q.gasLimit * q.maxFeePerGas
  }

  /** The gas price cap, for the quote under way and for everything broadcast. */
  predicate FeesCapped(policy: Policy, w: World) {
    && (w.phase.Quoted? || w.phase.Pushed? || w.phase.Persisted? ==> w.phase.quote.maxFeePerGas <= policy.maxGasPriceWei)
    && (forall i :: 0 <= i < |w.broadcasts| ==> w.broadcasts[i].maxFeePerGas <= policy.maxGasPriceWei)
  }

  lemma NextKeepsFees(policy: Policy, w: World, step: Step)
    requires FeesCapped(policy, w)
    ensures FeesCapped(policy, Next(policy, w, step))
  {
    hide CountDay, CountSince, SumDay;
  }

  lemma {:induction false} EveryRunFees(policy: Policy, clock: int, steps: seq<Step>)
    ensures FeesCapped(policy, Run(policy, clock, steps))
    decreases |steps|
  {
    if steps != [] {
      hide Next, FeesCapped;
      EveryRunFees(policy, clock, steps[..|steps| - 1]);
      NextKeepsFees(policy, Run(policy, clock, steps[..|steps| - 1]), steps[|steps| - 1]);
    }
  }

  ghost predicate PhaseFits(policy: Policy, w: World) {
    match w.phase
    case Quoted(q, checkedAt) => checkedAt <= w.clock && QuoteFits(policy, w.memory, q, checkedAt)
    case Pushed(q, index) => Reserves(w.memory, index, q) && |w.file| <= index
    case Persisted(q, index) =>
      Reserves(w.file, index, q) && forall i :: 0 <= i < |w.broadcasts| ==> w.broadcasts[i].reservation < index
    case _ => true
  }

  ghost predicate Inv(policy: Policy, w: World) {
    && Behind(w.file, w.memory)
    && DaysCapped(policy, w.memory) && HoursCapped(policy, w.memory)
    && AllBacked(w.broadcasts, w.file)
    && PhaseFits(policy, w)
  }

  lemma Appended(rs: seq<Reservation>, r: Reservation, day: int, since: int)
    ensures CountDay(rs + [r], day) == CountDay(rs, day) + (if r.day == day then 1 else 0)
    ensures SumDay(rs + [r], day) == SumDay(rs, day) + (if r.day == day then r.wei else 0)
    ensures CountSince(rs + [r], day, since) == CountSince(rs, day, since) + (if r.day == day && r.at >= since then 1 else 0)
  {
    assert (rs + [r])[..|rs|] == rs;
  }

  lemma {:induction false} LaterSinceCountsLess(rs: seq<Reservation>, day: int, since: int, since': int)
    requires since <= since'
    ensures CountSince(rs, day, since') <= CountSince(rs, day, since)
    decreases |rs|
  {
    if rs != [] {
      LaterSinceCountsLess(rs[..|rs| - 1], day, since, since');
    }
  }

  /** An older version of the list counts no more. */
  lemma {:induction false} BehindCounts(older: seq<Reservation>, rs: seq<Reservation>, day: int, since: int)
    requires Behind(older, rs)
    ensures CountDay(older, day) <= CountDay(rs, day) && SumDay(older, day) <= SumDay(rs, day)
    ensures CountSince(older, day, since) <= CountSince(rs, day, since)
    decreases |rs|
  {
    if rs != [] {
      var n := |rs| - 1;
      BehindCounts(if |older| == |rs| then older[..n] else older, rs[..n], day, since);
    }
  }

  /** So the caps hold of it too: of the file, and of the list after a restart or a status change. */
  lemma BehindCapped(policy: Policy, older: seq<Reservation>, rs: seq<Reservation>)
    requires Behind(older, rs) && DaysCapped(policy, rs) && HoursCapped(policy, rs)
    ensures DaysCapped(policy, older) && HoursCapped(policy, older)
  {
    hide CountDay, SumDay, CountSince;
    forall day ensures CountDay(older, day) <= policy.maxTransactionsPerHour * 24 && SumDay(older, day) <= policy.maxDailySpendWei {
      BehindCounts(older, rs, day, 0);
    }
    forall n | 0 < n <= |older|
      ensures CountSince(older[..n], older[n - 1].day, older[n - 1].at - HOUR) <= policy.maxTransactionsPerHour
    {
      BehindCounts(older[..n], rs[..n], older[n - 1].day, older[n - 1].at - HOUR);
    }
  }

  lemma AppendDays(policy: Policy, rs: seq<Reservation>, q: Quote, checkedAt: int, at: int)
    requires DaysCapped(policy, rs) && QuoteFits(policy, rs, q, checkedAt)
    ensures DaysCapped(policy, rs + [Reservation(q.day, at, q.reservedWei, Reserved)])
  {
    var r := Reservation(q.day, at, q.reservedWei, Reserved);
    forall day
      ensures CountDay(rs + [r], day) <= policy.maxTransactionsPerHour * 24 && SumDay(rs + [r], day) <= policy.maxDailySpendWei
    {
      Appended(rs, r, day, 0);
    }
  }

  lemma AppendHours(policy: Policy, rs: seq<Reservation>, q: Quote, checkedAt: int, at: int)
    requires HoursCapped(policy, rs) && QuoteFits(policy, rs, q, checkedAt) && checkedAt <= at
    ensures HoursCapped(policy, rs + [Reservation(q.day, at, q.reservedWei, Reserved)])
  {
    hide CountSince;
    var r := Reservation(q.day, at, q.reservedWei, Reserved);
    var rs' := rs + [r];
    forall n | 0 < n <= |rs'|
      ensures CountSince(rs'[..n], rs'[n - 1].day, rs'[n - 1].at - HOUR) <= policy.maxTransactionsPerHour
    {
      if n < |rs'| {
        assert rs'[..n] == rs[..n];
      } else {
        assert rs'[..n] == rs';
        Appended(rs, r, q.day, at - HOUR);
        LaterSinceCountsLess(rs, q.day, checkedAt - HOUR, at - HOUR);
      }
    }
  }

  lemma PushKeepsInv(policy: Policy, w: World, delay: nat)
    requires Inv(policy, w) && w.phase.Quoted?
    ensures Inv(policy, Next(policy, w, Push(delay)))
  {
    hide DaysCapped, HoursCapped, AllBacked;
    AppendDays(policy, w.memory, w.phase.quote, w.phase.checkedAt, w.clock + delay);
    AppendHours(policy, w.memory, w.phase.quote, w.phase.checkedAt, w.clock + delay);
  }

  /** A newer version of the file backs the same broadcasts. */
  lemma NewerBacks(bs: seq<Broadcast>, older: seq<Reservation>, rs: seq<Reservation>)
    requires AllBacked(bs, older) && Behind(older, rs)
    ensures AllBacked(bs, rs)
  {
    forall i | 0 <= i < |bs| ensures Backed(bs[i], rs) {
      assert Backed(bs[i], older);
    }
  }

  lemma PersistKeepsInv(policy: Policy, w: World, written: bool)
    requires Inv(policy, w) && w.phase.Pushed?
    ensures Inv(policy, Next(policy, w, Persist(written)))
  {
    hide DaysCapped, HoursCapped;
    NewerBacks(w.broadcasts, w.file, w.memory);
    forall i | 0 <= i < |w.broadcasts| ensures w.broadcasts[i].reservation < w.phase.index {
      assert Backed(w.broadcasts[i], w.file);
    }
  }

  lemma SettleKeepsInv(policy: Policy, w: World, accepted: bool, written: bool, rewritten: bool)
    requires Inv(policy, w) && w.phase.Sending?
    ensures Inv(policy, Next(policy, w, Settle(accepted, written, rewritten)))
  {
    hide DaysCapped, HoursCapped, AllBacked;
    var w' := Next(policy, w, Settle(accepted, written, rewritten));
    BehindCapped(policy, w'.memory, w.memory);
    NewerBacks(w.broadcasts, w.file, w'.memory);
  }

  lemma NextKeepsInv(policy: Policy, w: World, step: Step)
    requires Inv(policy, w)
    ensures Inv(policy, Next(policy, w, step))
  {
    hide DaysCapped, HoursCapped;
    if step.Push? && w.phase.Quoted? {
      PushKeepsInv(policy, w, step.delay);
    } else if step.Persist? && w.phase.Pushed? {
      PersistKeepsInv(policy, w, step.written);
    } else if step.Settle? && w.phase.Sending? {
      SettleKeepsInv(policy, w, step.accepted, step.written, step.rewritten);
    } else if step.Restart? {
      BehindCapped(policy, w.file, w.memory);
    }
  }

  lemma {:induction false} EveryRunKeepsInv(policy: Policy, clock: int, steps: seq<Step>)
    ensures Inv(policy, Run(policy, clock, steps))
    decreases |steps|
  {
    if steps != [] {
      hide Next, Inv;
      EveryRunKeepsInv(policy, clock, steps[..|steps| - 1]);
      NextKeepsInv(policy, Run(policy, clock, steps[..|steps| - 1]), steps[|steps| - 1]);
    } else {
      StartInv(policy, clock);
    }
  }

  lemma StartInv(policy: Policy, clock: int)
    ensures Inv(policy, Start(clock))
  {
  }

  /** The day's reservations with a time in lo..hi. */
  function CountWindow(rs: seq<Reservation>, day: int, lo: int, hi: int): nat {
    if rs == [] then 0
    else
      var last := rs[|rs| - 1];
      CountWindow(rs[..|rs| - 1], day, lo, hi) + (if last.day == day && lo <= last.at <= hi then 1 else 0)
  }

  lemma {:induction false} WindowWithinSince(rs: seq<Reservation>, day: int, lo: int, hi: int, since: int)
    requires since <= lo
    ensures CountWindow(rs, day, lo, hi) <= CountSince(rs, day, since)
    decreases |rs|
  {
    if rs != [] {
      WindowWithinSince(rs[..|rs| - 1], day, lo, hi, since);
    }
  }

  /** Any one-hour window of a day ends at a reservation or counts none. */
  lemma {:induction false} WindowCapped(policy: Policy, rs: seq<Reservation>, day: int, lo: int)
    requires HoursCapped(policy, rs)
    ensures CountWindow(rs, day, lo, lo + HOUR) <= policy.maxTransactionsPerHour
    decreases |rs|
  {
    if rs != [] {
      var n := |rs| - 1;
      var last := rs[n];
      if last.day == day && lo <= last.at <= lo + HOUR {
        assert rs[..|rs|] == rs;
        WindowWithinSince(rs, day, lo, lo + HOUR, last.at - HOUR);
      } else {
        forall m | 0 < m <= n
          ensures CountSince(rs[..n][..m], rs[..n][m - 1].day, rs[..n][m - 1].at - HOUR) <= policy.maxTransactionsPerHour
        {
          assert rs[..n][..m] == rs[..m];
        }
        WindowCapped(policy, rs[..n], day, lo);
      }
    }
  }

  function HourFrom(rs: seq<Reservation>, day: int, lo: int): nat {
    CountWindow(rs, day, lo, lo + HOUR)
  }

  /** The gas cost, at limit and fee cap, of the broadcasts reserved for a day. */
  function SpentDay(bs: seq<Broadcast>, file: seq<Reservation>, day: int): nat {
    if bs == [] then 0
    else
      var b := bs[|bs| - 1];
      SpentDay(bs[..|bs| - 1], file, day)
      + (if b.reservation < |file| && file[b.reservation].day == day then file[b.reservation].wei else 0)
  }

  lemma {:induction false} SpentByFront(bs: seq<Broadcast>, file: seq<Reservation>, n: nat, day: int)
    requires n <= |file| && forall i :: 0 <= i < |bs| ==> bs[i].reservation < n
    ensures SpentDay(bs, file, day) == SpentDay(bs, file[..n], day)
    decreases |bs|
  {
    if bs != [] {
      SpentByFront(bs[..|bs| - 1], file, n, day);
    }
  }

  /** Without the last reservation, and the broadcast it backs if there is one. */
  lemma FrontBacked(bs: seq<Broadcast>, file: seq<Reservation>, front: seq<Broadcast>)
    requires AllBacked(bs, file) && bs != [] && file != []
    requires front == if bs[|bs| - 1].reservation == |file| - 1 then bs[..|bs| - 1] else bs
    ensures AllBacked(front, file[..|file| - 1])
    ensures forall i :: 0 <= i < |front| ==> front[i].reservation < |file| - 1
  {
    var n, m := |file| - 1, |bs| - 1;
    forall i | 0 <= i < |front| ensures Backed(front[i], file[..n]) && front[i].reservation < n {
      assert Backed(bs[i], file) && Backed(bs[m], file);
      assert i < m ==> bs[i].reservation < bs[m].reservation;
    }
  }

  /** What is broadcast for a day costs no more than what is reserved for it. */
  lemma {:induction false} SpentWithinReserved(bs: seq<Broadcast>, file: seq<Reservation>, day: int)
    requires AllBacked(bs, file)
    ensures SpentDay(bs, file, day) <= SumDay(file, day)
    decreases |file|
  {
    if bs != [] {
      var n, m := |file| - 1, |bs| - 1;
      assert Backed(bs[m], file);
      var front := if bs[m].reservation == n then bs[..m] else bs;
      FrontBacked(bs, file, front);
      hide AllBacked;
      SpentByFront(front, file, n, day);
      SpentWithinReserved(front, file[..n], day);
    }
  }

  /**
   Over every interleaving of submissions, failed writes, failed broadcasts and
   crashes: each day's reservations, in memory and in the file, stay within the
   spend and count caps, every one-hour window of a day within the hourly cap,
   every broadcast has its full cost reserved in the file by an entry of its
   own, the broadcasts of a day together stay within its spend cap, and none pays
   more than the gas price cap.
   */
  lemma BudgetHolds(policy: Policy, clock: int, steps: seq<Step>)
    ensures var w := Run(policy, clock, steps);
            && (forall rs, day :: rs in [w.memory, w.file] ==> SumDay(rs, day) <= policy.maxDailySpendWei)
            && (forall rs, day :: rs in [w.memory, w.file] ==> CountDay(rs, day) <= policy.maxTransactionsPerHour * 24)
            && (forall rs, day, lo :: rs in [w.memory, w.file] ==> HourFrom(rs, day, lo) <= policy.maxTransactionsPerHour)
            && AllBacked(w.broadcasts, w.file)
            && (forall day :: SpentDay(w.broadcasts, w.file, day) <= policy.maxDailySpendWei)
            && (forall i :: 0 <= i < |w.broadcasts| ==> w.broadcasts[i].maxFeePerGas <= policy.maxGasPriceWei)
  {
    hide Next, Run, AllBacked;
    EveryRunFees(policy, clock, steps);
    EveryRunKeepsInv(policy, clock, steps);
    var w := Run(policy, clock, steps);
    BehindCapped(policy, w.file, w.memory);
    forall rs, day, lo | rs in [w.memory, w.file] ensures HourFrom(rs, day, lo) <= policy.maxTransactionsPerHour {
      WindowCapped(policy, rs, day, lo);
    }
    forall day ensures SpentDay(w.broadcasts, w.file, day) <= policy.maxDailySpendWei {
      SpentWithinReserved(w.broadcasts, w.file, day);
    }
  }

  // -------------------------------------------------------------------------
  // Windows that cross midnight
  // -------------------------------------------------------------------------

  /** All reservations with a time in lo..hi, whatever their day. */
  function CountAll(rs: seq<Reservation>, lo: int, hi: int): nat {
    if rs == [] then 0
    else CountAll(rs[..|rs| - 1], lo, hi) + (if lo <= rs[|rs| - 1].at <= hi then 1 else 0)
  }

  /** Each reservation was made in its day, or at most `slack` after it. */
  predicate Prompt(rs: seq<Reservation>, slack: nat) {
    forall i :: 0 <= i < |rs| ==> rs[i].day * DAY <= rs[i].at < (rs[i].day + 1) * DAY + slack
  }

  lemma {:induction false} TwoDays(rs: seq<Reservation>, lo: int, hi: int, e: int)
    requires forall i :: 0 <= i < |rs| && lo <= rs[i].at <= hi ==> rs[i].day == e || rs[i].day == e - 1
    ensures CountAll(rs, lo, hi) == CountWindow(rs, e, lo, hi) + CountWindow(rs, e - 1, lo, hi)
    decreases |rs|
  {
    if rs != [] {
      TwoDays(rs[..|rs| - 1], lo, hi, e);
    }
  }

  /** An hour of such reservations belongs to two days at most. */
  lemma AnyWindowCapped(policy: Policy, rs: seq<Reservation>, lo: int, slack: nat)
    requires HoursCapped(policy, rs) && Prompt(rs, slack) && slack + HOUR <= DAY
    ensures CountAll(rs, lo, lo + HOUR) <= 2 * policy.maxTransactionsPerHour
  {
    hide HoursCapped;
    var e := (lo + HOUR) / DAY;
    TwoDays(rs, lo, lo + HOUR, e);
    WindowCapped(policy, rs, e, lo);
    WindowCapped(policy, rs, e - 1, lo);
  }

  /** Clock delays between the day's reading and the hour's, and from there to the reservation. */
  predicate Quick(steps: seq<Step>, quoting: nat, pushing: nat) {
    forall i :: 0 <= i < |steps| ==>
      (steps[i].CheckBudget? ==> steps[i].hourDelay <= quoting) && (steps[i].Push? ==> steps[i].delay <= pushing)
  }

  predicate PromptWorld(w: World, quoting: nat, pushing: nat) {
    && Prompt(w.memory, quoting + pushing) && Prompt(w.file, quoting + pushing)
    && (w.phase.Quoted? ==> w.phase.quote.day * DAY <= w.clock < (w.phase.quote.day + 1) * DAY + quoting)
  }

  lemma CheckedDay(policy: Policy, rs: seq<Reservation>, gas: nat, fee: nat, dayClock: int, hourClock: int)
    requires Check(policy, rs, gas, fee, dayClock, hourClock).Ok?
    ensures var day := Check(policy, rs, gas, fee, dayClock, hourClock).value.day; day * DAY <= dayClock < (day + 1) * DAY
  {
  }

  lemma NextKeepsPrompt(policy: Policy, w: World, step: Step, quoting: nat, pushing: nat)
    requires PromptWorld(w, quoting, pushing) && Quick([step], quoting, pushing)
    ensures PromptWorld(Next(policy, w, step), quoting, pushing)
  {
    hide Check;
    assert [step][0] == step;
    if step.CheckBudget? && w.phase.Preparing? {
      var dayClock := w.clock + step.dayDelay;
      if Check(policy, w.memory, step.estimatedGas, step.fee, dayClock, dayClock + step.hourDelay).Ok? {
        CheckedDay(policy, w.memory, step.estimatedGas, step.fee, dayClock, dayClock + step.hourDelay);
      }
    }
  }

  lemma {:induction false} EveryRunPrompt(policy: Policy, clock: int, steps: seq<Step>, quoting: nat, pushing: nat)
    requires Quick(steps, quoting, pushing)
    ensures PromptWorld(Run(policy, clock, steps), quoting, pushing)
    decreases |steps|
  {
    if steps != [] {
      hide Next, PromptWorld;
      var n := |steps| - 1;
      EveryRunPrompt(policy, clock, steps[..n], quoting, pushing);
      NextKeepsPrompt(policy, Run(policy, clock, steps[..n]), steps[n], quoting, pushing);
    }
  }

  /**
   Over every interleaving whose delays from the day's reading to the reservation
   stay below 23 hours, any one-hour window, midnight or not, holds at most twice
   the hourly cap.
   */
  lemma MidnightBound(policy: Policy, clock: int, steps: seq<Step>, quoting: nat, pushing: nat, lo: int)
    requires Quick(steps, quoting, pushing) && quoting + pushing + HOUR <= DAY
    ensures var w := Run(policy, clock, steps);
            forall rs :: rs in [w.memory, w.file] ==> CountAll(rs, lo, lo + HOUR) <= 2 * policy.maxTransactionsPerHour
  {
    hide Run, Prompt;
    EveryRunKeepsInv(policy, clock, steps);
    EveryRunPrompt(policy, clock, steps, quoting, pushing);
    var w := Run(policy, clock, steps);
    BehindCapped(policy, w.file, w.memory);
    forall rs | rs in [w.memory, w.file] ensures CountAll(rs, lo, lo + HOUR) <= 2 * policy.maxTransactionsPerHour {
      AnyWindowCapped(policy, rs, lo, quoting + pushing);
    }
  }

  /** One submission without cost, by itself, a number of milliseconds after the last. */
  function FreeSubmission(dayDelay: nat): seq<Step> {
    [Call, Begin, CheckBudget(0, 0, dayDelay, 0), Push(0), Persist(true)]
  }

  /** Nothing of the day is reserved yet, and submissions may run one at a time. */
  predicate FreeDay(policy: Policy, w: World, clock: int) {
    && w.phase.Idle? && w.waiting == 0 && !policy.paused && policy.maxTransactionsPerHour == 1
    && CountDay(w.memory, clock / DAY) == 0 && CountSince(w.memory, clock / DAY, clock - HOUR) == 0
    && SumDay(w.memory, clock / DAY) == 0
  }

  lemma FreeQuote(policy: Policy, w: World, dayDelay: nat)
    requires FreeDay(policy, w, w.clock + dayDelay)
    ensures var clock := w.clock + dayDelay;
            Next(policy, Next(policy, Next(policy, w, Call), Begin), CheckBudget(0, 0, dayDelay, 0))
            == w.(phase := Quoted(Quote(0, 0, 0, clock / DAY), clock), clock := clock)
  {
    var clock := w.clock + dayDelay;
    assert QuoteFor(policy, 0, 0, clock / DAY) == Quote(0, 0, 0, clock / DAY);
    assert Check(policy, w.memory, 0, 0, clock, clock) == Ok(Quote(0, 0, 0, clock / DAY));
    hide Check, QuoteFor, CountDay, CountSince, SumDay;
  }

  lemma FreeReservation(policy: Policy, w: World, day: int)
    requires w.phase.Quoted? && w.phase.quote == Quote(0, 0, 0, day)
    ensures var rs := w.memory + [Reservation(day, w.clock, 0, Reserved)];
            Next(policy, Next(policy, w, Push(0)), Persist(true))
            == w.(memory := rs, file := rs, phase := Persisted(Quote(0, 0, 0, day), |w.memory|))
  {
  }

  lemma FreeSubmissionReserves(policy: Policy, clock: int, steps: seq<Step>, dayDelay: nat)
    requires FreeDay(policy, Run(policy, clock, steps), Run(policy, clock, steps).clock + dayDelay)
    ensures var w, w' := Run(policy, clock, steps), Run(policy, clock, steps + FreeSubmission(dayDelay));
            && w'.clock == w.clock + dayDelay && w'.waiting == 0 && w'.phase.Persisted? && w'.memory == w'.file
            && w'.memory == w.memory + [Reservation(w'.clock / DAY, w'.clock, 0, Reserved)]
            && w'.phase.index == |w.memory|
  {
    hide Next, Run;
    var w := Run(policy, clock, steps);
    FreeQuote(policy, w, dayDelay);
    assert w.waiting == 0;
    FreeReservation(policy, Next(policy, Next(policy, Next(policy, w, Call), Begin), CheckBudget(0, 0, dayDelay, 0)),
                    (w.clock + dayDelay) / DAY);
    RunFive(policy, clock, steps, Call, Begin, CheckBudget(0, 0, dayDelay, 0), Push(0), Persist(true));
  }

  lemma RunFive(policy: Policy, clock: int, steps: seq<Step>, a: Step, b: Step, c: Step, d: Step, e: Step)
    ensures Run(policy, clock, steps + [a, b, c, d, e])
            == Next(policy, Next(policy, Next(policy, Next(policy, Next(policy, Run(policy, clock, steps), a), b), c), d), e)
  {
    hide Next, Run;
    RunSnoc(policy, clock, steps, a);
    RunSnoc(policy, clock, steps + [a], b);
    RunSnoc(policy, clock, steps + [a] + [b], c);
    RunSnoc(policy, clock, steps + [a] + [b] + [c], d);
    RunSnoc(policy, clock, steps + [a] + [b] + [c] + [d], e);
    assert steps + [a, b, c, d, e] == steps + [a] + [b] + [c] + [d] + [e];
  }

  lemma RunSnoc(policy: Policy, clock: int, steps: seq<Step>, step: Step)
    ensures Run(policy, clock, steps + [step]) == Next(policy, Run(policy, clock, steps), step)
  {
    hide Next;
    assert (steps + [step])[..|steps|] == steps;
  }

  /** A free reservation of a day, broadcast and settled. */
  lemma FirstDay(policy: Policy, clock: int) returns (steps: seq<Step>)
    requires policy == Policy(1, 0, 0, 10000, false) && clock == DAY - 1
    ensures Quick(steps, 0, 0)
    ensures var w := Run(policy, clock, steps);
            w.phase.Idle? && w.waiting == 0 && w.clock == clock && w.memory == [Reservation(0, clock, 0, Submitted)]
  {
    var first := FreeSubmission(0);
    assert [] + first == first;
    FreeSubmissionReserves(policy, clock, [], 0);
    hide Run;
    steps := first + [Send] + [Settle(true, true, true)];
    RunSnoc(policy, clock, first, Send);
    RunSnoc(policy, clock, first + [Send], Settle(true, true, true));
  }

  /** The last millisecond of a day and the first of the next: with a cap of one, two reservations in an hour. */
  lemma MidnightExceedsCap() returns (policy: Policy, clock: int, steps: seq<Step>)
    ensures Quick(steps, 0, 0) && policy.maxTransactionsPerHour == 1
    ensures CountAll(Run(policy, clock, steps).file, clock, clock + HOUR) == 2
  {
    policy := Policy(1, 0, 0, 10000, false);
    clock := DAY - 1;
    var one := FirstDay(policy, clock);
    steps := one + FreeSubmission(1);
    var r := Reservation(0, clock, 0, Submitted);
    NextDayFree(policy, r, Run(policy, clock, one));
    hide Run, FreeDay;
    FreeSubmissionReserves(policy, clock, one, 1);
    assert Run(policy, clock, steps).file == [r] + [Reservation(1, DAY, 0, Reserved)];
    CountTwo(r, Reservation(1, DAY, 0, Reserved), clock, clock + HOUR);
  }

  lemma CountTwo(a: Reservation, b: Reservation, lo: int, hi: int)
    requires lo <= a.at <= hi && lo <= b.at <= hi
    ensures CountAll([a] + [b], lo, hi) == 2
  {
    var two := [a] + [b];
    assert two[..1] == [a] && [a][..0] == [];
    assert CountAll([a], lo, hi) == 1;
    assert CountAll(two, lo, hi) == CountAll(two[..1], lo, hi) + 1;
  }

  lemma NextDayFree(policy: Policy, r: Reservation, w: World)
    requires policy == Policy(1, 0, 0, 10000, false) && w.clock == DAY - 1 && r.day == 0
    requires w.phase.Idle? && w.waiting == 0 && w.memory == [r]
    ensures FreeDay(policy, w, DAY)
  {
    assert [r][..0] == [];
  }

  /** Without the tail two checks could pass on the same reservations and overspend together. */
  lemma InterleavedChecksOverspend() returns (policy: Policy, rs: seq<Reservation>, q: Quote)
    ensures Check(policy, rs, 1, 6, 0, 0) == Ok(q) && SumDay(rs, q.day) <= policy.maxDailySpendWei
    ensures var r := Reservation(q.day, 0, q.reservedWei, Reserved);
            SumDay(rs + [r] + [r], q.day) > policy.maxDailySpendWei
  {
    policy := Policy(30, 10, 100, 10000, false);
    rs := [];
    q := Quote(1, 6, 6, 0);
    var r := Reservation(0, 0, 6, Reserved);
    Appended(rs, r, 0, 0);
    Appended(rs + [r], r, 0, 0);
  }

  /** A process started after a crash knows what the file holds, and has no submission under way or waiting. */
  lemma RestartReadsFile(policy: Policy, clock: int, steps: seq<Step>)
    ensures var w, w' := Run(policy, clock, steps), Run(policy, clock, steps + [Restart]);
            w' == World(w.file, w.file, 0, Idle, w.clock, w.broadcasts)
  {
    hide Run;
    RunSnoc(policy, clock, steps, Restart);
  }

  // -------------------------------------------------------------------------
  // The source's class, one submission at a time
  // -------------------------------------------------------------------------

  /** What one submission meets: its quote, clock delays, and the outcomes of calls and writes. */
  datatype Attempt = Attempt(
    estimatedGas: nat, fee: nat, dayDelay: nat, hourDelay: nat, broadcast: bool, delay: nat,
    persisted: bool, accepted: bool, written: bool, rewritten: bool)

  /** What the caller gets: a refusal, an unsent quote, a failed reservation write, or the outcome of the broadcast. */
  datatype Answer =
    | Refused(reason: Refusal)
    | NotSent(quote: Quote)                                       // a dry run, or no signer
    | NotReserved
    | Sent(quote: Quote)
    | Uncertain                                                   // the error of the broadcast or of the write after it

  /** The reservation and the broadcast that a quote leads to, with the clock at the reservation. */
  predicate BroadcastFor(w: World, w': World, q: Quote, at: int, submitted: bool, saved: bool) {
    var r := Reservation(q.day, at, q.gasLimit * q.maxFeePerGas, Reserved);
    var settled := w.memory + [r.(status := if submitted then Submitted else BroadcastUncertain)];
    w' == w.(broadcasts := w.broadcasts + [Broadcast(|w.memory|, q.gasLimit, q.maxFeePerGas)],
             memory := settled, file := if saved then settled else w.memory + [r], clock := at, phase := Idle)
  }

  /** The reservation stays in memory only. */
  predicate ReservedInMemory(w: World, w': World, q: Quote, at: int) {
    w' == w.(memory := w.memory + [Reservation(q.day, at, q.gasLimit * q.maxFeePerGas, Reserved)], clock := at, phase := Idle)
  }

  /**
   The effect and the answer of one submission: a quote within every limit is
   reserved in the file and broadcast once at its own limit and fee, and called
   submitted exactly if the broadcast and the write after it succeed; without such
   a quote, or without the reservation in the file, nothing is broadcast.
   */
  ghost predicate AttemptEffect(policy: Policy, w: World, w': World, a: Attempt, answer: Answer) {
    var dayClock, hourClock := w.clock + a.dayDelay, w.clock + a.dayDelay + a.hourDelay;
    if policy.paused then answer == Refused(Paused) && w' == w
    else
      && (answer.Refused? <==> forall q :: !WithinLimits(policy, w.memory, a.estimatedGas, a.fee, dayClock, hourClock, q))
      && (answer.Refused? ==> w' == w.(clock := hourClock))
      && (forall q :: WithinLimits(policy, w.memory, a.estimatedGas, a.fee, dayClock, hourClock, q) ==>
            if !a.broadcast then answer == NotSent(q) && w' == w.(clock := hourClock)
            else if !a.persisted then answer.NotReserved? && ReservedInMemory(w, w', q, hourClock + a.delay)
            else
              && answer == (if a.accepted && a.written then Sent(q) else Uncertain)
              && BroadcastFor(w, w', q, hourClock + a.delay, a.accepted && a.written, (a.accepted && a.written) || a.rewritten))
  }

  lemma QuoteEffect(policy: Policy, w: World, q: Quote, checkedAt: int, a: Attempt)
    requires q.reservedWei == q.gasLimit * q.maxFeePerGas
    ensures var w' := AfterQuote(policy, w.(phase := Quoted(q, checkedAt), clock := checkedAt), a);
            if a.persisted then
              BroadcastFor(w, w', q, checkedAt + a.delay, a.accepted && a.written, (a.accepted && a.written) || a.rewritten)
            else ReservedInMemory(w, w', q, checkedAt + a.delay)
  {
    var r := Reservation(q.day, checkedAt + a.delay, q.reservedWei, Reserved);
    var rs, i := w.memory + [r], |w.memory|;
    assert rs[i := r.(status := Submitted)] == w.memory + [r.(status := Submitted)];
    assert rs[i := r.(status := BroadcastUncertain)] == w.memory + [r.(status := BroadcastUncertain)];
  }

  /** From the budget check on; steps that do not apply leave the world as it is. */
  function AfterAttempt(policy: Policy, w: World, a: Attempt): World {
    var quoted := Next(policy, w, CheckBudget(a.estimatedGas, a.fee, a.dayDelay, a.hourDelay));
    AfterQuote(policy, if a.broadcast then quoted else Next(policy, quoted, Abandon), a)
  }

  function AfterQuote(policy: Policy, w: World, a: Attempt): World {
    var persisted := Next(policy, Next(policy, w, Push(a.delay)), Persist(a.persisted));
    Next(policy, Next(policy, persisted, Send), Settle(a.accepted, a.written, a.rewritten))
  }

  lemma AttemptKeepsInv(policy: Policy, w: World, a: Attempt)
    requires Inv(policy, w)
    ensures Inv(policy, AfterAttempt(policy, w, a))
  {
    hide Next, Inv;
    var check := CheckBudget(a.estimatedGas, a.fee, a.dayDelay, a.hourDelay);
    NextKeepsInv(policy, w, check);
    var checked := Next(policy, w, check);
    NextKeepsInv(policy, checked, Abandon);
    var quoted := if a.broadcast then checked else Next(policy, checked, Abandon);
    var pushed := Next(policy, quoted, Push(a.delay));
    var persisted := Next(policy, pushed, Persist(a.persisted));
    NextKeepsInv(policy, quoted, Push(a.delay));
    NextKeepsInv(policy, pushed, Persist(a.persisted));
    NextKeepsInv(policy, persisted, Send);
    NextKeepsInv(policy, Next(policy, persisted, Send), Settle(a.accepted, a.written, a.rewritten));
  }

  /** A refused or unsent quote only lets the clock run; a good one goes on to its reservation. */
  lemma AttemptOutcome(policy: Policy, w: World, a: Attempt)
    requires w.phase.Preparing?
    ensures var dayClock, hourClock := w.clock + a.dayDelay, w.clock + a.dayDelay + a.hourDelay;
            var r := Check(policy, w.memory, a.estimatedGas, a.fee, dayClock, hourClock);
            AfterAttempt(policy, w, a)
            == if r.Ok? && a.broadcast then AfterQuote(policy, w.(phase := Quoted(r.value, hourClock), clock := hourClock), a)
               else w.(phase := Idle, clock := hourClock)
  {
    hide Check;
  }

  /** The check in terms of the limits, for all quotes at once. */
  lemma LimitsDecide(policy: Policy, rs: seq<Reservation>, a: Attempt, dayClock: int, hourClock: int)
    ensures var r := Check(policy, rs, a.estimatedGas, a.fee, dayClock, hourClock);
            && (r.Err? <==> forall q :: !WithinLimits(policy, rs, a.estimatedGas, a.fee, dayClock, hourClock, q))
            && (forall q :: WithinLimits(policy, rs, a.estimatedGas, a.fee, dayClock, hourClock, q) ==> r == Ok(q))
            && (r.Ok? ==> r.value.reservedWei == r.value.gasLimit * r.value.maxFeePerGas)
  {
    hide Check, WithinLimits;
    forall q
      ensures WithinLimits(policy, rs, a.estimatedGas, a.fee, dayClock, hourClock, q)
              <==> Check(policy, rs, a.estimatedGas, a.fee, dayClock, hourClock) == Ok(q)
    {
      CheckIff(policy, rs, a.estimatedGas, a.fee, dayClock, hourClock, q);
    }
    QuoteCost(policy, rs, a, dayClock, hourClock);
  }

  lemma QuoteCost(policy: Policy, rs: seq<Reservation>, a: Attempt, dayClock: int, hourClock: int)
    ensures var r := Check(policy, rs, a.estimatedGas, a.fee, dayClock, hourClock);
            && (r.Ok? ==> r.value.reservedWei == r.value.gasLimit * r.value.maxFeePerGas)
            && (r.Ok? ==> WithinLimits(policy, rs, a.estimatedGas, a.fee, dayClock, hourClock, r.value))
  {
    var r := Check(policy, rs, a.estimatedGas, a.fee, dayClock, hourClock);
    if r.Ok? {
      CheckIff(policy, rs, a.estimatedGas, a.fee, dayClock, hourClock, r.value);
    }
  }

  lemma PhasesWithoutQuote(policy: Policy, w: World)
    requires Inv(policy, w)
    ensures Inv(policy, w.(phase := Idle))
  {
  }

  class BaseSepoliaCappedRelayer {
    const policy: Policy
    var reservations: seq<Reservation>
    var file: seq<Reservation>
    var clock: int
    var broadcasts: seq<Broadcast>

    /** The world in a phase of the only submission under way. */
    ghost function View(phase: Phase): World
      reads this
    {
      World(reservations, file, 0, phase, clock, broadcasts)
    }

    /** A process started on a state file. */
    constructor (policy: Policy, file: seq<Reservation>, clock: int)
      ensures this.policy == policy && View(Idle) == World(file, file, 0, Idle, clock, [])
    {
      this.policy := policy;
      reservations, this.file, this.clock, broadcasts := file, file, clock, [];
    }

    method Persist(written: bool)
      modifies this`file
      ensures file == if written then reservations else old(file)
    {
      if written {
        file := reservations;
      }
    }

    method MarkStatus(index: nat, s: Status)
      requires index < |reservations|
      modifies this`reservations
      ensures reservations == SetStatus(old(reservations), index, s)
    {
      reservations := reservations[index := reservations[index].(status := s)];
    }

    /** The try block around the broadcast and its error path. */
    method SettleBroadcast(index: nat, accepted: bool, written: bool, rewritten: bool) returns (submitted: bool)
      requires index < |reservations|
      modifies this`reservations, this`file
      ensures View(Idle) == Next(policy, old(View(Sending(index))), Settle(accepted, written, rewritten))
      ensures submitted == (accepted && written)
    {
      if accepted {
        MarkStatus(index, Submitted);
        Persist(written);
        if written {
          return true;
        }
      }
      MarkStatus(index, BroadcastUncertain);
      Persist(rewritten);
      return false;
    }

    /** submitUnlocked: nothing is broadcast without a quote within budget and a persisted reservation. */
    method SubmitUnlocked(a: Attempt) returns (answer: Answer)
      requires Inv(policy, View(Preparing))
      modifies this
      ensures Inv(policy, View(Idle))
      ensures policy.paused ==> View(Idle) == old(View(Idle))
      ensures !policy.paused ==> View(Idle) == AfterAttempt(policy, old(View(Preparing)), a)
      ensures AttemptEffect(policy, old(View(Idle)), View(Idle), a, answer)
      ensures answer.Refused? && !policy.paused ==>
                Check(policy, old(reservations), a.estimatedGas, a.fee, old(clock) + a.dayDelay, old(clock) + a.dayDelay + a.hourDelay)
                == Err(answer.reason)
    {
      hide Inv, Check, Next, AfterAttempt, AfterQuote, WithinLimits, BroadcastFor, ReservedInMemory;
      PhasesWithoutQuote(policy, View(Preparing));
      if policy.paused {
        return Refused(Paused);
      }
      AttemptKeepsInv(policy, View(Preparing), a);
      AttemptOutcome(policy, View(Preparing), a);
      var dayClock, hourClock := clock + a.dayDelay, clock + a.dayDelay + a.hourDelay;
      LimitsDecide(policy, reservations, a, dayClock, hourClock);
      ghost var before := View(Idle);
      var r := Prepare(policy, reservations, a.estimatedGas, a.fee, dayClock, hourClock);
      clock := hourClock;
      if r.Err? {
        return Refused(r.error);
      }
      if !a.broadcast {
        return NotSent(r.value);
      }
      QuoteEffect(policy, before, r.value, hourClock, a);
      answer := ReserveAndSend(r.value, a, hourClock);
    }

    /** From the reservation on: push, persist, hand to the signer, settle. */
    method ReserveAndSend(quote: Quote, a: Attempt, ghost checkedAt: int) returns (answer: Answer)
      modifies this
      ensures View(Idle) == AfterQuote(policy, old(View(Quoted(quote, checkedAt))), a)
      ensures answer == if !a.persisted then NotReserved else if a.accepted && a.written then Sent(quote) else Uncertain
    {
      clock := clock + a.delay;
      var index := |reservations|;
      reservations := reservations + [Reservation(quote.day, clock, quote.reservedWei, Reserved)];
      Persist(a.persisted);
      if !a.persisted {
        return NotReserved;
      }
      broadcasts := broadcasts + [Broadcast(index, quote.gasLimit, quote.maxFeePerGas)];
      var submitted := SettleBroadcast(index, a.accepted, a.written, a.rewritten);
      return if submitted then Sent(quote) else Uncertain;
    }
  }
}
