/** The dashboard counters: a Redis hash of printed amounts and counts, rewritten under a lock
    that expires.  Any number of calls run at once; each step below is one Redis command. */
module Dashboard {
  import opened Wrappers
  import Amounts
  import Numerals

  const LOCK_MS := 5000
  const FIAT_DECIMALS: nat := 2

  datatype Field = TotalValue | DailyValue | TotalVolume | DailyVolume

  /** The hash `dashboard:stats:meta`. */
  type Meta = map<Field, string>

  /** What a job or a row says of a transaction; amounts in kobo. */
  datatype Txn = Txn(nairaAmountBase: Option<int>, fiatAmountBase: Option<int>, completed: bool, today: bool)

  // ---------------------------------------------------------------- the hash

  /** A stored amount; an absent, empty or unreadable one counts as 0. */
  function ReadValue(meta: Meta, f: Field): int {
    if f in meta && meta[f] != "" then
      match Amounts.ToBase(meta[f], FIAT_DECIMALS)
      case Success(n) => n
      case Failure(_) => 0
    else 0
  }

  /** A stored count; None stands for NaN. */
  function ReadCount(meta: Meta, f: Field): Option<nat> {
    if f !in meta then Some(0)
    else if Numerals.AllDigits(meta[f]) then Some(Numerals.Value(meta[f]))
    else None
  }

  function PrintValue(n: int): string {
    Amounts.FromFiatBase(n, FIAT_DECIMALS)
  }

  function PrintCount(c: Option<nat>): string {
    match c
    case Some(n) => Numerals.Digits(n)
    case None => "NaN"
  }

  function Increment(c: Option<nat>): Option<nat> {
    match c
    case Some(n) => Some(n + 1)
    case None => None
  }

  function OrZero(amount: Option<int>): int {
    if amount.Some? then amount.value else 0
  }

  /** The hash that a transaction job writes back after it read `meta`. */
  function Updated(meta: Meta, t: Txn): Meta {
    var daily := ReadValue(meta, DailyValue);
    var dailyCount := ReadCount(meta, DailyVolume);
    meta[TotalValue := PrintValue(ReadValue(meta, TotalValue) + OrZero(t.nairaAmountBase))]
        [DailyValue := PrintValue(if t.today then daily + OrZero(t.nairaAmountBase) else daily)]
        [TotalVolume := PrintCount(Increment(ReadCount(meta, TotalVolume)))]
        [DailyVolume := PrintCount(if t.today then Increment(dailyCount) else dailyCount)]
  }

  /** The counters as numbers. */
  datatype Totals = Totals(value: int, daily: int, volume: Option<nat>, dailyVolume: Option<nat>)

  function Read(meta: Meta): Totals {
    Totals(ReadValue(meta, TotalValue), ReadValue(meta, DailyValue),
           ReadCount(meta, TotalVolume), ReadCount(meta, DailyVolume))
  }

  function Plus(c: Totals, t: Txn): Totals {
    Totals(
      c.value + OrZero(t.nairaAmountBase),
      if t.today then c.daily + OrZero(t.nairaAmountBase) else c.daily,
      Increment(c.volume),
      if t.today then Increment(c.dailyVolume) else c.dailyVolume)
  }

  function PlusAll(c: Totals, ts: seq<Txn>): Totals
    decreases |ts|
  {
    if ts == [] then c else PlusAll(Plus(c, ts[0]), ts[1..])
  }

  lemma ReadPrintedValue(n: int)
    ensures PrintValue(n) != ""
    ensures Amounts.ToBase(PrintValue(n), FIAT_DECIMALS) == Success(n)
  {
    hide Amounts.ToBase;
    Amounts.ToBaseOfFromFiatBase(n);
  }

  lemma ReadPrintedCount(c: Option<nat>)
    ensures Numerals.AllDigits(PrintCount(c)) <==> c.Some?
    ensures c.Some? ==> Numerals.Value(PrintCount(c)) == c.value
  {
    if c.Some? {
      Numerals.ValueOfDigits(c.value);
    } else {
      assert !Numerals.IsDigit("NaN"[0]);
    }
  }

  /** What four printed numbers read as. */
  lemma ReadWritten(meta: Meta, c: Totals)
    ensures Read(meta[TotalValue := PrintValue(c.value)][DailyValue := PrintValue(c.daily)]
                     [TotalVolume := PrintCount(c.volume)][DailyVolume := PrintCount(c.dailyVolume)]) == c
  {
    hide Amounts.ToBase, PrintValue, PrintCount;
    ReadPrintedValue(c.value);
    ReadPrintedValue(c.daily);
    ReadPrintedCount(c.volume);
    ReadPrintedCount(c.dailyVolume);
  }

  /** A write-back adds exactly the transaction, although it goes through text: its naira amount and
      one transaction, to the daily counters if it is of today.  The amounts are stored with two
      places, the counts in digits. */
  lemma UpdatedAdds(meta: Meta, t: Txn)
    ensures var c, n := Read(meta), Read(Updated(meta, t));
      var amount := if t.nairaAmountBase.Some? then t.nairaAmountBase.value else 0;
      && n == Plus(c, t)
      && n.value == c.value + amount && n.daily == (if t.today then c.daily + amount else c.daily)
      && (if c.volume.None? then n.volume.None? else n.volume == Some(c.volume.value + 1))
      && (if c.dailyVolume.None? then n.dailyVolume.None?
          else n.dailyVolume == Some(c.dailyVolume.value + if t.today then 1 else 0))
      && Updated(meta, t).Keys == meta.Keys + {TotalValue, DailyValue, TotalVolume, DailyVolume}
      && Updated(meta, t)[TotalValue] == Amounts.FromFiatBase(n.value, 2)
      && Updated(meta, t)[DailyValue] == Amounts.FromFiatBase(n.daily, 2)
      && (n.volume.Some? ==> Updated(meta, t)[TotalVolume] == Numerals.Digits(n.volume.value))
      && (n.dailyVolume.Some? ==> Updated(meta, t)[DailyVolume] == Numerals.Digits(n.dailyVolume.value))
  {
    hide ReadValue, ReadCount, Amounts.FromFiatBase, Numerals.Digits;
    ReadWritten(meta, Plus(Read(meta), t));
  }

  /** What is not there, and an amount that is no text of the converter, counts as 0; a count is
      that of its digits, and anything else is no number. */
  lemma ReadsAsStored(meta: Meta, f: Field)
    ensures f !in meta ==> ReadValue(meta, f) == 0 && ReadCount(meta, f) == Some(0)
    ensures f in meta && Amounts.ToBase(meta[f], 2).Success? ==> ReadValue(meta, f) == Amounts.ToBase(meta[f], 2).value
    ensures f in meta && Amounts.ToBase(meta[f], 2).Failure? ==> ReadValue(meta, f) == 0
    ensures f in meta && meta[f] != "" && Numerals.AllDigits(meta[f]) ==>
      ReadCount(meta, f) == Some(Numerals.Value(meta[f]))
    ensures f in meta && !Numerals.AllDigits(meta[f]) ==> ReadCount(meta, f) == None
  {
    EmptyIsNoAmount();
    hide Amounts.ToBase;
  }

  lemma EmptyIsNoAmount()
    ensures Amounts.ToBase("", 2).Failure?
  {}

  // ---------------------------------------------------------------- the rebuild

  function SumNaira(ts: seq<Txn>): int {
    if ts == [] then 0 else OrZero(ts[0].nairaAmountBase) + SumNaira(ts[1..])
  }

  /** The database sums `fiatAmountBase` over completed rows. */
  function SumFiat(ts: seq<Txn>): int {
    if ts == [] then 0
    else (if ts[0].completed then OrZero(ts[0].fiatAmountBase) else 0) + SumFiat(ts[1..])
  }

  function CountCompleted(ts: seq<Txn>): nat {
    if ts == [] then 0 else (if ts[0].completed then 1 else 0) + CountCompleted(ts[1..])
  }

  function IfToday(t: Txn): seq<Txn> {
    if t.today then [t] else []
  }

  function Today(ts: seq<Txn>): seq<Txn> {
    if ts == [] then [] else IfToday(ts[0]) + Today(ts[1..])
  }

  /** The hash that a full rebuild writes for the rows of the database. */
  function Rebuilt(rows: seq<Txn>): Meta {
    map[
      TotalValue := PrintValue(SumFiat(rows)),
      DailyValue := PrintValue(SumFiat(Today(rows))),
      TotalVolume := PrintCount(Some(CountCompleted(rows))),
      DailyVolume := PrintCount(Some(CountCompleted(Today(rows))))]
  }

  lemma RebuiltTotals(rows: seq<Txn>)
    ensures Read(Rebuilt(rows)) == Totals(SumFiat(rows), SumFiat(Today(rows)),
                                          Some(CountCompleted(rows)), Some(CountCompleted(Today(rows))))
  {
    hide PrintValue, PrintCount, ReadValue, ReadCount, SumFiat, CountCompleted, Today;
    var c := Totals(SumFiat(rows), SumFiat(Today(rows)),
                    Some(CountCompleted(rows)), Some(CountCompleted(Today(rows))));
    ReadWritten(map[], c);
    assert Rebuilt(rows)
        == map[][TotalValue := PrintValue(c.value)][DailyValue := PrintValue(c.daily)]
                [TotalVolume := PrintCount(c.volume)][DailyVolume := PrintCount(c.dailyVolume)];
  }

  lemma {:induction false} SumsInsert(xs: seq<Txn>, t: Txn, ys: seq<Txn>)
    ensures SumFiat(xs + [t] + ys) == SumFiat(xs + ys) + SumFiat([t])
    ensures CountCompleted(xs + [t] + ys) == CountCompleted(xs + ys) + CountCompleted([t])
  {
    SumsAppend(xs + [t], ys);
    SumsAppend(xs, [t]);
    SumsAppend(xs, ys);
  }

  lemma TodayInsert(xs: seq<Txn>, t: Txn, ys: seq<Txn>)
    ensures Today(xs + [t] + ys) == if t.today then Today(xs) + [t] + Today(ys) else Today(xs + ys)
  {
    TodayOne(t);
    TodayAppend(xs + [t], ys);
    TodayAppend(xs, [t]);
    TodayAppend(xs, ys);
    hide Today;
    assert Today(xs) + [] == Today(xs);
  }

  lemma TodayOne(t: Txn)
    ensures Today([t]) == if t.today then [t] else []
  {
    assert [t][1..] == [];
  }

  /** A rebuild over no rows reads as zeros.  A further row, wherever it stands, adds its fiat amount
      and one transaction if it is COMPLETED, to the daily counters if it is of today as well, and
      nothing otherwise. */
  lemma RebuiltAdds(xs: seq<Txn>, t: Txn, ys: seq<Txn>)
    ensures Read(Rebuilt([])) == Totals(0, 0, Some(0), Some(0))
    ensures var c, n := Read(Rebuilt(xs + ys)), Read(Rebuilt(xs + [t] + ys));
      var amount := if t.fiatAmountBase.Some? then t.fiatAmountBase.value else 0;
      c.volume.Some? && c.dailyVolume.Some?
      && n == if !t.completed then c
              else if t.today
              then Totals(c.value + amount, c.daily + amount, Some(c.volume.value + 1), Some(c.dailyVolume.value + 1))
              else Totals(c.value + amount, c.daily, Some(c.volume.value + 1), c.dailyVolume)
  {
    RebuiltTotals([]);
    RebuiltTotals(xs + ys);
    RebuiltTotals(xs + [t] + ys);
    SumsInsert(xs, t, ys);
    TodayInsert(xs, t, ys);
    TodayAppend(xs, ys);
    if t.today { SumsInsert(Today(xs), t, Today(ys)); }
    hide Rebuilt, Read;
    assert SumFiat([t]) == (if t.completed then OrZero(t.fiatAmountBase) else 0) + SumFiat([]);
    assert CountCompleted([t]) == (if t.completed then 1 else 0) + CountCompleted([]);
  }

  // ---------------------------------------------------------------- the lock

  datatype Lease = Lease(holder: nat, until: int)

  /** Where a call is: before or after the lock, or holding what it read. */
  datatype Phase =
    | Outside
    | Entered(until: int)
    | Loaded(until: int, snapshot: Meta)
    | Written(until: int)

  datatype State = State(lock: Option<Lease>, meta: Meta, phases: map<nat, Phase>)

  /** `set NX PX`, `hgetall`, `hset`, and the check-and-delete of the `finally` block. */
  datatype Action = Enter | Load | Store(t: Txn) | Leave

  datatype Event = At(now: int, call: nat, action: Action)

  predicate Free(lock: Option<Lease>, now: int) {
    lock.None? || lock.value.until <= now
  }

  function PhaseOf(s: State, call: nat): Phase {
    if call in s.phases then s.phases[call] else Outside
  }

  function Next(s: State, e: Event): State {
    var p := PhaseOf(s, e.call);
    match e.action
    case Enter =>
      if p.Outside? && Free(s.lock, e.now)
      then State(Some(Lease(e.call, e.now + LOCK_MS)), s.meta, s.phases[e.call := Entered(e.now + LOCK_MS)])
      else s
    case Load =>
      if p.Entered? then s.(phases := s.phases[e.call := Loaded(p.until, s.meta)]) else s
    case Store(t) =>
      if p.Loaded?
      then s.(meta := Updated(p.snapshot, t), phases := s.phases[e.call := Written(p.until)])
      else s
    case Leave =>
      if p.Outside? then s
      else
        var held := !Free(s.lock, e.now) && s.lock.value.holder == e.call;
        s.(lock := if held then None else s.lock, phases := s.phases[e.call := Outside])
  }

  function Run(s: State, es: seq<Event>): State
    decreases |es|
  {
    if es == [] then s else Run(Next(s, es[0]), es[1..])
  }

  predicate WritesBack(s: State, e: Event) {
    e.action.Store? && PhaseOf(s, e.call).Loaded?
  }

  function WrittenBy(s: State, e: Event): seq<Txn> {
    if WritesBack(s, e) then [e.action.t] else []
  }

  /** The transactions that a run writes back, in order. */
  function Applied(s: State, es: seq<Event>): seq<Txn>
    decreases |es|
  {
    if es == [] then [] else WrittenBy(s, es[0]) + Applied(Next(s, es[0]), es[1..])
  }

  /** The clock never goes back, and no call writes after its lock has expired. */
  predicate InTime(s: State, clock: int, es: seq<Event>)
    decreases |es|
  {
    es == []
    || (clock <= es[0].now
        && (WritesBack(s, es[0]) ==> es[0].now < PhaseOf(s, es[0].call).until)
        && InTime(Next(s, es[0]), es[0].now, es[1..]))
  }

  /** A call whose lock has not expired holds the lock, and what it read is still there. */
  predicate Guarded(s: State, clock: int) {
    forall w :: w in s.phases && !s.phases[w].Outside? && clock < s.phases[w].until ==>
      s.lock == Some(Lease(w, s.phases[w].until))
      && (s.phases[w].Loaded? ==> s.phases[w].snapshot == s.meta)
  }

  lemma StepKeepsGuarded(s: State, clock: int, e: Event)
    requires Guarded(s, clock) && InTime(s, clock, [e])
    ensures Guarded(Next(s, e), e.now)
  {
    hide Updated;
    assert InTime(s, clock, [e]) ==> clock <= e.now;
    var n := Next(s, e);
    forall w | w in n.phases && !n.phases[w].Outside? && e.now < n.phases[w].until
      ensures n.lock == Some(Lease(w, n.phases[w].until))
      ensures n.phases[w].Loaded? ==> n.phases[w].snapshot == n.meta
    {
      if w != e.call { assert w in s.phases && s.phases[w] == n.phases[w]; }
    }
  }

  /** A call gets in if and only if it is outside and no lock lives; its lock then lives five seconds.
      When it leaves, its own lock goes if it lives, and nobody else's does. */
  lemma LockMoves(s: State, now: int, call: nat)
    ensures var inside := call in s.phases && !s.phases[call].Outside?;
      var lives := s.lock.Some? && now < s.lock.value.until;
      var own := lives && s.lock.value.holder == call;
      && Next(s, At(now, call, Enter))
         == (if !inside && !lives
             then s.(lock := Some(Lease(call, now + 5000)), phases := s.phases[call := Entered(now + 5000)]) else s)
      && Next(s, At(now, call, Leave))
         == (if inside then s.(lock := if own then None else s.lock, phases := s.phases[call := Outside]) else s)
  {}

  /** Two calls are never inside an unexpired lock at once. */
  lemma OneInside(s: State, clock: int, v: nat, w: nat)
    requires Guarded(s, clock)
    requires !PhaseOf(s, v).Outside? && clock < PhaseOf(s, v).until
    requires !PhaseOf(s, w).Outside? && clock < PhaseOf(s, w).until
    ensures v == w
  {}

  // ---------------------------------------------------------------- writes that lose nothing

  /** What a write-back was computed from reads as the hash does now. */
  predicate Fresh(s: State, e: Event) {
    WritesBack(s, e) ==> Read(PhaseOf(s, e.call).snapshot) == Read(s.meta)
  }

  lemma PlusIsInjective(c: Totals, d: Totals, t: Txn)
    ensures Plus(c, t) == Plus(d, t) <==> c == d
  {}

  /** A write-back adds exactly its transaction to the hash if and only if the hash reads as it did
      when the call loaded it; time and lock make no other difference. */
  lemma WriteAddsIff(s: State, e: Event)
    requires WritesBack(s, e)
    ensures Read(Next(s, e).meta) == Plus(Read(s.meta), e.action.t)
      <==> Read(PhaseOf(s, e.call).snapshot) == Read(s.meta)
  {
    hide Read, Updated, Plus;
    UpdatedAdds(PhaseOf(s, e.call).snapshot, e.action.t);
    PlusIsInjective(Read(PhaseOf(s, e.call).snapshot), Read(s.meta), e.action.t);
  }

  predicate AllFresh(s: State, es: seq<Event>)
    decreases |es|
  {
    es == [] || (Fresh(s, es[0]) && AllFresh(Next(s, es[0]), es[1..]))
  }

  lemma KeepsMeta(s: State, e: Event)
    requires !WritesBack(s, e)
    ensures Next(s, e).meta == s.meta
  {
    hide Updated;
  }

  lemma PlusOne(c: Totals, t: Txn)
    ensures PlusAll(c, [t]) == Plus(c, t)
  {
    hide Plus;
    assert [t][1..] == [];
  }

  lemma PlusNone(c: Totals)
    ensures PlusAll(c, []) == c
  {}

  lemma FreshStep(s: State, e: Event)
    requires Fresh(s, e)
    ensures Read(Next(s, e).meta) == PlusAll(Read(s.meta), WrittenBy(s, e))
  {
    hide Read, Next, Plus, PlusAll;
    if WritesBack(s, e) {
      WriteAddsIff(s, e);
      PlusOne(Read(s.meta), e.action.t);
    } else {
      KeepsMeta(s, e);
      PlusNone(Read(s.meta));
    }
  }

  lemma {:induction false} PlusAllJoins(c: Totals, xs: seq<Txn>, ys: seq<Txn>)
    ensures PlusAll(c, xs + ys) == PlusAll(PlusAll(c, xs), ys)
    decreases |xs|
  {
    hide Plus;
    if xs == [] {
      assert xs + ys == ys;
    } else {
      assert (xs + ys)[1..] == xs[1..] + ys;
      PlusAllJoins(Plus(c, xs[0]), xs[1..], ys);
    }
  }

  /** When every write is fresh, the counters move by exactly the transactions written back. */
  lemma {:induction false} FreshRunCounts(s: State, es: seq<Event>)
    requires AllFresh(s, es)
    ensures Read(Run(s, es).meta) == PlusAll(Read(s.meta), Applied(s, es))
    decreases |es|
  {
    hide Read, Next, Fresh, WrittenBy;
    if es != [] {
      FreshStep(s, es[0]);
      FreshRunCounts(Next(s, es[0]), es[1..]);
      PlusAllJoins(Read(s.meta), WrittenBy(s, es[0]), Applied(Next(s, es[0]), es[1..]));
    }
  }

  /** Calls that write before their lock expires write fresh values. */
  lemma {:induction false} InTimeIsFresh(s: State, clock: int, es: seq<Event>)
    requires Guarded(s, clock) && InTime(s, clock, es)
    ensures AllFresh(s, es)
    decreases |es|
  {
    hide Read, Updated;
    if es != [] {
      StepKeepsGuarded(s, clock, es[0]);
      InTimeIsFresh(Next(s, es[0]), es[0].now, es[1..]);
    }
  }

  /** Under any interleaving of calls that write before their lock expires, the counters move
      by exactly the transactions written back: none is lost and none counts twice. */
  lemma RunCounts(s: State, clock: int, es: seq<Event>)
    requires Guarded(s, clock) && InTime(s, clock, es)
    ensures Read(Run(s, es).meta) == PlusAll(Read(s.meta), Applied(s, es))
  {
    InTimeIsFresh(s, clock, es);
    FreshRunCounts(s, es);
  }

  function Volume(meta: Meta): Option<nat> {
    ReadCount(meta, TotalVolume)
  }

  predicate Below(meta: Meta, b: nat) {
    Volume(meta).Some? && Volume(meta).value < b
  }

  /** The hash counts `b` transactions, and calls have loaded this hash or one that counts fewer. */
  predicate Level(s: State, b: nat) {
    Volume(s.meta) == Some(b)
    && forall w :: w in s.phases && s.phases[w].Loaded? ==>
         s.phases[w].snapshot == s.meta || Below(s.phases[w].snapshot, b)
  }

  /** The hash counts fewer than `b`, and so does every hash that a call has loaded. */
  predicate Short(s: State, b: nat) {
    Below(s.meta, b) && forall w :: w in s.phases && s.phases[w].Loaded? ==> Below(s.phases[w].snapshot, b)
  }

  lemma UpdatedVolume(meta: Meta, t: Txn)
    ensures Volume(Updated(meta, t)) == Increment(Volume(meta))
  {
    hide Updated;
    UpdatedAdds(meta, t);
  }

  lemma VolumeOfRead(meta: Meta)
    ensures Read(meta).volume == Volume(meta)
  {}

  /** Where the hash is level, a loaded snapshot reads like the hash only if it is the hash. */
  lemma SnapshotIsFresh(s: State, b: nat, w: nat)
    requires Level(s, b) && w in s.phases && s.phases[w].Loaded?
    ensures var snapshot := s.phases[w].snapshot;
      if Read(snapshot) == Read(s.meta) then snapshot == s.meta else Below(snapshot, b)
  {
    VolumeOfRead(s.phases[w].snapshot);
    VolumeOfRead(s.meta);
    hide Volume, Read;
  }

  lemma LevelWrite(s: State, b: nat, e: Event)
    requires Level(s, b) && WritesBack(s, e)
    ensures if Fresh(s, e) then Level(Next(s, e), b + 1) else Short(Next(s, e), b + 1)
  {
    SnapshotIsFresh(s, b, e.call);
    UpdatedVolume(PhaseOf(s, e.call).snapshot, e.action.t);
    hide Updated, Volume, Read;
  }

  lemma LevelStep(s: State, b: nat, e: Event)
    requires Level(s, b)
    ensures var b' := b + |WrittenBy(s, e)|;
      if Fresh(s, e) then Level(Next(s, e), b') else Short(Next(s, e), b')
  {
    if WritesBack(s, e) {
      LevelWrite(s, b, e);
      hide Level, Short, Next, Read;
    } else {
      hide Volume, Read;
    }
  }

  lemma ShortStep(s: State, b: nat, e: Event)
    requires Short(s, b)
    ensures Short(Next(s, e), b + |WrittenBy(s, e)|)
  {
    if WritesBack(s, e) { UpdatedVolume(PhaseOf(s, e.call).snapshot, e.action.t); }
    hide Updated, Volume;
  }

  lemma {:induction false} ShortStays(s: State, b: nat, es: seq<Event>)
    requires Short(s, b)
    ensures Short(Run(s, es), b + |Applied(s, es)|)
    decreases |es|
  {
    hide Short, Next, WrittenBy;
    if es != [] {
      ShortStep(s, b, es[0]);
      ShortStays(Next(s, es[0]), b + |WrittenBy(s, es[0])|, es[1..]);
    }
  }

  lemma {:induction false} LevelRun(s: State, b: nat, es: seq<Event>)
    requires Level(s, b)
    ensures var t, b' := Run(s, es), b + |Applied(s, es)|;
      if AllFresh(s, es) then Level(t, b') else Short(t, b')
    decreases |es|
  {
    hide Level, Short, Next, WrittenBy, Fresh;
    if es != [] {
      var e := es[0];
      LevelStep(s, b, e);
      if Fresh(s, e) {
        LevelRun(Next(s, e), b + |WrittenBy(s, e)|, es[1..]);
      } else {
        ShortStays(Next(s, e), b + |WrittenBy(s, e)|, es[1..]);
      }
    }
  }

  /** Over any run, however late its writes, the counters end where the transactions written back
      put them if and only if every write was fresh: a lost update never evens out, and the count
      of transactions alone shows it. */
  lemma CountsAreExact(s: State, b: nat, es: seq<Event>)
    requires Level(s, b)
    ensures AllFresh(s, es) <==> Read(Run(s, es).meta) == PlusAll(Read(s.meta), Applied(s, es))
    ensures AllFresh(s, es) <==> Volume(Run(s, es).meta) == Some(b + |Applied(s, es)|)
  {
    hide Run, Applied, AllFresh, PlusAll, Read, Volume;
    var meta, done := Run(s, es).meta, Applied(s, es);
    LevelRun(s, b, es);
    PlusAllSums(Read(s.meta), done);
    VolumeOfRead(s.meta);
    VolumeOfRead(meta);
    if AllFresh(s, es) { FreshRunCounts(s, es); }
  }

  // ---------------------------------------------------------------- agreement with a rebuild

  function Shift(c: Option<nat>, k: nat): Option<nat> {
    match c
    case Some(n) => Some(n + k)
    case None => None
  }

  lemma {:induction false} PlusAllSums(c: Totals, ts: seq<Txn>)
    ensures PlusAll(c, ts).value == c.value + SumNaira(ts)
    ensures PlusAll(c, ts).volume == Shift(c.volume, |ts|)
    decreases |ts|
  {
    if ts != [] { PlusAllSums(Plus(c, ts[0]), ts[1..]); }
  }

  lemma {:induction false} PlusAllSumsToday(c: Totals, ts: seq<Txn>)
    ensures PlusAll(c, ts).daily == c.daily + SumNaira(Today(ts))
    ensures PlusAll(c, ts).dailyVolume == Shift(c.dailyVolume, |Today(ts)|)
    decreases |ts|
  {
    if ts != [] {
      PlusAllSumsToday(Plus(c, ts[0]), ts[1..]);
      if ts[0].today { assert Today(ts)[0] == ts[0] && Today(ts)[1..] == Today(ts[1..]); }
      else { assert Today(ts) == Today(ts[1..]); }
    }
  }

  lemma {:induction false} SumsAppend(xs: seq<Txn>, ys: seq<Txn>)
    ensures SumFiat(xs + ys) == SumFiat(xs) + SumFiat(ys)
    ensures CountCompleted(xs + ys) == CountCompleted(xs) + CountCompleted(ys)
  {
    if xs == [] {
      assert xs + ys == ys;
    } else {
      SumsAppend(xs[1..], ys);
      assert (xs + ys)[1..] == xs[1..] + ys;
    }
  }

  lemma {:induction false} TodayAppend(xs: seq<Txn>, ys: seq<Txn>)
    ensures Today(xs + ys) == Today(xs) + Today(ys)
  {
    hide IfToday;
    if xs == [] {
      assert xs + ys == ys;
    } else {
      TodayAppend(xs[1..], ys);
      assert (xs + ys)[1..] == xs[1..] + ys;
      Associate(IfToday(xs[0]), Today(xs[1..]), Today(ys));
    }
  }

  lemma Associate(x: seq<Txn>, y: seq<Txn>, z: seq<Txn>)
    ensures x + (y + z) == (x + y) + z
  {}

  predicate AllCompleted(ts: seq<Txn>) {
    forall t :: t in ts ==> t.completed
  }

  lemma {:induction false} CountAll(ts: seq<Txn>)
    requires AllCompleted(ts)
    ensures CountCompleted(ts) == |ts| && AllCompleted(Today(ts))
  {
    if ts != [] { CountAll(ts[1..]); }
  }

  /** A hash rebuilt over `before` and then moved by a run reads, in number of transactions, as one
      rebuilt over all of them if and only if every write was fresh.  In value it then does exactly
      if the naira amounts of the jobs and the fiat amounts of the rows have the same sum. */
  lemma CountersAgreeWithRebuild(before: seq<Txn>, s: State, es: seq<Event>)
    requires s.meta == Rebuilt(before) && Level(s, CountCompleted(before))
    requires AllCompleted(Applied(s, es))
    ensures var done := Applied(s, es);
      var cached, rebuilt := Read(Run(s, es).meta), Read(Rebuilt(before + done));
      && (cached.volume == rebuilt.volume <==> AllFresh(s, es))
      && (AllFresh(s, es) ==>
            && cached.dailyVolume == rebuilt.dailyVolume
            && (cached.value == rebuilt.value <==> SumNaira(done) == SumFiat(done))
            && (cached.daily == rebuilt.daily <==> SumNaira(Today(done)) == SumFiat(Today(done))))
  {
    hide ReadValue, ReadCount, Rebuilt, Run, Applied, AllFresh, Level, PlusAll,
         SumNaira, SumFiat, CountCompleted, Today, AllCompleted;
    var done := Applied(s, es);
    CountsAreExact(s, CountCompleted(before), es);
    RebuiltTotals(before);
    RebuiltTotals(before + done);
    PlusAllSums(Read(s.meta), done);
    PlusAllSumsToday(Read(s.meta), done);
    SumsAppend(before, done);
    TodayAppend(before, done);
    SumsAppend(Today(before), Today(done));
    CountAll(done);
    CountAll(Today(done));
  }

  /** Call 0 reads the hash and stalls; call 1 starts once the lock of call 0 has expired. */
  function LateEvents(now: int, first: Txn, second: Txn): (es: seq<Event>)
    ensures |es| == 6
  {
    var late := now + LOCK_MS;
    [At(now, 0, Enter), At(now, 0, Load), At(late, 1, Enter), At(late, 1, Load),
     At(late, 1, Store(second)), At(late, 0, Store(first))]
  }

  function LateState(meta: Meta, now: int, second: Txn, k: nat): State {
    var late := now + LOCK_MS;
    if k == 0 then State(None, meta, map[])
    else if k == 1 then State(Some(Lease(0, late)), meta, map[0 := Entered(late)])
    else if k == 2 then State(Some(Lease(0, late)), meta, map[0 := Loaded(late, meta)])
    else
      var lock := Some(Lease(1, late + LOCK_MS));
      if k == 3 then State(lock, meta, map[0 := Loaded(late, meta), 1 := Entered(late + LOCK_MS)])
      else if k == 4 then State(lock, meta, map[0 := Loaded(late, meta), 1 := Loaded(late + LOCK_MS, meta)])
      else State(lock, Updated(meta, second), map[0 := Loaded(late, meta), 1 := Written(late + LOCK_MS)])
  }

  lemma LateStep(meta: Meta, now: int, first: Txn, second: Txn, k: nat)
    requires k < 5
    ensures var s, e := LateState(meta, now, second, k), LateEvents(now, first, second)[k];
      Next(s, e) == LateState(meta, now, second, k + 1)
      && WrittenBy(s, e) == if k == 4 then [second] else []
  {
    hide Updated;
    assert k == 0 || k == 1 || k == 2 || k == 3 || k == 4;
  }

  lemma LateEnd(meta: Meta, now: int, first: Txn, second: Txn)
    ensures var s, e := LateState(meta, now, second, 5), LateEvents(now, first, second)[5];
      Next(s, e).meta == Updated(meta, first) && WrittenBy(s, e) == [first]
      && WritesBack(s, e) && e.now == PhaseOf(s, e.call).until
  {
    hide Updated;
  }

  lemma {:induction false} LateRun(meta: Meta, now: int, first: Txn, second: Txn, clock: int, k: nat)
    requires k <= 5
    ensures var s, es := LateState(meta, now, second, k), LateEvents(now, first, second);
      && Run(s, es[k..]).meta == Updated(meta, first)
      && Applied(s, es[k..]) == (if k < 5 then [second] else []) + [first]
      && !InTime(s, clock, es[k..])
    decreases 5 - k
  {
    hide Updated, Run, Applied, InTime, Next, WrittenBy, WritesBack, PhaseOf, LateState, LateEvents;
    var s, es := LateState(meta, now, second, k), LateEvents(now, first, second);
    Unfold(s, clock, es, k, Next(s, es[k]));
    if k == 5 {
      LateEnd(meta, now, first, second);
      assert es[6..] == [];
      Nothing(Next(s, es[5]));
    } else {
      LateStep(meta, now, first, second, k);
      LateRun(meta, now, first, second, es[k].now, k + 1);
    }
  }

  /** The bound on the time matters: a call that writes after its lock expired erases what another
      call wrote meanwhile, whatever both add. */
  lemma LateWriteForgets(meta: Meta, now: int, first: Txn, second: Txn)
    ensures var s, es := State(None, meta, map[]), LateEvents(now, first, second);
      Applied(s, es) == [second, first]
      && Read(Run(s, es).meta) == Plus(Read(meta), first)
      && !InTime(s, now, es)
  {
    LateRun(meta, now, first, second, now, 0);
    assert LateEvents(now, first, second)[0..] == LateEvents(now, first, second);
    UpdatedAdds(meta, first);
  }

  lemma Nothing(s: State)
    ensures Run(s, []) == s && Applied(s, []) == []
  {}

  lemma Unfold(s: State, clock: int, es: seq<Event>, k: nat, n: State)
    requires k < |es| && n == Next(s, es[k])
    ensures Run(s, es[k..]) == Run(n, es[k + 1..])
    ensures Applied(s, es[k..]) == WrittenBy(s, es[k]) + Applied(n, es[k + 1..])
    ensures InTime(s, clock, es[k..]) ==> InTime(n, es[k].now, es[k + 1..])
    ensures InTime(s, clock, es[k..]) && WritesBack(s, es[k]) ==> es[k].now < PhaseOf(s, es[k].call).until
  {
    hide Next, PhaseOf, WritesBack, WrittenBy;
    assert es[k..][0] == es[k] && es[k..][1..] == es[k + 1..];
  }
}
