/** Charge jobs of one ACTIVE stack that run at once.  A job checks that the stack is due, later
    reads it again without that check, and takes the date it then finds as the key of the execution
    row that it debits.  One row is debited at most once (see ExecutionProtocol); here it is asked
    when one due date is. */
module ChargeJobs {
  import opened Wrappers
  import opened AutoStackLedger
  import opened Calendar

  /** Found: the date found due, and how many debits had been made then.  Keyed: the date that was
      found due, the date read again, and the clock at that reading. */
  datatype Job = Idle | Found(date: int, since: nat) | Keyed(date: int, key: int, at: int)

  datatype Debit = Debit(date: int, key: int, at: int)

  /** `rows` are the dates whose execution row is COMPLETED; `debits` and `clock` are history. */
  datatype State = State(l: Ledger, rows: set<int>, jobs: map<nat, Job>, debits: seq<Debit>, clock: int)

  /** Other transactions of the ledger come between. */
  datatype Act = Check | Reread | Charge(source: nat, fee: nat) | Other(op: Op)

  datatype Event = On(now: int, job: nat, act: Act)

  function JobOf(s: State, j: nat): Job {
    if j in s.jobs then s.jobs[j] else Idle
  }

  function Next(s: State, id: nat): int
    requires id < |s.l.stacks|
  {
    s.l.stacks[id].nextExecutionAt
  }

  /** What a debit of an ACTIVE stack changes, as far as its charge jobs see. */
  lemma Charged(l: Ledger, id: nat, source: nat, fee: nat, at: int)
    requires id < |l.stacks| && Affordable(l, id, source + fee) && l.stacks[id].status.Active?
    ensures var u, t := l.stacks[id].user, ExecuteCommit(l, id, false, source, fee, at);
      && |t.stacks| == |l.stacks| && t.stacks[id].user == u && t.stacks[id].status.Active?
      && t.stacks[id].frequency == l.stacks[id].frequency
      && t.stacks[id].nextExecutionAt == NextExecution(l.stacks[id].frequency, at) > at
      && t.wallets.Keys == l.wallets.Keys && t.wallets[u].reserved == l.wallets[u].reserved
      && t.wallets[u].base == l.wallets[u].base - (source + fee)
  {
    ExecutionAgainstInterest(l.stacks[id].frequency, at);
    hide NextExecution, NextInterest;
  }

  predicate Affordable(l: Ledger, id: nat, sum: nat)
    requires id < |l.stacks|
  {
    var u := l.stacks[id].user;
    u in l.wallets && l.wallets[u].base - l.wallets[u].reserved >= sum
  }

  function ActStep(s: State, id: nat, e: Event): State
    requires id < |s.l.stacks|
  {
    var p := JobOf(s, e.job);
    match e.act
    case Check =>
      if p.Idle? && s.l.stacks[id].status.Active? && Due(Next(s, id), e.now)
      then s.(jobs := s.jobs[e.job := Found(Next(s, id), |s.debits|)]) else s
    case Reread =>
      if !p.Found? then s
      else if s.l.stacks[id].status.Ended? then s.(jobs := s.jobs[e.job := Idle])
      else s.(jobs := s.jobs[e.job := Keyed(p.date, Next(s, id), e.now)])
    case Charge(source, fee) =>
      if !p.Keyed? then s
      else if p.key in s.rows || !Affordable(s.l, id, source + fee) then s.(jobs := s.jobs[e.job := Idle])
      else State(
        ExecuteCommit(s.l, id, false, source, fee, p.at), s.rows + {p.key}, s.jobs[e.job := Idle],
        s.debits + [Debit(p.date, p.key, p.at)], s.clock)
    case Other(op) =>
      if op.Execute? && op.id == id then s else s.(l := Apply(s.l, At(e.now, op)))
  }

  function Step(s: State, id: nat, e: Event): State
    requires id < |s.l.stacks|
  {
    ActStep(s, id, e).(clock := e.now)
  }

  /** A job goes on if and only if the stack is ACTIVE and due when it checks, and not ENDED when it is
      read again; it debits if and only if the row of the date that it has then read is not COMPLETED
      and the wallet has amount and fee free.  Every other transaction may come between. */
  lemma ActsIff(s: State, id: nat, now: int, j: nat, source: nat, fee: nat, op: Op)
    requires id < |s.l.stacks|
    ensures var stack, t := s.l.stacks[id], Step(s, id, On(now, j, Check));
      if JobOf(s, j).Idle? && stack.status.Active? && stack.nextExecutionAt <= now
      then t == s.(jobs := s.jobs[j := Found(stack.nextExecutionAt, |s.debits|)], clock := now)
      else t == s.(clock := now)
    ensures var stack, p, t := s.l.stacks[id], JobOf(s, j), Step(s, id, On(now, j, Reread));
      p.Found? ==>
        t == s.(jobs := s.jobs[j := if stack.status.Ended? then Idle else Keyed(p.date, stack.nextExecutionAt, now)],
                clock := now)
    ensures var stack, p, t := s.l.stacks[id], JobOf(s, j), Step(s, id, On(now, j, Charge(source, fee)));
      p.Keyed? ==>
        if p.key !in s.rows && stack.user in s.l.wallets
           && s.l.wallets[stack.user].base - s.l.wallets[stack.user].reserved >= source + fee
        then t == State(ExecuteCommit(s.l, id, false, source, fee, p.at), s.rows + {p.key}, s.jobs[j := Idle],
                        s.debits + [Debit(p.date, p.key, p.at)], now)
        else t == s.(jobs := s.jobs[j := Idle], clock := now)
    ensures !(op.Execute? && op.id == id) ==>
      Step(s, id, On(now, j, Other(op))) == s.(l := Apply(s.l, At(now, op)), clock := now)
  {
    hide ExecuteCommit, Apply;
  }

  lemma OtherKeepsNext(l: Ledger, e: AutoStackLedger.Event, id: nat)
    requires id < |l.stacks| && !(e.op.Execute? && e.op.id == id)
    ensures var l' := Apply(l, e);
      id < |l'.stacks| && l'.stacks[id].nextExecutionAt == l.stacks[id].nextExecutionAt
      && l'.stacks[id].frequency == l.stacks[id].frequency
  {
    hide NextExecution, NextInterest, Interest, Payout, InterestPaid;
  }

  lemma StackStays(s: State, id: nat, e: Event)
    requires id < |s.l.stacks|
    ensures var t := Step(s, id, e);
      id < |t.l.stacks| && t.l.stacks[id].frequency == s.l.stacks[id].frequency
      && (t.debits == s.debits ==> Next(t, id) == Next(s, id))
  {
    hide Apply, NextExecution, NextInterest;
    if e.act.Other? && !(e.act.op.Execute? && e.act.op.id == id) { OtherKeepsNext(s.l, At(e.now, e.act.op), id); }
  }

  function Run(s: State, id: nat, es: seq<Event>): State
    requires id < |s.l.stacks|
    decreases |es|
  {
    if es == [] then s
    else
      StackStays(s, id, es[0]);
      Run(Step(s, id, es[0]), id, es[1..])
  }

  predicate Initial(s: State, id: nat) {
    id < |s.l.stacks| && s.rows == {} && s.jobs == map[] && s.debits == []
  }

  predicate Distinct(ds: seq<Debit>) {
    forall i, j :: 0 <= i < j < |ds| ==> ds[i].key != ds[j].key
  }

  // ---------------------------------------------------------------- jobs that do not overlap

  /** A reading of a stack that is not ENDED meets no debit since its job's check. */
  predicate Serial(s: State, id: nat, e: Event)
    requires id < |s.l.stacks|
  {
    e.act.Reread? && JobOf(s, e.job).Found? && !s.l.stacks[id].status.Ended? ==>
      JobOf(s, e.job).since == |s.debits|
  }

  predicate SerialRun(s: State, id: nat, es: seq<Event>)
    requires id < |s.l.stacks|
    decreases |es|
  {
    es == []
    || (Serial(s, id, es[0])
        && (StackStays(s, id, es[0]); SerialRun(Step(s, id, es[0]), id, es[1..])))
  }

  /** The clock does not run back. */
  predicate Ordered(clock: int, es: seq<Event>)
    decreases |es|
  {
    es == [] || (clock <= es[0].now && Ordered(es[0].now, es[1..]))
  }

  /** Every job that has read the stack again carries the date that it found due. */
  predicate KeysRight(s: State) {
    forall j :: j in s.jobs && s.jobs[j].Keyed? ==> s.jobs[j].key == s.jobs[j].date
  }

  predicate AlwaysRight(s: State, id: nat, es: seq<Event>)
    requires id < |s.l.stacks|
    decreases |es|
  {
    KeysRight(s)
    && (es == [] || (StackStays(s, id, es[0]); AlwaysRight(Step(s, id, es[0]), id, es[1..])))
  }

  predicate JobOk(s: State, id: nat, p: Job)
    requires id < |s.l.stacks|
  {
    match p
    case Idle => true
    case Found(date, since) =>
      date <= s.clock && since <= |s.debits| && (if since == |s.debits| then date == Next(s, id) else date < Next(s, id))
    case Keyed(date, key, at) =>
      key == date <= at <= s.clock && (key == Next(s, id) || key in s.rows)
  }

  /** Every debit was for the date its job had found due, and the dates only move on. */
  predicate OnDate(s: State, id: nat)
    requires id < |s.l.stacks|
  {
    && (forall i :: 0 <= i < |s.debits| ==>
          s.debits[i].key == s.debits[i].date <= s.debits[i].at && s.debits[i].key < Next(s, id))
    && (forall i, j :: 0 <= i < j < |s.debits| ==> s.debits[i].key < s.debits[j].key)
  }

  predicate Inv(s: State, id: nat) {
    id < |s.l.stacks| && OnDate(s, id) && forall j :: j in s.jobs ==> JobOk(s, id, s.jobs[j])
  }

  /** A debit consumes the stack's date and moves it on. */
  lemma DebitMovesOn(s: State, id: nat, e: Event)
    requires Inv(s, id) && s.clock <= e.now && e.act.Charge? && Step(s, id, e).debits != s.debits
    ensures var p, t := JobOf(s, e.job), Step(s, id, e);
      && p.Keyed? && p.key == p.date == Next(s, id) <= p.at && p.key !in s.rows
      && id < |t.l.stacks| && Next(s, id) < Next(t, id)
      && t.debits == s.debits + [Debit(p.date, p.key, p.at)] && t.rows == s.rows + {p.key}
      && t.jobs == s.jobs[e.job := Idle] && t.clock == e.now
  {
    var p := JobOf(s, e.job);
    assert e.job in s.jobs ==> JobOk(s, id, p);
    ExecutionAgainstInterest(s.l.stacks[id].frequency, p.at);
    hide NextExecution, NextInterest, OnDate;
  }

  lemma OnDateAfterDebit(s: State, t: State, id: nat, d: Debit)
    requires id < |s.l.stacks| && id < |t.l.stacks| && OnDate(s, id) && t.debits == s.debits + [d]
    requires d.key == d.date == Next(s, id) <= d.at && Next(s, id) < Next(t, id)
    ensures OnDate(t, id)
  {
    hide Next;
  }

  lemma JobsAfterDebit(s: State, t: State, id: nat, j: nat)
    requires Inv(s, id) && id < |t.l.stacks| && |t.debits| == |s.debits| + 1 && s.clock <= t.clock
    requires t.rows == s.rows + {Next(s, id)} && t.jobs == s.jobs[j := Idle] && Next(s, id) < Next(t, id)
    ensures forall v :: v in t.jobs ==> JobOk(t, id, t.jobs[v])
  {
    hide OnDate, Next;
    forall v | v in t.jobs ensures JobOk(t, id, t.jobs[v]) {
      if v != j { assert JobOk(s, id, s.jobs[v]); }
    }
  }

  /** A charge that finds the row COMPLETED or no money only ends its job. */
  lemma NoDebit(s: State, id: nat, e: Event)
    requires id < |s.l.stacks| && e.act.Charge? && Step(s, id, e).debits == s.debits
    ensures var t := Step(s, id, e);
      t.l == s.l && t.rows == s.rows && t.clock == e.now && (t.jobs == s.jobs || t.jobs == s.jobs[e.job := Idle])
  {
    hide ExecuteCommit;
  }

  lemma ChargeKeepsInv(s: State, id: nat, e: Event)
    requires Inv(s, id) && s.clock <= e.now && e.act.Charge?
    ensures Inv(Step(s, id, e), id)
  {
    var p, t := JobOf(s, e.job), Step(s, id, e);
    StackStays(s, id, e);
    if t.debits != s.debits {
      DebitMovesOn(s, id, e);
      OnDateAfterDebit(s, t, id, Debit(p.date, p.key, p.at));
      JobsAfterDebit(s, t, id, e.job);
      hide Step, OnDate, JobOk;
    } else {
      NoDebit(s, id, e);
      OnDateStays(s, id, e);
      hide Step, OnDate;
      assert forall j :: j in s.jobs ==> JobOk(s, id, s.jobs[j]);
    }
  }

  lemma StepKeepsInv(s: State, id: nat, e: Event)
    requires Inv(s, id) && s.clock <= e.now && Serial(s, id, e)
    ensures Inv(Step(s, id, e), id)
  {
    StackStays(s, id, e);
    if e.act.Charge? {
      ChargeKeepsInv(s, id, e);
    } else {
      hide Apply, OnDate;
      OnDateStays(s, id, e);
      assert e.job in s.jobs ==> JobOk(s, id, JobOf(s, e.job));
    }
  }

  lemma OnDateStays(s: State, id: nat, e: Event)
    requires id < |s.l.stacks| && OnDate(s, id) && Step(s, id, e).debits == s.debits
    ensures id < |Step(s, id, e).l.stacks| && OnDate(Step(s, id, e), id)
  {
    StackStays(s, id, e);
    hide Step;
  }

  lemma {:induction false} RunKeepsInv(s: State, id: nat, es: seq<Event>)
    requires Inv(s, id) && Ordered(s.clock, es) && SerialRun(s, id, es)
    ensures Inv(Run(s, id, es), id)
    decreases |es|
  {
    if es != [] {
      StackStays(s, id, es[0]);
      StepKeepsInv(s, id, es[0]);
      assert Step(s, id, es[0]).clock == es[0].now;
      hide Inv, Step, Serial;
      RunKeepsInv(Step(s, id, es[0]), id, es[1..]);
    }
  }

  /** A reading that is not serial gives another date than the one found due. */
  lemma NotSerialIsWrong(s: State, id: nat, e: Event)
    requires Inv(s, id) && !Serial(s, id, e)
    ensures !KeysRight(Step(s, id, e))
  {
    assert JobOk(s, id, JobOf(s, e.job));
    var t := Step(s, id, e);
    assert e.job in t.jobs && t.jobs[e.job].Keyed?;
  }

  /** Over any run, however its jobs overlap, every job that is about to debit carries the date that
      it found due throughout, if and only if every reading of a stack that is not ENDED met no
      debit since its job's check. */
  lemma {:induction false} KeysRightIff(s: State, id: nat, es: seq<Event>)
    requires Inv(s, id) && Ordered(s.clock, es)
    ensures AlwaysRight(s, id, es) <==> SerialRun(s, id, es)
    decreases |es|
  {
    assert KeysRight(s) by {
      forall j | j in s.jobs && s.jobs[j].Keyed? ensures s.jobs[j].key == s.jobs[j].date {
        assert JobOk(s, id, s.jobs[j]);
      }
    }
    if es != [] {
      var e := es[0];
      StackStays(s, id, e);
      if Serial(s, id, e) {
        StepKeepsInv(s, id, e);
        assert Step(s, id, e).clock == e.now;
        hide Inv, Step, Serial, KeysRight;
        KeysRightIff(Step(s, id, e), id, es[1..]);
      } else {
        NotSerialIsWrong(s, id, e);
        hide Inv, Step, Serial, KeysRight;
      }
    }
  }

  lemma InitialInv(s: State, id: nat)
    requires Initial(s, id)
    ensures Inv(s, id)
  {}

  /** Then every debit is for a date that its job had found due, and one due date is debited once at
      most. */
  lemma OneDueDateOnce(s: State, id: nat, es: seq<Event>)
    requires Initial(s, id) && Ordered(s.clock, es) && AlwaysRight(s, id, es)
    ensures var ds := Run(s, id, es).debits;
      && (forall i, j :: 0 <= i < j < |ds| ==> ds[i].key != ds[j].key)
      && forall i :: 0 <= i < |ds| ==> ds[i].key == ds[i].date <= ds[i].at
  {
    InitialInv(s, id);
    KeysRightIff(s, id, es);
    RunKeepsInv(s, id, es);
    hide Run, AlwaysRight, SerialRun;
  }

  /** After such a run, a job reads the date that it found due if and only if no debit was made
      since its check. */
  lemma ReadsItsDateIff(s: State, id: nat, es: seq<Event>, j: nat)
    requires Initial(s, id) && Ordered(s.clock, es) && AlwaysRight(s, id, es) && JobOf(Run(s, id, es), j).Found?
    ensures var t := Run(s, id, es);
      id < |t.l.stacks| && (Next(t, id) == JobOf(t, j).date <==> JobOf(t, j).since == |t.debits|)
  {
    InitialInv(s, id);
    KeysRightIff(s, id, es);
    RunKeepsInv(s, id, es);
    assert JobOk(Run(s, id, es), id, JobOf(Run(s, id, es), j));
  }

  // ---------------------------------------------------------------- jobs that overlap

  predicate Recorded(s: State) {
    Distinct(s.debits) && forall i :: 0 <= i < |s.debits| ==> s.debits[i].key in s.rows
  }

  lemma RecordedStep(s: State, id: nat, e: Event)
    requires id < |s.l.stacks| && Recorded(s)
    ensures Recorded(Step(s, id, e))
  {
    hide Apply, ExecuteCommit;
    var t := Step(s, id, e);
    if e.act.Charge? && t.debits != s.debits {
      assert t.rows == s.rows + {JobOf(s, e.job).key};
    } else {
      assert t.debits == s.debits && t.rows == s.rows;
      hide Step;
    }
  }

  /** However jobs overlap, no date is the key of two debits. */
  lemma KeysDistinct(s: State, id: nat, es: seq<Event>)
    requires id < |s.l.stacks| && Recorded(s)
    ensures var ds := Run(s, id, es).debits;
      forall i, j :: 0 <= i < j < |ds| ==> ds[i].key != ds[j].key
  {
    RecordedRun(s, id, es);
    hide Run;
  }

  lemma {:induction false} RecordedRun(s: State, id: nat, es: seq<Event>)
    requires id < |s.l.stacks| && Recorded(s)
    ensures Recorded(Run(s, id, es))
    decreases |es|
  {
    hide Recorded, Step;
    if es != [] {
      StackStays(s, id, es[0]);
      RecordedStep(s, id, es[0]);
      RecordedRun(Step(s, id, es[0]), id, es[1..]);
    }
  }

  /** Two jobs find one date due; the second reads the stack after the first has debited. */
  function Overlap(now: int, source: nat, fee: nat): (es: seq<Event>)
    ensures |es| == 6
  {
    [On(now, 1, Check), On(now, 2, Check), On(now, 1, Reread), On(now, 1, Charge(source, fee)),
     On(now, 2, Reread), On(now, 2, Charge(source, fee))]
  }

  function OverlapState(l: Ledger, id: nat, source: nat, fee: nat, now: int, k: nat): State
    requires id < |l.stacks| && l.stacks[id].user in l.wallets
  {
    var date := l.stacks[id].nextExecutionAt;
    var found := Found(date, 0);
    if k == 0 then State(l, {}, map[], [], now)
    else if k == 1 then State(l, {}, map[1 := found], [], now)
    else if k == 2 then State(l, {}, map[1 := found, 2 := found], [], now)
    else if k == 3 then State(l, {}, map[1 := Keyed(date, date, now), 2 := found], [], now)
    else
      var once := ExecuteCommit(l, id, false, source, fee, now);
      var early := once.stacks[id].nextExecutionAt;
      var first := Debit(date, date, now);
      if k == 4 then State(once, {date}, map[1 := Idle, 2 := found], [first], now)
      else if k == 5 then State(once, {date}, map[1 := Idle, 2 := Keyed(date, early, now)], [first], now)
      else State(ExecuteCommit(once, id, false, source, fee, now), {date} + {early}, map[1 := Idle, 2 := Idle],
                 [first, Debit(date, early, now)], now)
  }

  predicate TwiceDue(l: Ledger, id: nat, source: nat, fee: nat, now: int) {
    && id < |l.stacks| && l.stacks[id].status.Active? && Due(l.stacks[id].nextExecutionAt, now)
    && Affordable(l, id, 2 * (source + fee))
  }

  lemma OverlapLooks(l: Ledger, id: nat, source: nat, fee: nat, now: int, k: nat)
    requires TwiceDue(l, id, source, fee, now) && (k == 0 || k == 1 || k == 2 || k == 4)
    ensures var s := OverlapState(l, id, source, fee, now, k);
      id < |s.l.stacks|
      && Step(s, id, Overlap(now, source, fee)[k]) == OverlapState(l, id, source, fee, now, k + 1)
  {
    Charged(l, id, source, fee, now);
    hide NextExecution, NextInterest, Apply, ExecuteCommit;
  }

  lemma OverlapPays(l: Ledger, id: nat, source: nat, fee: nat, now: int, k: nat)
    requires TwiceDue(l, id, source, fee, now) && (k == 3 || k == 5)
    ensures var s := OverlapState(l, id, source, fee, now, k);
      id < |s.l.stacks|
      && Step(s, id, Overlap(now, source, fee)[k]) == OverlapState(l, id, source, fee, now, k + 1)
  {
    Charged(l, id, source, fee, now);
    hide NextExecution, NextInterest, Apply, ExecuteCommit;
  }

  lemma {:induction false} OverlapRuns(l: Ledger, id: nat, source: nat, fee: nat, now: int, k: nat)
    requires TwiceDue(l, id, source, fee, now) && k <= 6
    ensures var s := OverlapState(l, id, source, fee, now, k);
      id < |s.l.stacks|
      && Run(s, id, Overlap(now, source, fee)[k..]) == OverlapState(l, id, source, fee, now, 6)
    decreases 6 - k
  {
    var es := Overlap(now, source, fee);
    hide Step, OverlapState, Overlap, ExecuteCommit;
    if k < 6 {
      if k == 3 || k == 5 { OverlapPays(l, id, source, fee, now, k); } else { OverlapLooks(l, id, source, fee, now, k); }
      OverlapRuns(l, id, source, fee, now, k + 1);
      assert es[k..][0] == es[k] && es[k..][1..] == es[k + 1..];
    } else {
      OverlapEnds(l, id, source, fee, now);
      assert es[6..] == [];
    }
  }

  lemma OverlapEnds(l: Ledger, id: nat, source: nat, fee: nat, now: int)
    requires TwiceDue(l, id, source, fee, now)
    ensures id < |OverlapState(l, id, source, fee, now, 6).l.stacks|
  {
    hide NextExecution, NextInterest;
  }

  /** Whatever the ledger, the amount and the instant: both jobs debit, the second for a date that is
      not due yet, although no lease is overrun and no row is debited twice.  At one instant the
      second debit even leaves the stack at a date whose row is COMPLETED. */
  lemma OverlapChargesEarly(l: Ledger, id: nat, source: nat, fee: nat, now: int)
    requires TwiceDue(l, id, source, fee, now)
    ensures var s := State(l, {}, map[], [], now);
      var date := l.stacks[id].nextExecutionAt;
      var early := NextExecution(l.stacks[id].frequency, now);
      var t := Run(s, id, Overlap(now, source, fee));
      && Initial(s, id) && date <= now < early
      && t.debits == [Debit(date, date, now), Debit(date, early, now)]
      && t.l.wallets.Keys == l.wallets.Keys && l.stacks[id].user in l.wallets
      && t.l.wallets[l.stacks[id].user].base == l.wallets[l.stacks[id].user].base - 2 * (source + fee)
      && IsStuck(t, id)
  {
    OverlapRuns(l, id, source, fee, now, 0);
    assert Overlap(now, source, fee)[0..] == Overlap(now, source, fee);
    Charged(l, id, source, fee, now);
    Charged(ExecuteCommit(l, id, false, source, fee, now), id, source, fee, now);
    hide NextExecution, NextInterest, Run, Overlap, ExecuteCommit;
  }

  /** The row of the stack's next date is COMPLETED already, and no job is on its way to another. */
  predicate IsStuck(s: State, id: nat) {
    && id < |s.l.stacks| && Next(s, id) in s.rows
    && forall j :: j in s.jobs && s.jobs[j].Keyed? ==> s.jobs[j].key in s.rows
  }

  lemma StuckStep(s: State, id: nat, e: Event)
    requires IsStuck(s, id)
    ensures IsStuck(Step(s, id, e), id) && Step(s, id, e).debits == s.debits
  {
    assert JobOf(s, e.job).Keyed? ==> e.job in s.jobs;
    StackStays(s, id, e);
    hide Apply, ExecuteCommit;
  }

  /** Such a stack is never charged again: each job finds the COMPLETED row and returns. */
  lemma {:induction false} StuckForever(s: State, id: nat, es: seq<Event>)
    requires IsStuck(s, id)
    ensures Run(s, id, es).debits == s.debits
    decreases |es|
  {
    if es != [] {
      StuckStep(s, id, es[0]);
      hide Step;
      StuckForever(Step(s, id, es[0]), id, es[1..]);
    }
  }
}
