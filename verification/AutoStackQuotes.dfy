/** The stored quote of an autostack.  `confirm` reads it and never deletes it. */
module AutoStackQuotes {
  import opened Wrappers
  import opened Calendar
  import opened AutoStackLedger

  /** The quote as stored, and until when its key lives. */
  datatype Quote = Quote(frequency: Frequency, principal: nat, startAt: Option<int>, until: int)

  /** A confirmation by `user`: its PIN, whether its wallet or card is there, and when it runs. */
  datatype Confirmation = Confirmation(user: UserId, pinOk: bool, sourceOk: bool, now: int)

  datatype Event = Confirms(c: Confirmation) | Elsewhere(e: AutoStackLedger.Event)

  predicate LetsIn(q: Quote, c: Confirmation) {
    c.pinOk && c.now < q.until && c.sourceOk
  }

  /** When the stack that a confirmation asks for is first due. */
  function StartOf(q: Quote, c: Confirmation): int {
    if q.startAt.Some? then q.startAt.value else c.now
  }

  function Step(q: Quote, l: Ledger, e: Event): Ledger {
    match e
    case Confirms(c) =>
      if LetsIn(q, c) then Apply(l, At(c.now, Confirm(c.user, q.frequency, q.principal, StartOf(q, c))))
      else l
    case Elsewhere(e) => if e.op.Confirm? then l else Apply(l, e)
  }

  function RunAll(q: Quote, l: Ledger, es: seq<Event>): Ledger
    decreases |es|
  {
    if es == [] then l else RunAll(q, Step(q, l, es[0]), es[1..])
  }

  /** Whose stacks there are, and how often they are charged; neither ever changes. */
  function Plans(stacks: seq<Stack>): seq<(UserId, Frequency)> {
    seq(|stacks|, i requires 0 <= i < |stacks| => (stacks[i].user, stacks[i].frequency))
  }

  function PlanOf(q: Quote, e: Event): seq<(UserId, Frequency)> {
    if e.Confirms? && e.c.pinOk && e.c.now < q.until && e.c.sourceOk then [(e.c.user, q.frequency)] else []
  }

  /** What the confirmations in time ask for, in order. */
  function PlansOf(q: Quote, es: seq<Event>): seq<(UserId, Frequency)> {
    if es == [] then [] else PlanOf(q, es[0]) + PlansOf(q, es[1..])
  }

  lemma OtherKeepsPlans(l: Ledger, e: AutoStackLedger.Event)
    requires !e.op.Confirm?
    ensures Plans(Apply(l, e).stacks) == Plans(l.stacks)
  {
    hide NextExecution, NextInterest, Interest, Payout, InterestPaid;
  }

  lemma StepAddsPlan(q: Quote, l: Ledger, e: Event)
    ensures Plans(Step(q, l, e).stacks) == Plans(l.stacks) + PlanOf(q, e)
  {
    match e {
      case Confirms(c) =>
      case Elsewhere(e) =>
        if !e.op.Confirm? { OtherKeepsPlans(l, e); }
        hide Apply;
    }
  }

  /** Over any run, whatever becomes of the stacks in between, one quote makes exactly one further
      stack for each confirmation in time, however often it is confirmed. */
  lemma {:induction false} EveryRepeatCreates(q: Quote, l: Ledger, es: seq<Event>)
    ensures Plans(RunAll(q, l, es).stacks) == Plans(l.stacks) + PlansOf(q, es)
    decreases |es|
  {
    hide Step, Plans, PlanOf;
    if es != [] {
      StepAddsPlan(q, l, es[0]);
      EveryRepeatCreates(q, Step(q, l, es[0]), es[1..]);
    }
  }

  lemma {:induction false} RunLast(q: Quote, l: Ledger, es: seq<Event>, e: Event)
    ensures RunAll(q, l, es + [e]) == Step(q, RunAll(q, l, es), e)
    decreases |es|
  {
    hide Step;
    if es == [] {
      assert es + [e] == [e];
    } else {
      assert (es + [e])[0] == es[0] && (es + [e])[1..] == es[1..] + [e];
      RunLast(q, Step(q, l, es[0]), es[1..], e);
    }
  }

  /** After any run, with any number of confirmations in it, one more appends its stack and touches
      nothing else if and only if the quote lives, the PIN is right and the source is there. */
  lemma ConfirmIff(q: Quote, l: Ledger, es: seq<Event>, c: Confirmation)
    ensures var before, t := RunAll(q, l, es), RunAll(q, l, es + [Confirms(c)]);
      var start := if q.startAt.Some? then q.startAt.value else c.now;
      var row := Stack(c.user, q.frequency, Pending, q.principal, 0, start, start);
      && (c.pinOk && c.now < q.until && c.sourceOk <==> t == before.(stacks := before.stacks + [row]))
      && (!c.pinOk || c.now >= q.until || !c.sourceOk <==> t == before)
  {
    RunLast(q, l, es, Confirms(c));
    hide RunAll;
    var before := RunAll(q, l, es);
    assert forall row :: |before.stacks + [row]| == |before.stacks| + 1;
  }
}
