/** One stored bill quote and the confirmations that read it.  A confirmation reads the quote when
    it begins and deletes it only at its very end, so the quote can be confirmed more than once. */
module BillQuotes {
  import opened Wrappers
  import opened Pots
  import BillSaga

  datatype Quote = Quote(terms: BillSaga.Terms, expiresAt: int)

  /** `stored` is the key in the temp store; the pots are shared by all confirmations. */
  datatype State = State(stored: bool, user: Pot, company: Pot, confirmations: map<nat, BillSaga.State>)

  /** Open: the reads at the start of a confirmation by the quote's owner with the right PIN. */
  datatype Event = Open(id: nat, now: int) | Do(id: nat, e: BillSaga.Event) | Elsewhere(user: Pot, company: Pot)

  function Begun(user: Pot, company: Pot): BillSaga.State {
    BillSaga.State(BillSaga.Started, None, user, company, 0, 0, None, false, false, true)
  }

  predicate LetsIn(q: Quote, s: State, now: int) {
    s.stored && now <= q.expiresAt
  }

  function Step(q: Quote, s: State, e: Event): State {
    match e
    case Open(id, now) =>
      if id !in s.confirmations && LetsIn(q, s, now)
      then s.(confirmations := s.confirmations[id := Begun(s.user, s.company)]) else s
    case Do(id, e) =>
      if id !in s.confirmations || e.Others? then s
      else
        var c := BillSaga.Step(q.terms, s.confirmations[id].(user := s.user, company := s.company), e);
        State(s.stored && c.quoteStored, c.user, c.company, s.confirmations[id := c])
    case Elsewhere(user, company) => s.(user := user, company := company)
  }

  function Run(q: Quote, s: State, es: seq<Event>): State
    decreases |es|
  {
    if es == [] then s else Run(q, Step(q, s, es[0]), es[1..])
  }

  predicate Initial(s: State) {
    s.stored && s.confirmations == map[]
  }

  predicate NoneReturned(s: State) {
    forall id :: id in s.confirmations ==> !s.confirmations[id].phase.Returned?
  }

  predicate Inv(s: State) {
    (forall id :: id in s.confirmations ==> BillSaga.Flags(s.confirmations[id])) && (s.stored <==> NoneReturned(s))
  }

  lemma StepKeepsInv(q: Quote, s: State, e: Event)
    requires Inv(s)
    ensures Inv(Step(q, s, e))
  {
    if e.Do? && e.id in s.confirmations && !e.e.Others? {
      var c := s.confirmations[e.id].(user := s.user, company := s.company);
      assert BillSaga.Flags(c);
      BillSaga.StepKeepsFlags(q.terms, c, e.e);
      if c.phase.Returned? { ReturnedStays(q.terms, c, e.e); }
      hide BillSaga.Step;
      var n := Step(q, s, e);
      assert BillSaga.Flags(n.confirmations[e.id]);
      assert NoneReturned(n) <==> NoneReturned(s) && !n.confirmations[e.id].phase.Returned? by {
        assert forall id :: id in s.confirmations && id != e.id ==> n.confirmations[id] == s.confirmations[id];
      }
    }
  }

  lemma ReturnedStays(t: BillSaga.Terms, c: BillSaga.State, e: BillSaga.Event)
    requires c.phase.Returned?
    ensures BillSaga.Step(t, c, e).phase.Returned?
  {}

  lemma {:induction false} RunKeepsInv(q: Quote, s: State, es: seq<Event>)
    requires Inv(s)
    ensures Inv(Run(q, s, es))
    decreases |es|
  {
    hide Inv, Step;
    if es != [] {
      StepKeepsInv(q, s, es[0]);
      RunKeepsInv(q, Step(q, s, es[0]), es[1..]);
    }
  }

  /** After any run, a further confirmation is let in before the quote expires if and only if none
      has returned: neither a confirmation in progress nor one that paid and then failed keeps it
      out. */
  lemma LetInIff(q: Quote, s: State, es: seq<Event>, id: nat, now: int)
    requires Initial(s) && id !in Run(q, s, es).confirmations
    ensures var t := Run(q, s, es);
      id in Step(q, t, Open(id, now)).confirmations <==> NoneReturned(t) && now <= q.expiresAt
  {
    RunKeepsInv(q, s, es);
  }

  predicate ElsewhereSolvent(es: seq<Event>) {
    forall i :: 0 <= i < |es| && es[i].Elsewhere? ==> Solvent(es[i].user) && Solvent(es[i].company)
  }

  lemma StepKeepsSolvent(q: Quote, s: State, e: Event)
    requires Solvent(s.user) && Solvent(s.company)
    requires e.Elsewhere? ==> Solvent(e.user) && Solvent(e.company)
    ensures Solvent(Step(q, s, e).user) && Solvent(Step(q, s, e).company)
  {
    if e.Do? && e.id in s.confirmations && !e.e.Others? {
      BillSaga.StepKeepsSolvent(q.terms, s.confirmations[e.id].(user := s.user, company := s.company), e.e);
      hide BillSaga.Step;
    }
  }

  /** However many confirmations share the balances, they never reserve more than there is. */
  lemma {:induction false} NeverOverdrawn(q: Quote, s: State, es: seq<Event>)
    requires Solvent(s.user) && Solvent(s.company) && ElsewhereSolvent(es)
    ensures Solvent(Run(q, s, es).user) && Solvent(Run(q, s, es).company)
    decreases |es|
  {
    hide Step;
    if es != [] {
      StepKeepsSolvent(q, s, es[0]);
      NeverOverdrawn(q, Step(q, s, es[0]), es[1..]);
    }
  }

  // ---------------------------------------------------------------- paid once

  /** A confirmation opens only when every other one has ended without an acknowledged order. */
  predicate Patient(q: Quote, s: State, e: Event) {
    e.Open? && e.id !in s.confirmations && LetsIn(q, s, e.now) ==>
      forall id :: id in s.confirmations ==>
        BillSaga.HasEnded(s.confirmations[id].phase) && !s.confirmations[id].acknowledged
  }

  predicate PatientRun(q: Quote, s: State, es: seq<Event>)
    decreases |es|
  {
    es == [] || (Patient(q, s, es[0]) && PatientRun(q, Step(q, s, es[0]), es[1..]))
  }

  /** The confirmation has paid, or still may. */
  predicate Live(c: BillSaga.State) {
    c.acknowledged || !BillSaga.HasEnded(c.phase)
  }

  predicate OneLive(s: State) {
    forall i, j :: i in s.confirmations && j in s.confirmations && Live(s.confirmations[i]) && Live(s.confirmations[j]) ==>
      i == j
  }

  lemma PatientStep(q: Quote, s: State, e: Event)
    requires Inv(s) && OneLive(s) && Patient(q, s, e)
    ensures OneLive(Step(q, s, e))
  {
    if e.Do? && e.id in s.confirmations && !e.e.Others? {
      BillSaga.StepKeepsFlags(q.terms, s.confirmations[e.id].(user := s.user, company := s.company), e.e);
      hide BillSaga.Step;
    }
  }

  /** Then the quote is paid once at most. */
  lemma {:induction false} PaidOnce(q: Quote, s: State, es: seq<Event>, i: nat, j: nat)
    requires Inv(s) && OneLive(s) && PatientRun(q, s, es)
    requires var t := Run(q, s, es);
      i in t.confirmations && j in t.confirmations && t.confirmations[i].acknowledged && t.confirmations[j].acknowledged
    ensures i == j
    decreases |es|
  {
    assert forall c: BillSaga.State :: c.acknowledged ==> Live(c);
    if es == [] {
      assert Live(s.confirmations[i]) && Live(s.confirmations[j]);
    } else {
      StepKeepsInv(q, s, es[0]);
      PatientStep(q, s, es[0]);
      hide Inv, OneLive, Patient, Step;
      PaidOnce(q, Step(q, s, es[0]), es[1..], i, j);
    }
  }

  // ---------------------------------------------------------------- paid again

  /** A confirmation up to the answer to its order. */
  function Pays(id: nat, now: int, order: BillSaga.Order): (es: seq<Event>)
    ensures |es| == 3
  {
    [Open(id, now), Do(id, BillSaga.ReserveBoth), Do(id, BillSaga.PlaceOrder(order))]
  }

  predicate Affords(q: Quote, s: State) {
    && s.user.total - s.user.reserved >= q.terms.total
    && s.company.total - s.company.reserved >= q.terms.fiat
  }

  lemma RunThree(q: Quote, s: State, es: seq<Event>)
    requires |es| == 3
    ensures Run(q, s, es) == Step(q, Step(q, Step(q, s, es[0]), es[1]), es[2])
  {
    var s1, s2 := Step(q, s, es[0]), Step(q, Step(q, s, es[0]), es[1]);
    hide Step;
    assert es[1..][0] == es[1] && es[1..][1..][0] == es[2] && es[1..][1..][1..] == [];
    assert Run(q, s, es) == Run(q, s1, es[1..]) == Run(q, s2, es[1..][1..]);
  }

  /** A confirmation that meets no obstacle, after whatever others: it ends acknowledged, and leaves
      the others as they are, if and only if none has returned, the quote has not expired, both
      balances suffice and the reply acknowledges the order. */
  lemma PaysIff(q: Quote, s: State, id: nat, now: int, order: BillSaga.Order)
    requires Inv(s) && id !in s.confirmations
    ensures var t := Run(q, s, Pays(id, now, order));
      && (id in t.confirmations && t.confirmations[id].acknowledged
          <==> && NoneReturned(s) && now <= q.expiresAt
               && s.user.total - s.user.reserved >= q.terms.total
               && s.company.total - s.company.reserved >= q.terms.fiat
               && order.reply.Response? && order.reply.status == "success" && order.reply.hasData)
      && (forall j :: j in s.confirmations ==> j in t.confirmations && t.confirmations[j] == s.confirmations[j])
      && t.stored == s.stored
  {
    RunThree(q, s, Pays(id, now, order));
  }

  /** A confirmation that fails to record its acknowledged order and fails in its catch block, too. */
  function Unresolved(id: nat): (es: seq<Event>)
    ensures |es| == 2
  {
    [Do(id, BillSaga.PersistReference(false)), Do(id, BillSaga.Compensate(false))]
  }

  lemma RunTwo(q: Quote, s: State, es: seq<Event>)
    requires |es| == 2
    ensures Run(q, s, es) == Step(q, Step(q, s, es[0]), es[1])
  {
    hide Step;
    assert es[1..][0] == es[1] && es[1..][1..] == [];
    assert Run(q, s, es) == Run(q, Step(q, s, es[0]), es[1..]);
  }

  lemma UnresolvedStays(q: Quote, s: State, id: nat)
    requires Inv(s) && id in s.confirmations && s.confirmations[id].phase.Persisting?
    ensures var t := Run(q, s, Unresolved(id));
      && id in t.confirmations && t.confirmations[id].acknowledged && t.confirmations[id].phase.Thrown?
      && t.stored == s.stored && t.user == s.user && t.company == s.company
      && (forall j :: j in t.confirmations <==> j in s.confirmations)
      && (NoneReturned(s) ==> NoneReturned(t))
  {
    RunTwo(q, s, Unresolved(id));
  }

  lemma {:induction false} RunJoin(q: Quote, s: State, a: seq<Event>, b: seq<Event>)
    ensures Run(q, s, a + b) == Run(q, Run(q, s, a), b)
    decreases |a|
  {
    hide Step;
    if a == [] {
      assert a + b == b;
    } else {
      assert (a + b)[0] == a[0] && (a + b)[1..] == a[1..] + b;
      RunJoin(q, Step(q, s, a[0]), a[1..], b);
    }
  }

  lemma FirstPays(q: Quote, s: State, id: nat, now: int, order: BillSaga.Order)
    requires Initial(s) && now <= q.expiresAt && Affords(q, s) && BillSaga.Acknowledges(order.reply)
    ensures var t := Run(q, s, Pays(id, now, order));
      && t.confirmations.Keys == {id} && t.confirmations[id].phase.Persisting? && t.confirmations[id].acknowledged
      && t.user == s.user.(reserved := s.user.reserved + q.terms.total)
      && t.company == s.company.(reserved := s.company.reserved + q.terms.fiat) && t.stored
  {
    RunThree(q, s, Pays(id, now, order));
  }

  /** Retried after a confirmation that ended unresolved, the same quote is paid a second time, and is
      stored still; so it is when the two overlap.  This holds for every quote that the balances
      afford twice. */
  lemma PaidTwice(q: Quote, s: State, now: int, first: BillSaga.Order, second: BillSaga.Order, retried: bool)
    requires Initial(s) && now <= q.expiresAt
    requires s.user.total - s.user.reserved >= 2 * q.terms.total
    requires s.company.total - s.company.reserved >= 2 * q.terms.fiat
    requires BillSaga.Acknowledges(first.reply) && BillSaga.Acknowledges(second.reply)
    ensures var es := Pays(1, now, first) + ((if retried then Unresolved(1) else []) + Pays(2, now, second));
      var t := Run(q, s, es);
      && t.confirmations.Keys == {1, 2} && t.confirmations[1].acknowledged && t.confirmations[2].acknowledged
      && (retried ==> BillSaga.HasEnded(t.confirmations[1].phase)) && t.stored
  {
    var s1 := Run(q, s, Pays(1, now, first));
    var between := if retried then Unresolved(1) else [];
    var s2 := Run(q, s1, between);
    assert Inv(s);
    RunKeepsInv(q, s, Pays(1, now, first));
    FirstPays(q, s, 1, now, first);
    if retried { UnresolvedStays(q, s1, 1); }
    RunKeepsInv(q, s1, between);
    RunJoin(q, s, Pays(1, now, first), between + Pays(2, now, second));
    RunJoin(q, s1, between, Pays(2, now, second));
    PaysIff(q, s2, 2, now, second);
    OnlyTwo(q, s2, now, second);
    hide Run, Pays, Unresolved;
  }

  lemma OnlyTwo(q: Quote, s: State, now: int, order: BillSaga.Order)
    ensures Run(q, s, Pays(2, now, order)).confirmations.Keys <= s.confirmations.Keys + {2}
  {
    RunThree(q, s, Pays(2, now, order));
  }
}
