/** Checkout sessions, Stripe webhooks and the plan a user is entitled to. Events are
    already verified and parsed. A payment row is identified by its Stripe session, which
    the table keeps unique. */
module Payments {
  import opened Common

  datatype Status = Pending | Completed | Expired | Refunded

  datatype Payment = Payment(user: Uuid, amountCents: int, status: Status, plan: string, completedAt: Option<Time>)

  /** `plans` holds the plan of every existing user. */
  datatype Ledger = Ledger(payments: map<string, Payment>, plans: map<Uuid, string>, recorded: set<string>)

  function PlanAmount(plan: string): Option<int> {
    if plan == "pro" then Some(499) else if plan == "lifetime" then Some(4999) else None
  }

  predicate Paid(plan: string) {
    PlanAmount(plan).Some?
  }

  datatype Error = InvalidPlan | CheckoutFailed | StoreFailed | MissingId | RecordFailed | LookupFailed
                 | AlreadyDone | WriteFailed

  datatype Outcome = Ok | Err(error: Error)

  datatype Kind =
    CheckoutCompleted | SubscriptionDeleted | InvoicePaymentFailed | CheckoutExpired | ChargeRefunded | Other

  /** `session` is empty when the event names none; `client` is the parsed
      client_reference_id, absent when missing or malformed. */
  datatype Event = Event(id: string, kind: Kind, session: string, client: Option<Uuid>)

  /** Repository failures while one webhook is handled. */
  datatype Faults = Faults(record: bool, lookup: bool, write: bool, setPlan: bool)

  // ------------------------------------------------------- table writes and handlers

  function WithPlan(l: Ledger, user: Uuid, plan: string): Ledger {
    if user in l.plans then l.(plans := l.plans[user := plan]) else l
  }

  function WithStatus(l: Ledger, session: string, status: Status): Ledger
    requires session in l.payments
  {
    l.(payments := l.payments[session := l.payments[session].(status := status)])
  }

  /** Both writes of the completion transaction; a write that matches no row changes
      nothing. */
  function WithCompletion(l: Ledger, session: string, plan: string, user: Uuid, now: Time): Ledger {
    var l' := if session !in l.payments then l
              else
                var done := l.payments[session].(status := Completed, completedAt := Some(now));
                l.(payments := l.payments[session := done]);
    WithPlan(l', user, plan)
  }

  function Complete(l: Ledger, e: Event, f: Faults, now: Time): (Ledger, Outcome) {
    if e.session == "" then (l, Err(MissingId))
    else if f.lookup || e.session !in l.payments then (l, Err(LookupFailed))
    else if l.payments[e.session].status == Completed then (l, Err(AlreadyDone))
    else if f.write then (l, Err(WriteFailed))
    else (WithCompletion(l, e.session, l.payments[e.session].plan, l.payments[e.session].user, now), Ok)
  }

  function Expire(l: Ledger, e: Event, f: Faults): (Ledger, Outcome) {
    if e.session == "" then (l, Err(MissingId))
    else if f.lookup || e.session !in l.payments then (l, Err(LookupFailed))
    else if l.payments[e.session].status != Pending then (l, Ok)
    else if f.write then (l, Err(WriteFailed))
    else (WithStatus(l, e.session, Expired), Ok)
  }

  /** A failed downgrade after the refund is only logged. */
  function Refund(l: Ledger, e: Event, f: Faults): (Ledger, Outcome) {
    if e.session == "" then (l, Err(MissingId))
    else if f.lookup || e.session !in l.payments then (l, Err(LookupFailed))
    else if f.write then (l, Err(WriteFailed))
    else
      var l' := WithStatus(l, e.session, Refunded);
      (if f.setPlan then l' else WithPlan(l', l.payments[e.session].user, "free"), Ok)
  }

  function Unsubscribe(l: Ledger, e: Event, f: Faults): (Ledger, Outcome) {
    if e.client.None? then (l, Err(MissingId))
    else if f.setPlan then (l, Err(WriteFailed))
    else (WithPlan(l, e.client.value, "free"), Ok)
  }

  function Dispatch(l: Ledger, e: Event, f: Faults, now: Time): (Ledger, Outcome) {
    match e.kind
    case CheckoutCompleted => Complete(l, e, f, now)
    case SubscriptionDeleted => Unsubscribe(l, e, f)
    case CheckoutExpired => Expire(l, e, f)
    case ChargeRefunded => Refund(l, e, f)
    case InvoicePaymentFailed => (l, Ok)
    case Other => (l, Ok)
  }

  /** Production records the event first and handles it only if it was new; test mode
      handles it unless it is known to be a repeat. */
  function Handle(l: Ledger, testMode: bool, e: Event, f: Faults, now: Time): (Ledger, Outcome) {
    if testMode then
      if e.id == "" || f.record then Dispatch(l, e, f, now)
      else if e.id in l.recorded then (l, Ok)
      else Dispatch(l.(recorded := l.recorded + {e.id}), e, f, now)
    else if e.id == "" then (l, Err(MissingId))
    else if f.record then (l, Err(RecordFailed))
    else if e.id in l.recorded then (l, Ok)
    else Dispatch(l.(recorded := l.recorded + {e.id}), e, f, now)
  }

  /** A checkout stores a pending payment under the session Stripe issued. The insert
      fails when the session is taken or the user does not exist. */
  function Checkout(
    l: Ledger, user: Uuid, plan: string, session: string, stripeFails: bool, writeFails: bool): (Ledger, Outcome)
  {
    if !Paid(plan) then (l, Err(InvalidPlan))
    else if stripeFails then (l, Err(CheckoutFailed))
    else if writeFails || session in l.payments || user !in l.plans then (l, Err(StoreFailed))
    else (l.(payments := l.payments[session := Payment(user, PlanAmount(plan).value, Pending, plan, None)]), Ok)
  }

  class PaymentRepository {
    var payments: map<string, Payment>
    var plans: map<Uuid, string>
    var events: set<string>

    constructor ()
      ensures View() == Ledger(map[], map[], {})
    {
      payments, plans, events := map[], map[], {};
    }

    ghost function View(): Ledger
      reads this
    {
      Ledger(payments, plans, events)
    }

    method CreatePayment(session: string, p: Payment, fails: bool) returns (ok: bool)
      modifies this
      ensures ok == !(fails || session in old(payments) || p.user !in plans)
      ensures View() == if ok then old(View()).(payments := old(payments)[session := p]) else old(View())
    {
      if fails || session in payments || p.user !in plans {
        return false;
      }
      payments := payments[session := p];
      return true;
    }

    method UpdateStatus(session: string, status: Status, now: Time, fails: bool) returns (ok: bool)
      modifies this
      ensures ok == (!fails && session in old(payments))
      ensures !ok ==> View() == old(View())
      ensures ok && status != Completed ==> View() == WithStatus(old(View()), session, status)
      ensures ok && status == Completed ==>
                var done := old(payments)[session].(status := status, completedAt := Some(now));
                View() == old(View()).(payments := old(payments)[session := done])
    {
      if fails || session !in payments {
        return false;
      }
      var p := payments[session];
      var completedAt := if status == Completed then Some(now) else p.completedAt;
      payments := payments[session := p.(status := status, completedAt := completedAt)];
      return true;
    }

    /** Both writes or neither. */
    method CompletePaymentTx(session: string, plan: string, user: Uuid, now: Time, fails: bool) returns (ok: bool)
      modifies this
      ensures ok == !fails
      ensures View() == if fails then old(View()) else WithCompletion(old(View()), session, plan, user, now)
    {
      if fails {
        return false;
      }
      if session in payments {
        payments := payments[session := payments[session].(status := Completed, completedAt := Some(now))];
      }
      SetPlan(user, plan);
      return true;
    }

    method SetPlan(user: Uuid, plan: string)
      modifies this`plans
      ensures View() == WithPlan(old(View()), user, plan)
      ensures plans.Keys == old(plans).Keys && (user in plans ==> plans[user] == plan)
      ensures forall u :: u in plans && u != user ==> plans[u] == old(plans)[u]
    {
      if user in plans {
        plans := plans[user := plan];
      }
    }

    /** Returns whether the event was new. */
    method RecordWebhookEvent(id: string, fails: bool) returns (r: Result<bool>)
      modifies this`events
      ensures r == if fails then Failure else Success(id !in old(events))
      ensures events == if fails then old(events) else old(events) + {id}
    {
      if fails {
        return Failure;
      }
      r := Success(id !in events);
      events := events + {id};
    }
  }

  class PaymentService {
    const repo: PaymentRepository
    const testMode: bool

    constructor (repo: PaymentRepository, testMode: bool)
      ensures this.repo == repo && this.testMode == testMode
    {
      this.repo := repo;
      this.testMode := testMode;
    }

    method CreateCheckoutSession(user: Uuid, plan: string, session: string, stripeFails: bool, writeFails: bool)
      returns (r: Outcome)
      modifies repo
      ensures (repo.View(), r) == Checkout(old(repo.View()), user, plan, session, stripeFails && !testMode, writeFails)
      ensures r == Err(InvalidPlan) <==> plan !in {"pro", "lifetime"}
      ensures r == Err(CheckoutFailed) <==> plan in {"pro", "lifetime"} && !testMode && stripeFails
      ensures r == Ok ==> session !in old(repo.payments) && user in old(repo.plans)
      ensures r == Ok ==>
                repo.payments == old(repo.payments)[
                  session := Payment(user, if plan == "pro" then 499 else 4999, Pending, plan, None)]
      ensures repo.plans == old(repo.plans) && (r != Ok ==> repo.payments == old(repo.payments))
    {
      var amount := PlanAmount(plan);
      if amount.None? {
        return Err(InvalidPlan);
      }
      if !testMode && stripeFails {
        return Err(CheckoutFailed);
      }
      var ok := repo.CreatePayment(session, Payment(user, amount.value, Pending, plan, None), writeFails);
      return if ok then Ok else Err(StoreFailed);
    }

    method HandleWebhook(e: Event, f: Faults, now: Time) returns (r: Outcome)
      modifies repo
      ensures (repo.View(), r) == Handle(old(repo.View()), testMode, e, f, now)
      ensures e.id != "" && !f.record ==> repo.events == old(repo.events) + {e.id}
      ensures e.id != "" && !f.record && e.id in old(repo.events) ==> r == Ok && repo.View() == old(repo.View())
      ensures !testMode && (e.id == "" || f.record) ==>
                r == Err(if e.id == "" then MissingId else RecordFailed) && repo.View() == old(repo.View())
      ensures Passes(old(repo.View()), testMode, e, f) <==>
                if e.id == "" || f.record then testMode else e.id !in old(repo.events)
    {
      if testMode {
        if e.id != "" {
          var isNew := repo.RecordWebhookEvent(e.id, f.record);
          if isNew == Success(false) {
            assert repo.View() == old(repo.View());
            return Ok;
          }
        }
      } else {
        if e.id == "" {
          return Err(MissingId);
        }
        var isNew := repo.RecordWebhookEvent(e.id, f.record);
        if isNew == Failure {
          return Err(RecordFailed);
        }
        if isNew == Success(false) {
          assert repo.View() == old(repo.View());
          return Ok;
        }
      }
      r := Route(e, f, now);
    }

    method Route(e: Event, f: Faults, now: Time) returns (r: Outcome)
      modifies repo
      ensures (repo.View(), r) == Dispatch(old(repo.View()), e, f, now)
    {
      match e.kind {
        case CheckoutCompleted => r := CompletePayment(e, f, now);
        case SubscriptionDeleted =>
          if e.client.None? {
            return Err(MissingId);
          }
          if f.setPlan {
            return Err(WriteFailed);
          }
          repo.SetPlan(e.client.value, "free");
          return Ok;
        case CheckoutExpired => r := HandleExpired(e, f, now);
        case ChargeRefunded => r := HandleRefunded(e, f, now);
        case InvoicePaymentFailed => return Ok;
        case Other => return Ok;
      }
    }

    method CompletePayment(e: Event, f: Faults, now: Time) returns (r: Outcome)
      modifies repo
      ensures (repo.View(), r) == Complete(old(repo.View()), e, f, now)
    {
      if e.session == "" {
        return Err(MissingId);
      }
      if f.lookup || e.session !in repo.payments {
        return Err(LookupFailed);
      }
      var payment := repo.payments[e.session];
      if payment.status == Completed {
        return Err(AlreadyDone);
      }
      var ok := repo.CompletePaymentTx(e.session, payment.plan, payment.user, now, f.write);
      return if ok then Ok else Err(WriteFailed);
    }

    method HandleExpired(e: Event, f: Faults, now: Time) returns (r: Outcome)
      modifies repo
      ensures (repo.View(), r) == Expire(old(repo.View()), e, f)
    {
      if e.session == "" {
        return Err(MissingId);
      }
      if f.lookup || e.session !in repo.payments {
        return Err(LookupFailed);
      }
      if repo.payments[e.session].status != Pending {
        return Ok;
      }
      var ok := repo.UpdateStatus(e.session, Expired, now, f.write);
      return if ok then Ok else Err(WriteFailed);
    }

    method HandleRefunded(e: Event, f: Faults, now: Time) returns (r: Outcome)
      modifies repo
      ensures (repo.View(), r) == Refund(old(repo.View()), e, f)
    {
      if e.session == "" {
        return Err(MissingId);
      }
      if f.lookup || e.session !in repo.payments {
        return Err(LookupFailed);
      }
      var user := repo.payments[e.session].user;
      var ok := repo.UpdateStatus(e.session, Refunded, now, f.write);
      if !ok {
        return Err(WriteFailed);
      }
      if !f.setPlan {
        repo.SetPlan(user, "free");
      }
      return Ok;
    }
  }

  // ----------------------------------------------------------------------------- runs

  datatype Step =
    | NewUser(user: Uuid)
    | NewCheckout(user: Uuid, plan: string, session: string, stripeFails: bool, writeFails: bool)
    | Webhook(event: Event, faults: Faults, now: Time)

  function Next(l: Ledger, testMode: bool, s: Step): Ledger {
    match s
    case NewUser(u) => if u in l.plans then l else l.(plans := l.plans[u := "free"])
    case NewCheckout(u, plan, session, stripeFails, writeFails) =>
      Checkout(l, u, plan, session, stripeFails && !testMode, writeFails).0
    case Webhook(e, f, now) => Handle(l, testMode, e, f, now).0
  }

  function Run(l: Ledger, testMode: bool, steps: seq<Step>): Ledger
    decreases |steps|
  {
    if steps == [] then l else Run(Next(l, testMode, steps[0]), testMode, steps[1..])
  }

  /** A completed payment of this user for this plan. */
  ghost predicate Backs(l: Ledger, s: string, user: Uuid, plan: string) {
    s in l.payments && l.payments[s].user == user && l.payments[s].status == Completed && l.payments[s].plan == plan
  }

  ghost predicate UserBacked(l: Ledger, u: Uuid) {
    u in l.plans && Paid(l.plans[u]) ==> exists s :: Backs(l, s, u, l.plans[u])
  }

  /** The record check lets the event through to its handler. */
  predicate Passes(l: Ledger, testMode: bool, e: Event, f: Faults) {
    if testMode then e.id == "" || f.record || e.id !in l.recorded
    else e.id != "" && !f.record && e.id !in l.recorded
  }

  /** The event names a payment of `u`, which is found and can be written. */
  predicate Reaches(l: Ledger, e: Event, f: Faults, u: Uuid) {
    e.session != "" && !f.lookup && !f.write && e.session in l.payments && l.payments[e.session].user == u
  }

  /** `u` is on a paid plan that no payment other than this one backs. */
  ghost predicate OnlyBacker(l: Ledger, session: string, u: Uuid) {
    u in l.plans && Paid(l.plans[u]) && forall s :: s != session ==> !Backs(l, s, u, l.plans[u])
  }

  /** The event refunds the only payment behind the plan of `u`, and the downgrade fails. */
  ghost predicate Unbacks(l: Ledger, e: Event, f: Faults, u: Uuid) {
    e.kind == ChargeRefunded && Reaches(l, e, f, u) && f.setPlan && OnlyBacker(l, e.session, u)
  }

  /** The event completes a payment of `u` or takes the plan of `u` away. */
  predicate Settles(l: Ledger, e: Event, f: Faults, u: Uuid) {
    match e.kind
    case CheckoutCompleted => Reaches(l, e, f, u) && l.payments[e.session].status != Completed
    case SubscriptionDeleted => e.client == Some(u) && !f.setPlan
    case ChargeRefunded => Reaches(l, e, f, u) && !f.setPlan
    case _ => false
  }

  ghost predicate Loses(l: Ledger, testMode: bool, s: Step, u: Uuid) {
    s.Webhook? && Passes(l, testMode, s.event, s.faults) && Unbacks(l, s.event, s.faults, u)
  }

  predicate Restores(l: Ledger, testMode: bool, s: Step, u: Uuid) {
    s.Webhook? && Passes(l, testMode, s.event, s.faults) && Settles(l, s.event, s.faults, u)
  }

  /** Whether a plan is backed depends on the user's own rows only. */
  lemma {:induction false} SameBacking(l: Ledger, l': Ledger, u: Uuid)
    requires u in l.plans ==> u in l'.plans && l'.plans[u] == l.plans[u]
    requires u in l'.plans && u !in l.plans ==> l'.plans[u] == "free"
    requires u in l.plans ==> forall s :: Backs(l, s, u, l.plans[u]) <==> Backs(l', s, u, l.plans[u])
    ensures UserBacked(l, u) <==> UserBacked(l', u)
  {
  }

  /** Completing a payment backs the plan its user gets with it, and concerns nobody else. */
  lemma {:induction false} CompletionBacks(l: Ledger, session: string, now: Time, u: Uuid)
    requires session in l.payments
    ensures var p := l.payments[session];
            var l' := WithCompletion(l, session, p.plan, p.user, now);
            UserBacked(l', u) <==> (u == p.user || UserBacked(l, u))
  {
    var p := l.payments[session];
    var l' := WithCompletion(l, session, p.plan, p.user, now);
    if u == p.user {
      assert u in l'.plans ==> Backs(l', session, u, l'.plans[u]);
    } else {
      SameBacking(l, l', u);
    }
  }

  /** Taking the completed status from a payment unbacks its user exactly when no other
      payment backs the plan. */
  lemma {:induction false} StatusChangeUnbacks(l: Ledger, session: string, status: Status, u: Uuid)
    requires session in l.payments && status != Completed
    ensures var p := l.payments[session];
            UserBacked(WithStatus(l, session, status), u) <==>
            if u == p.user then !OnlyBacker(l, session, u) else UserBacked(l, u)
  {
    var l' := WithStatus(l, session, status);
    if u != l.payments[session].user {
      SameBacking(l, l', u);
    } else if u in l.plans {
      assert forall s :: Backs(l', s, u, l.plans[u]) <==> s != session && Backs(l, s, u, l.plans[u]);
    }
  }

  lemma {:induction false} DowngradeSettles(l: Ledger, user: Uuid, u: Uuid)
    ensures UserBacked(WithPlan(l, user, "free"), u) <==> (u == user || UserBacked(l, u))
  {
    if u != user {
      SameBacking(l, WithPlan(l, user, "free"), u);
    }
  }

  lemma {:induction false} RefundBacking(l: Ledger, e: Event, f: Faults, u: Uuid)
    requires e.kind == ChargeRefunded
    ensures UserBacked(Refund(l, e, f).0, u) <==>
            if UserBacked(l, u) then !Unbacks(l, e, f, u) else Settles(l, e, f, u)
  {
    if e.session != "" && !f.lookup && !f.write && e.session in l.payments {
      StatusChangeUnbacks(l, e.session, Refunded, u);
      DowngradeSettles(WithStatus(l, e.session, Refunded), l.payments[e.session].user, u);
    }
  }

  lemma {:induction false} ExpireBacking(l: Ledger, e: Event, f: Faults, u: Uuid)
    ensures UserBacked(Expire(l, e, f).0, u) <==> UserBacked(l, u)
  {
    SameBacking(l, Expire(l, e, f).0, u);
  }

  lemma {:induction false} DispatchBacking(l: Ledger, e: Event, f: Faults, now: Time, u: Uuid)
    ensures UserBacked(Dispatch(l, e, f, now).0, u) <==>
            if UserBacked(l, u) then !Unbacks(l, e, f, u) else Settles(l, e, f, u)
  {
    match e.kind
    case CheckoutCompleted =>
      if e.session in l.payments {
        CompletionBacks(l, e.session, now, u);
      }
    case SubscriptionDeleted =>
      if e.client.Some? {
        DowngradeSettles(l, e.client.value, u);
      }
    case CheckoutExpired => ExpireBacking(l, e, f, u);
    case ChargeRefunded => RefundBacking(l, e, f, u);
    case InvoicePaymentFailed =>
    case Other =>
  }

  /** One step, exactly: a backed plan stays backed unless a refund of the only payment
      behind it loses its downgrade, and an unbacked one stays so until a payment of the
      user completes or the plan is taken away. */
  lemma {:induction false} LostDowngrade(l: Ledger, testMode: bool, s: Step, u: Uuid)
    ensures UserBacked(Next(l, testMode, s), u) <==>
            if UserBacked(l, u) then !Loses(l, testMode, s, u) else Restores(l, testMode, s, u)
  {
    if s.Webhook? {
      var l' := l.(recorded := l.recorded + {s.event.id});
      DispatchBacking(l, s.event, s.faults, s.now, u);
      DispatchBacking(l', s.event, s.faults, s.now, u);
      RecordingIsNeutral(l, l', s.event, s.faults, u);
    } else {
      SameBacking(l, Next(l, testMode, s), u);
    }
  }

  lemma {:induction false} RecordingIsNeutral(l: Ledger, l': Ledger, e: Event, f: Faults, u: Uuid)
    requires l'.payments == l.payments && l'.plans == l.plans
    ensures UserBacked(l, u) <==> UserBacked(l', u)
    ensures Unbacks(l, e, f, u) <==> Unbacks(l', e, f, u)
    ensures Settles(l, e, f, u) <==> Settles(l', e, f, u)
  {
    assert forall s, plan :: Backs(l, s, u, plan) <==> Backs(l', s, u, plan);
  }

  lemma {:induction false} RunSnoc(l: Ledger, testMode: bool, steps: seq<Step>, s: Step)
    ensures Run(l, testMode, steps + [s]) == Next(Run(l, testMode, steps), testMode, s)
    decreases |steps|
  {
    if steps == [] {
      assert steps + [s] == [s] && [s][1..] == [];
    } else {
      assert (steps + [s])[1..] == steps[1..] + [s];
      RunSnoc(Next(l, testMode, steps[0]), testMode, steps[1..], s);
    }
  }

  /** The backing of `u` was lost at step `i` and not restored since. */
  ghost predicate LostAt(l: Ledger, testMode: bool, steps: seq<Step>, u: Uuid, i: int) {
    && 0 <= i < |steps| && Loses(Run(l, testMode, steps[..i]), testMode, steps[i], u)
    && forall j :: i < j < |steps| ==> !Restores(Run(l, testMode, steps[..j]), testMode, steps[j], u)
  }

  lemma {:induction false} LostAtSnoc(l: Ledger, testMode: bool, steps: seq<Step>, s: Step, u: Uuid, i: int)
    ensures LostAt(l, testMode, steps + [s], u, i) <==>
            if i == |steps| then Loses(Run(l, testMode, steps), testMode, s, u)
            else LostAt(l, testMode, steps, u, i) && !Restores(Run(l, testMode, steps), testMode, s, u)
  {
    var all := steps + [s];
    assert all[..|steps|] == steps;
    assert forall j :: 0 <= j < |steps| ==> all[j] == steps[j] && all[..j] == steps[..j];
  }

  /** Over a whole run, exactly: a user backed at the start ends unbacked if and only if some
      step loses the backing and none restores it. */
  lemma {:induction false} BackedUnlessLost(l: Ledger, testMode: bool, steps: seq<Step>, u: Uuid)
    requires UserBacked(l, u)
    ensures UserBacked(Run(l, testMode, steps), u) <==> !exists i :: LostAt(l, testMode, steps, u, i)
    decreases |steps|
  {
    if steps != [] {
      var before, s := steps[..|steps|-1], steps[|steps|-1];
      assert before + [s] == steps;
      BackedUnlessLost(l, testMode, before, u);
      RunSnoc(l, testMode, before, s);
      LostDowngrade(Run(l, testMode, before), testMode, s, u);
      forall i ensures LostAt(l, testMode, steps, u, i) <==>
                       if i == |before| then Loses(Run(l, testMode, before), testMode, s, u)
                       else LostAt(l, testMode, before, u, i) && !Restores(Run(l, testMode, before), testMode, s, u) {
        LostAtSnoc(l, testMode, before, s, u, i);
      }
      var a := Run(l, testMode, before);
      if UserBacked(a, u) {
        assert LostAt(l, testMode, steps, u, |before|) <==> Loses(a, testMode, s, u);
      } else {
        var i :| LostAt(l, testMode, before, u, i);
        assert LostAt(l, testMode, steps, u, i) <==> !Restores(a, testMode, s, u);
      }
    }
  }

  /** Completed payments say when they were completed. */
  predicate Dated(l: Ledger) {
    forall s :: s in l.payments && l.payments[s].status == Completed ==> l.payments[s].completedAt.Some?
  }

  lemma {:induction false} DispatchKeepsDated(l: Ledger, e: Event, f: Faults, now: Time)
    requires Dated(l)
    ensures Dated(Dispatch(l, e, f, now).0)
  {
  }

  lemma {:induction false} NextKeepsDated(l: Ledger, testMode: bool, s: Step)
    requires Dated(l)
    ensures Dated(Next(l, testMode, s))
  {
    if s.Webhook? {
      DispatchKeepsDated(l, s.event, s.faults, s.now);
      DispatchKeepsDated(l.(recorded := l.recorded + {s.event.id}), s.event, s.faults, s.now);
    }
  }

  lemma {:induction false} RunKeepsDated(l: Ledger, testMode: bool, steps: seq<Step>)
    requires Dated(l)
    ensures Dated(Run(l, testMode, steps))
    decreases |steps|
  {
    if steps != [] {
      NextKeepsDated(l, testMode, steps[0]);
      RunKeepsDated(Next(l, testMode, steps[0]), testMode, steps[1..]);
    }
  }

  /** From all-free users, in either mode and whatever fails, a paid plan is backed by a
      completed payment exactly when no lost downgrade is still unrepaired; so a run in
      which no step loses the user's backing leaves the user backed. */
  lemma {:induction false} PaidPlansAreBacked(plans: map<Uuid, string>, testMode: bool, steps: seq<Step>, user: Uuid)
    requires forall u :: u in plans ==> plans[u] == "free"
    ensures var l0 := Ledger(map[], plans, {});
            var l := Run(l0, testMode, steps);
            && Dated(l)
            && ((user in l.plans && Paid(l.plans[user]) ==> exists s :: Backs(l, s, user, l.plans[user])) <==>
                !exists i :: LostAt(l0, testMode, steps, user, i))
            && ((forall i :: 0 <= i < |steps| ==> !Loses(Run(l0, testMode, steps[..i]), testMode, steps[i], user)) ==>
                UserBacked(l, user))
  {
    var l0 := Ledger(map[], plans, {});
    RunKeepsDated(l0, testMode, steps);
    BackedUnlessLost(l0, testMode, steps, user);
  }

  /** A run that ends unbacked: bought, completed, refunded with the downgrade lost. */
  lemma {:induction false} RefundedUserKeepsPlan(
    testMode: bool, u: Uuid, plan: string, session: string, bought: Time, refunded: Time)
    returns (steps: seq<Step>)
    requires Paid(plan) && session != "" && bought <= refunded
    ensures steps == [
              NewCheckout(u, plan, session, false, false),
              Webhook(Event("evt_1", CheckoutCompleted, session, None), Faults(false, false, false, false), bought),
              Webhook(Event("evt_2", ChargeRefunded, session, None), Faults(false, false, false, true), refunded)]
    ensures var l := Run(Ledger(map[], map[u := "free"], {}), testMode, steps);
            l.plans == map[u := plan] && !UserBacked(l, u)
  {
    var l0 := Ledger(map[], map[u := "free"], {});
    var first := NewCheckout(u, plan, session, false, false);
    var second :=
      Webhook(Event("evt_1", CheckoutCompleted, session, None), Faults(false, false, false, false), bought);
    var third := Webhook(Event("evt_2", ChargeRefunded, session, None), Faults(false, false, false, true), refunded);
    steps := [first, second, third];
    assert steps == (([] + [first]) + [second]) + [third];
    RunSnoc(l0, testMode, [], first);
    RunSnoc(l0, testMode, [first], second);
    RunSnoc(l0, testMode, [first, second], third);
  }

  // ---------------------------------------------------------------- what an event does

  /** An event that does not pass leaves the ledger alone: a repeat is answered as done, and
      production refuses an event without an id or one it cannot record. */
  lemma {:induction false} EventStopped(l: Ledger, testMode: bool, e: Event, f: Faults, now: Time)
    requires !Passes(l, testMode, e, f)
    ensures Handle(l, testMode, e, f, now).0 == l
    ensures Handle(l, testMode, e, f, now).1 ==
            if e.id == "" then Err(MissingId) else if f.record then Err(RecordFailed) else Ok
  {
  }

  /** The ledger in which the event is recorded, if it can be. */
  function Noted(l: Ledger, e: Event, f: Faults): Ledger {
    if e.id == "" || f.record then l else l.(recorded := l.recorded + {e.id})
  }

  /** The payment the event names cannot be found. */
  predicate Unfound(l: Ledger, e: Event, f: Faults) {
    e.session == "" || f.lookup || e.session !in l.payments
  }

  /** Events about a payment that cannot be found change nothing but the record. */
  lemma {:induction false} UnfoundIsRefused(l: Ledger, testMode: bool, e: Event, f: Faults, now: Time)
    requires Passes(l, testMode, e, f) && Unfound(l, e, f)
    requires e.kind in {CheckoutCompleted, CheckoutExpired, ChargeRefunded}
    ensures Handle(l, testMode, e, f, now) ==
            (Noted(l, e, f), Err(if e.session == "" then MissingId else LookupFailed))
    ensures Noted(l, e, f).payments == l.payments && Noted(l, e, f).plans == l.plans
  {
  }

  /** Completion: a payment in any other state becomes completed at `now` and its user gets
      its plan, both or neither. */
  lemma {:induction false} CompletionLaw(l: Ledger, testMode: bool, e: Event, f: Faults, now: Time)
    requires Passes(l, testMode, e, f) && e.kind == CheckoutCompleted && !Unfound(l, e, f)
    ensures var (l', r) := Handle(l, testMode, e, f, now);
            var p := l.payments[e.session];
            if p.status == Completed || f.write then
              l' == Noted(l, e, f) && r == Err(if p.status == Completed then AlreadyDone else WriteFailed)
            else
              && r == Ok
              && l'.payments == l.payments[e.session := Payment(p.user, p.amountCents, Completed, p.plan, Some(now))]
              && l'.plans == if p.user in l.plans then l.plans[p.user := p.plan] else l.plans
  {
  }

  /** Expiry: a pending payment becomes expired, any other stays as it is, and no plan
      changes. */
  lemma {:induction false} ExpiryLaw(l: Ledger, testMode: bool, e: Event, f: Faults, now: Time)
    requires Passes(l, testMode, e, f) && e.kind == CheckoutExpired && !Unfound(l, e, f)
    ensures var (l', r) := Handle(l, testMode, e, f, now);
            var p := l.payments[e.session];
            if p.status != Pending || f.write then
              l' == Noted(l, e, f) && r == if p.status == Pending then Err(WriteFailed) else Ok
            else
              && r == Ok && l'.plans == l.plans
              && l'.payments == l.payments[e.session := Payment(p.user, p.amountCents, Expired, p.plan, p.completedAt)]
  {
  }

  /** Refund: a payment in any state becomes refunded, and its user becomes free unless the
      downgrade fails, which the answer does not show. */
  lemma {:induction false} RefundLaw(l: Ledger, testMode: bool, e: Event, f: Faults, now: Time)
    requires Passes(l, testMode, e, f) && e.kind == ChargeRefunded && !Unfound(l, e, f)
    ensures var (l', r) := Handle(l, testMode, e, f, now);
            var p := l.payments[e.session];
            if f.write then l' == Noted(l, e, f) && r == Err(WriteFailed)
            else
              && r == Ok
              && l'.payments == l.payments[e.session := Payment(p.user, p.amountCents, Refunded, p.plan, p.completedAt)]
              && l'.plans == if p.user in l.plans && !f.setPlan then l.plans[p.user := "free"] else l.plans
  {
  }

  /** A deleted subscription makes its user free and touches no payment; the other events
      are only recorded. */
  lemma {:induction false} SubscriptionLaw(l: Ledger, testMode: bool, e: Event, f: Faults, now: Time)
    requires Passes(l, testMode, e, f)
    ensures var (l', r) := Handle(l, testMode, e, f, now);
            && (e.kind == SubscriptionDeleted ==>
                  && l'.payments == l.payments
                  && r == (if e.client.None? then Err(MissingId) else if f.setPlan then Err(WriteFailed) else Ok)
                  && l'.plans == if r == Ok && e.client.value in l.plans then l.plans[e.client.value := "free"]
                                 else l.plans)
            && (e.kind in {InvoicePaymentFailed, Other} ==> l' == Noted(l, e, f) && r == Ok)
  {
  }

  /** The statuses a payment goes through, told the events that reach it. */
  function Lifecycle(status: Status, kinds: seq<Kind>): Status {
    if kinds == [] then status
    else
      var before := Lifecycle(status, kinds[..|kinds|-1]);
      match kinds[|kinds|-1]
      case CheckoutCompleted => Completed
      case ChargeRefunded => Refunded
      case CheckoutExpired => if before == Pending then Expired else before
      case _ => before
  }

  /** The kinds of the events of a run that pass the record check, name this payment and
      have working statements. */
  function Signals(l: Ledger, testMode: bool, steps: seq<Step>, session: string): seq<Kind> {
    if steps == [] then []
    else
      var before, s := steps[..|steps|-1], steps[|steps|-1];
      Signals(l, testMode, before, session) +
      if Signalled(Run(l, testMode, before), testMode, s, session) then [s.event.kind] else []
  }

  predicate Signalled(l: Ledger, testMode: bool, s: Step, session: string) {
    && s.Webhook? && Passes(l, testMode, s.event, s.faults)
    && s.event.session == session != "" && !s.faults.lookup && !s.faults.write
  }

  lemma {:induction false} DispatchFollows(l: Ledger, e: Event, f: Faults, now: Time, session: string)
    requires session in l.payments
    ensures var l', reached := Dispatch(l, e, f, now).0, e.session == session != "" && !f.lookup && !f.write;
            && session in l'.payments
            && l'.payments[session].status ==
               Lifecycle(l.payments[session].status, if reached then [e.kind] else [])
  {
    assert [e.kind][..0] == [];
  }

  lemma {:induction false} StepFollowsLifecycle(l: Ledger, testMode: bool, s: Step, session: string)
    requires session in l.payments
    ensures var l' := Next(l, testMode, s);
            && session in l'.payments
            && l'.payments[session].status ==
               Lifecycle(l.payments[session].status, if Signalled(l, testMode, s, session) then [s.event.kind] else [])
  {
    if s.Webhook? {
      DispatchFollows(l, s.event, s.faults, s.now, session);
      DispatchFollows(l.(recorded := l.recorded + {s.event.id}), s.event, s.faults, s.now, session);
    }
  }

  lemma {:induction false} LifecycleSnoc(status: Status, kinds: seq<Kind>, more: seq<Kind>)
    requires |more| <= 1
    ensures Lifecycle(status, kinds + more) == Lifecycle(Lifecycle(status, kinds), more)
  {
    if more == [] {
      assert kinds + more == kinds;
    } else {
      assert (kinds + more)[..|kinds|] == kinds && more[..0] == [];
    }
  }

  /** The status of a payment is its history: over any run it is what the events that
      reached the payment make of it, in order, and nothing else counts. */
  lemma {:induction false} StatusIsItsHistory(l: Ledger, testMode: bool, steps: seq<Step>, session: string)
    requires session in l.payments
    ensures session in Run(l, testMode, steps).payments
    ensures Run(l, testMode, steps).payments[session].status ==
            Lifecycle(l.payments[session].status, Signals(l, testMode, steps, session))
    decreases |steps|
  {
    if steps != [] {
      var before, s := steps[..|steps|-1], steps[|steps|-1];
      assert before + [s] == steps;
      StatusIsItsHistory(l, testMode, before, session);
      RunSnoc(l, testMode, before, s);
      var a := Run(l, testMode, before);
      StepFollowsLifecycle(a, testMode, s, session);
      LifecycleSnoc(l.payments[session].status, Signals(l, testMode, before, session),
                    if Signalled(a, testMode, s, session) then [s.event.kind] else []);
    }
  }

  // ------------------------------------------------------------------ payment lifecycle

  /** What one step may do to a payment: identity and price are fixed, pending is never
      re-entered, and expiry only follows pending. */
  predicate Evolves(p: Payment, p': Payment) {
    && p'.user == p.user && p'.plan == p.plan && p'.amountCents == p.amountCents
    && (p.completedAt.Some? ==> p'.completedAt.Some?)
    && (p'.status == Pending ==> p.status == Pending)
    && (p'.status == Expired ==> p.status == Pending || p.status == Expired)
  }

  lemma {:induction false} DispatchEvolves(l: Ledger, e: Event, f: Faults, now: Time, session: string)
    requires session in l.payments
    ensures var l' := Dispatch(l, e, f, now).0;
            session in l'.payments && Evolves(l.payments[session], l'.payments[session])
  {
  }

  lemma {:induction false} NextEvolves(l: Ledger, testMode: bool, s: Step, session: string)
    requires session in l.payments
    ensures var l' := Next(l, testMode, s);
            session in l'.payments && Evolves(l.payments[session], l'.payments[session])
  {
    if s.Webhook? {
      DispatchEvolves(l, s.event, s.faults, s.now, session);
      DispatchEvolves(l.(recorded := l.recorded + {s.event.id}), s.event, s.faults, s.now, session);
    }
  }

  /** Over any run, whatever fails: a payment row stays, never returns to pending, and
      never goes from completed or refunded to expired. */
  lemma {:induction false} PaymentsOnlyEvolve(l: Ledger, testMode: bool, steps: seq<Step>, session: string)
    requires session in l.payments
    ensures session in Run(l, testMode, steps).payments
    ensures Evolves(l.payments[session], Run(l, testMode, steps).payments[session])
    decreases |steps|
  {
    if steps != [] {
      NextEvolves(l, testMode, steps[0], session);
      PaymentsOnlyEvolve(Next(l, testMode, steps[0]), testMode, steps[1..], session);
    }
  }

  // ------------------------------------------------------------------- webhook replays

  /** The steps that remain when redelivered, unrecordable and anonymous events are
      dropped: of each event id only the first recorded delivery. */
  function FirstDeliveries(seen: set<string>, steps: seq<Step>): seq<Step>
    decreases |steps|
  {
    if steps == [] then []
    else
      var s, rest := steps[0], steps[1..];
      if !s.Webhook? then [s] + FirstDeliveries(seen, rest)
      else if s.event.id == "" || s.faults.record || s.event.id in seen then FirstDeliveries(seen, rest)
      else [s] + FirstDeliveries(seen + {s.event.id}, rest)
  }

  /** No event id occurs twice, and none was seen before. */
  ghost predicate NoRepeats(seen: set<string>, ss: seq<Step>)
    decreases |ss|
  {
    ss != [] ==>
      if ss[0].Webhook? then ss[0].event.id !in seen && NoRepeats(seen + {ss[0].event.id}, ss[1..])
      else NoRepeats(seen, ss[1..])
  }

  lemma {:induction false} FirstDeliveriesAreDistinct(seen: set<string>, steps: seq<Step>)
    ensures NoRepeats(seen, FirstDeliveries(seen, steps))
    decreases |steps|
  {
    if steps != [] {
      var s, rest := steps[0], steps[1..];
      var isNew := s.Webhook? && s.event.id != "" && !s.faults.record && s.event.id !in seen;
      var seen' := if isNew then seen + {s.event.id} else seen;
      FirstDeliveriesAreDistinct(seen', rest);
      if isNew || !s.Webhook? {
        var kept := FirstDeliveries(seen', rest);
        assert FirstDeliveries(seen, steps) == [s] + kept;
        assert ([s] + kept)[1..] == kept;
      }
    }
  }

  /** Replay elimination in production: redeliveries leave no trace at all. */
  lemma {:induction false} ReplaysHaveNoEffect(l: Ledger, steps: seq<Step>)
    ensures Run(l, false, steps) == Run(l, false, FirstDeliveries(l.recorded, steps))
    decreases |steps|
  {
    if steps != [] {
      var s, rest := steps[0], steps[1..];
      var l' := Next(l, false, s);
      ReplaysHaveNoEffect(l', rest);
      if !(s.Webhook? && (s.event.id == "" || s.faults.record || s.event.id in l.recorded)) {
        var kept := FirstDeliveries(l'.recorded, rest);
        assert ([s] + kept)[0] == s && ([s] + kept)[1..] == kept;
        assert FirstDeliveries(l.recorded, steps) == [s] + kept;
      }
    }
  }

  /** The other side of recording first: an event whose handling failed is never handled
      again, since every later delivery is answered as already processed. */
  lemma {:induction false} RecordedEventIsNeverRetried(
    l: Ledger, id: string, steps: seq<Step>, e: Event, f: Faults, now: Time)
    requires id in l.recorded && e.id == id != "" && !f.record
    ensures var l' := Run(l, false, steps); Handle(l', false, e, f, now) == (l', Ok)
    decreases |steps|
  {
    if steps != [] {
      RecordedEventIsNeverRetried(Next(l, false, steps[0]), id, steps[1..], e, f, now);
    }
  }
}
