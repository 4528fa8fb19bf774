/** The user and transaction tables as one value, the effect of each
    state-changing handler of the user controller on them, and the credit
    ledger those effects keep: every credit on a balance beyond the sign-up
    balance comes from exactly one paid transaction of that user. */
module Ledger {
  import opened Wrappers
  import opened Plans

  /** Stands for a MongoDB ObjectId; users and transactions draw ids from one
      counter, so an id is never reused. */
  type Id = nat

  /** A user document; `creditBalance` may be absent, which the handlers read
      as 0. */
  datatype User = User(name: string, email: string, password: string, creditBalance: Option<nat>)

  /** A transaction document, created unpaid by `paymentRazorpay`. */
  datatype Transaction = Transaction(userId: Id, plan: string, amount: nat, credits: nat, date: int, payment: bool)

  /** The options object handed to the gateway's `orders.create`. */
  datatype OrderOptions = OrderOptions(amount: nat, currency: string, receipt: Id)

  /** What the gateway's `orders.create` answers: an order id, or a thrown error. */
  datatype GatewayReply = Created(orderId: string) | Failed(error: string)

  /** The order returned to the client. */
  datatype Order = Order(id: string, options: OrderOptions)

  datatype Tables = Tables(users: map<Id, User>, transactions: map<Id, Transaction>, nextId: nat)

  const MissingDetails := "Missing Details"
  const UserNotFound := "User not found"
  const InvalidPlan := "Invalid plan selected"
  const TransactionNotFound := "Transaction not found"
  const PaymentAlreadyCompleted := "Payment already completed"
  const CreditsAdded := "Credits Added"
  /** The TypeError thrown by reading `creditBalance` of a user that is not found. */
  const NullCreditBalance := "Cannot read properties of null (reading 'creditBalance')"

  const Empty := Tables(map[], map[], 0)

  /** Every id is below the counter, and every transaction belongs to a user. */
  predicate WellFormed(s: Tables)
  {
    && (forall id :: id in s.users ==> id < s.nextId)
    && (forall id :: id in s.transactions ==> id < s.nextId && s.transactions[id].userId in s.users)
  }

  /** `userData.creditBalance || 0`. */
  function Balance(u: User): nat
  {
    match u.creditBalance
    case Some(b) => b
    case None => 0
  }

  /** The `!name || !email || !password` guard; an absent field is "" here. */
  predicate MissingField(name: string, email: string, password: string)
  {
    name == "" || email == "" || password == ""
  }

  /** `registerUser` after validation: a new user with the hashed password and
      the schema's default balance. Returns the new user's id. */
  function Register(s: Tables, name: string, email: string, password: string, hashed: string,
                    defaultCredits: Option<nat>): (Result<Id>, Tables)
  {
    if MissingField(name, email, password) then (Err(MissingDetails), s)
    else
      var id := s.nextId;
      (Ok(id), s.(users := s.users[id := User(name, email, hashed, defaultCredits)], nextId := id + 1))
  }

  /** `transactionModel.create`: stores `t` under a fresh id. */
  function Insert(s: Tables, t: Transaction): Tables
  {
    s.(transactions := s.transactions[s.nextId := t], nextId := s.nextId + 1)
  }

  /** `paymentRazorpay`: checks in the handler's order, inserts the unpaid
      transaction, then asks the gateway. A gateway failure is reported after
      the transaction has been inserted, and the transaction stays. */
  function Pay(s: Tables, userId: Option<Id>, planId: string, currency: string, now: int,
               gateway: OrderOptions -> GatewayReply): (Result<Order>, Tables)
  {
    if userId.None? || planId == "" then (Err(MissingDetails), s)
    else if userId.value !in s.users then (Err(UserNotFound), s)
    else match PlanOf(planId)
      case None => (Err(InvalidPlan), s)
      case Some(p) =>
        var id := s.nextId;
        var t := Transaction(userId.value, Name(p), Amount(p), Credits(p), now, false);
        var s' := Insert(s, t);
        var options := OrderOptions(MinorUnits(Amount(p)), currency, id);
        match gateway(options)
        case Created(orderId) => (Ok(Order(orderId, options)), s')
        case Failed(e) => (Err(e), s')
  }

  /** `verifyRazorpay`: refuses an unknown or already paid receipt; otherwise
      writes the owner's new balance, then marks the transaction paid. */
  function Verify(s: Tables, receipt: Option<Id>): (Result<string>, Tables)
  {
    if receipt.None? || receipt.value !in s.transactions then (Err(TransactionNotFound), s)
    else
      var t := s.transactions[receipt.value];
      if t.payment then (Err(PaymentAlreadyCompleted), s)
      else if t.userId !in s.users then (Err(NullCreditBalance), s)
      else
        var user := s.users[t.userId];
        var creditBalance := Balance(user) + t.credits;
        var s1 := s.(users := s.users[t.userId := user.(creditBalance := Some(creditBalance))]);
        var s2 := s1.(transactions := s1.transactions[receipt.value := t.(payment := true)]);
        (Ok(CreditsAdded), s2)
  }

  // ---------------------------------------------------------------------------
  // The ledger: credits of paid transactions, per user.

  function Contribution(txs: map<Id, Transaction>, u: Id, k: Id): nat
  {
    if k in txs && txs[k].userId == u && txs[k].payment then txs[k].credits else 0
  }

  /** Sum of the credits of `u`'s paid transactions with ids below `n`; each
      transaction is counted once. */
  function PaidBelow(txs: map<Id, Transaction>, u: Id, n: nat): nat
  {
    if n == 0 then 0 else PaidBelow(txs, u, n - 1) + Contribution(txs, u, n - 1)
  }

  function PaidCredits(s: Tables, u: Id): nat
  {
    PaidBelow(s.transactions, u, s.nextId)
  }

  /** Every balance is the sign-up balance plus the credits of the user's paid
      transactions. */
  predicate Balanced(s: Tables, base: nat)
  {
    forall u :: u in s.users ==> Balance(s.users[u]) == base + PaidCredits(s, u)
  }

  /** The balance a new user starts with, read as `Balance` reads it. */
  function SignUpBalance(defaultCredits: Option<nat>): nat
  {
    match defaultCredits
    case Some(b) => b
    case None => 0
  }

  lemma {:induction false} PaidBelowFrame(txs: map<Id, Transaction>, txs': map<Id, Transaction>, u: Id, n: nat)
    requires forall k :: 0 <= k < n ==> Contribution(txs, u, k) == Contribution(txs', u, k)
    ensures PaidBelow(txs, u, n) == PaidBelow(txs', u, n)
  {
    if n > 0 {
      PaidBelowFrame(txs, txs', u, n - 1);
    }
  }

  lemma {:induction false} PaidBelowNone(txs: map<Id, Transaction>, u: Id, n: nat)
    requires forall k :: k in txs ==> txs[k].userId != u
    ensures PaidBelow(txs, u, n) == 0
  {
    if n > 0 {
      PaidBelowNone(txs, u, n - 1);
    }
  }

  /** Marking one unpaid transaction paid adds its credits to its owner's
      paid total, once, and to no one else's. */
  lemma {:induction false} PaidBelowMarkPaid(txs: map<Id, Transaction>, u: Id, n: nat, k: Id)
    requires k < n && k in txs && !txs[k].payment
    ensures PaidBelow(txs[k := txs[k].(payment := true)], u, n)
         == PaidBelow(txs, u, n) + (if txs[k].userId == u then txs[k].credits else 0)
  {
    var txs' := txs[k := txs[k].(payment := true)];
    if n - 1 == k {
      PaidBelowFrame(txs, txs', u, n - 1);
    } else {
      PaidBelowMarkPaid(txs, u, n - 1, k);
    }
  }

  /** A transaction changes only in its payment flag, and only from unpaid to
      paid; users keep their name, email and password; nothing is deleted. */
  predicate Evolves(s: Tables, s': Tables)
  {
    && s.nextId <= s'.nextId
    && (forall u :: u in s.users ==>
          (u in s'.users && s'.users[u].(creditBalance := s.users[u].creditBalance) == s.users[u]))
    && (forall k :: k in s.transactions ==>
          (&& k in s'.transactions
           && s'.transactions[k].(payment := s.transactions[k].payment) == s.transactions[k]
           && (s.transactions[k].payment ==> s'.transactions[k].payment)))
  }

  // ---------------------------------------------------------------------------
  // registerUser

  /** Registration with an empty name, email or password answers 'Missing
      Details' and adds no user. */
  lemma RegisterRejectsMissing(s: Tables, name: string, email: string, password: string, hashed: string,
                               defaultCredits: Option<nat>)
    requires MissingField(name, email, password)
    ensures Register(s, name, email, password, hashed, defaultCredits) == (Err(MissingDetails), s)
  {
  }

  /** Registration otherwise adds exactly one user, under a fresh id, holding
      the hashed password, and touches no transaction. */
  lemma RegisterAddsUser(s: Tables, name: string, email: string, password: string, hashed: string,
                         defaultCredits: Option<nat>)
    requires WellFormed(s) && !MissingField(name, email, password)
    ensures var (r, s') := Register(s, name, email, password, hashed, defaultCredits);
      && r == Ok(s.nextId) && s.nextId !in s.users
      && s'.users == s.users[s.nextId := User(name, email, hashed, defaultCredits)]
      && |s'.users| == |s.users| + 1
      && s'.transactions == s.transactions
      && WellFormed(s')
  {
  }

  lemma RegisterBalanced(s: Tables, name: string, email: string, password: string, hashed: string,
                         defaultCredits: Option<nat>)
    requires WellFormed(s) && Balanced(s, SignUpBalance(defaultCredits))
    ensures var s' := Register(s, name, email, password, hashed, defaultCredits).1;
      WellFormed(s') && Balanced(s', SignUpBalance(defaultCredits)) && Evolves(s, s')
  {
    var s' := Register(s, name, email, password, hashed, defaultCredits).1;
    if !MissingField(name, email, password) {
      var id := s.nextId;
      forall u | u in s'.users
        ensures Balance(s'.users[u]) == SignUpBalance(defaultCredits) + PaidCredits(s', u)
      {
        assert id !in s.transactions;
        assert PaidCredits(s', u) == PaidCredits(s, u) + Contribution(s.transactions, u, id);
        if u == id {
          PaidBelowNone(s.transactions, u, s.nextId);
        }
      }
    }
  }

  // ---------------------------------------------------------------------------
  // paymentRazorpay

  /** The three refusals of `paymentRazorpay`, in the handler's order; none of
      them changes either table. */
  lemma PayRejects(s: Tables, userId: Option<Id>, planId: string, currency: string, now: int,
                   gateway: OrderOptions -> GatewayReply)
    ensures var out := Pay(s, userId, planId, currency, now, gateway);
      && (userId.None? || planId == "" ==> out == (Err(MissingDetails), s))
      && (userId.Some? && planId != "" && userId.value !in s.users ==> out == (Err(UserNotFound), s))
      && ((userId.Some? && planId != "" && userId.value in s.users && PlanOf(planId).None?)
          ==> out == (Err(InvalidPlan), s))
  {
  }

  /** An accepted order request adds exactly one transaction, unpaid, under a
      fresh id, with the plan's credits and price and `plan == planId`; the
      order asks for the price times 100 with the new id as receipt. */
  lemma PayRecordsTransaction(s: Tables, userId: Id, planId: string, currency: string, now: int,
                              gateway: OrderOptions -> GatewayReply, p: Plan)
    requires WellFormed(s) && userId in s.users && PlanOf(planId) == Some(p)
    ensures var (r, s') := Pay(s, Some(userId), planId, currency, now, gateway);
      var options := OrderOptions(100 * Amount(p), currency, s.nextId);
      && s.nextId !in s.transactions
      && s'.transactions == s.transactions[s.nextId := Transaction(userId, planId, Amount(p), Credits(p), now, false)]
      && |s'.transactions| == |s.transactions| + 1
      && s'.users == s.users
      && WellFormed(s')
      && (gateway(options).Created? ==> r == Ok(Order(gateway(options).orderId, options)))
      && (gateway(options).Failed? ==> r == Err(gateway(options).error))
  {
  }

  /** Inserting an unpaid transaction changes no balance and no paid total. */
  lemma InsertUnpaidBalanced(s: Tables, t: Transaction, base: nat)
    requires WellFormed(s) && Balanced(s, base) && t.userId in s.users && !t.payment
    ensures var s' := Insert(s, t); WellFormed(s') && Balanced(s', base) && Evolves(s, s')
  {
    var s' := Insert(s, t);
    forall u | u in s'.users
      ensures Balance(s'.users[u]) == base + PaidCredits(s', u)
    {
      PaidBelowFrame(s.transactions, s'.transactions, u, s.nextId);
    }
  }

  lemma PayBalanced(s: Tables, userId: Option<Id>, planId: string, currency: string, now: int,
                    gateway: OrderOptions -> GatewayReply, base: nat)
    requires WellFormed(s) && Balanced(s, base)
    ensures var s' := Pay(s, userId, planId, currency, now, gateway).1;
      WellFormed(s') && Balanced(s', base) && Evolves(s, s')
  {
    if userId.Some? && planId != "" && userId.value in s.users && PlanOf(planId).Some? {
      var p := PlanOf(planId).value;
      InsertUnpaidBalanced(s, Transaction(userId.value, Name(p), Amount(p), Credits(p), now, false), base);
    }
  }

  // ---------------------------------------------------------------------------
  // verifyRazorpay

  /** An unknown receipt answers 'Transaction not found'; a paid one answers
      'Payment already completed'; neither changes anything. */
  lemma VerifyRejects(s: Tables, receipt: Option<Id>)
    ensures receipt.None? || receipt.value !in s.transactions ==> Verify(s, receipt) == (Err(TransactionNotFound), s)
    ensures receipt.Some? && receipt.value in s.transactions && s.transactions[receipt.value].payment
      ==> Verify(s, receipt) == (Err(PaymentAlreadyCompleted), s)
  {
  }

  /** A successful verification adds the transaction's credits to its owner's
      old balance (absent counts as 0), marks it paid, and changes no other
      user and no other transaction. In a well-formed store the owner is
      always found, so an unpaid receipt always succeeds. */
  lemma VerifyCredits(s: Tables, k: Id)
    requires WellFormed(s) && k in s.transactions && !s.transactions[k].payment
    ensures var (r, s') := Verify(s, Some(k));
      var t := s.transactions[k];
      && r == Ok(CreditsAdded)
      && s'.users.Keys == s.users.Keys
      && Balance(s'.users[t.userId]) == Balance(s.users[t.userId]) + t.credits
      && s'.users[t.userId] == s.users[t.userId].(creditBalance := Some(Balance(s.users[t.userId]) + t.credits))
      && (forall u :: u in s.users && u != t.userId ==> s'.users[u] == s.users[u])
      && s'.transactions == s.transactions[k := t.(payment := true)]
      && s'.nextId == s.nextId
      && WellFormed(s')
  {
  }

  /** Verifying the same receipt a second time changes nothing, and when the
      first call credited the user the second answers 'Payment already
      completed'. */
  lemma VerifySecondIsNoOp(s: Tables, receipt: Option<Id>)
    ensures var (r1, s1) := Verify(s, receipt);
      && Verify(s1, receipt).1 == s1
      && (r1.Ok? ==> Verify(s1, receipt).0 == Err(PaymentAlreadyCompleted))
  {
  }

  lemma VerifyBalanced(s: Tables, receipt: Option<Id>, base: nat)
    requires WellFormed(s) && Balanced(s, base)
    ensures var s' := Verify(s, receipt).1;
      WellFormed(s') && Balanced(s', base) && Evolves(s, s')
  {
    var (r, s') := Verify(s, receipt);
    if r.Ok? {
      var k := receipt.value;
      var t := s.transactions[k];
      forall u | u in s'.users
        ensures Balance(s'.users[u]) == base + PaidCredits(s', u)
      {
        PaidBelowMarkPaid(s.transactions, u, s.nextId, k);
      }
    }
  }

  // ---------------------------------------------------------------------------
  // Histories

  lemma EvolvesTransitive(s1: Tables, s2: Tables, s3: Tables)
    requires Evolves(s1, s2) && Evolves(s2, s3)
    ensures Evolves(s1, s3)
  {
  }

  /** One handler call on the tables. */
  datatype Request =
    | RegisterRequest(name: string, email: string, password: string, hashed: string)
    | PaymentRequest(userId: Option<Id>, planId: string, currency: string, now: int,
                     gateway: OrderOptions -> GatewayReply)
    | VerifyRequest(receipt: Option<Id>)

  function Apply(s: Tables, req: Request, defaultCredits: Option<nat>): Tables
  {
    match req
    case RegisterRequest(name, email, password, hashed) => Register(s, name, email, password, hashed, defaultCredits).1
    case PaymentRequest(userId, planId, currency, now, gateway) => Pay(s, userId, planId, currency, now, gateway).1
    case VerifyRequest(receipt) => Verify(s, receipt).1
  }

  function Run(s: Tables, reqs: seq<Request>, defaultCredits: Option<nat>): Tables
    decreases |reqs|
  {
    if |reqs| == 0 then s else Run(Apply(s, reqs[0], defaultCredits), reqs[1..], defaultCredits)
  }

  lemma ApplyKeeps(s: Tables, req: Request, defaultCredits: Option<nat>)
    requires WellFormed(s) && Balanced(s, SignUpBalance(defaultCredits))
    ensures var s' := Apply(s, req, defaultCredits);
      WellFormed(s') && Balanced(s', SignUpBalance(defaultCredits)) && Evolves(s, s')
  {
    match req
    case RegisterRequest(name, email, password, hashed) =>
      RegisterBalanced(s, name, email, password, hashed, defaultCredits);
    case PaymentRequest(userId, planId, currency, now, gateway) =>
      PayBalanced(s, userId, planId, currency, now, gateway, SignUpBalance(defaultCredits));
    case VerifyRequest(receipt) =>
      VerifyBalanced(s, receipt, SignUpBalance(defaultCredits));
  }

  /** Over any sequence of handler calls the store stays well formed, no
      payment flag is ever cleared, and every balance equals the sign-up
      balance plus the credits of that user's paid transactions, each paid
      transaction counted once: credits are applied at most once per
      transaction, whatever is retried. */
  lemma {:induction false} RunKeeps(s: Tables, reqs: seq<Request>, defaultCredits: Option<nat>)
    requires WellFormed(s) && Balanced(s, SignUpBalance(defaultCredits))
    ensures var s' := Run(s, reqs, defaultCredits);
      WellFormed(s') && Balanced(s', SignUpBalance(defaultCredits)) && Evolves(s, s')
    decreases |reqs|
  {
    if |reqs| > 0 {
      var s1 := Apply(s, reqs[0], defaultCredits);
      ApplyKeeps(s, reqs[0], defaultCredits);
      RunKeeps(s1, reqs[1..], defaultCredits);
      EvolvesTransitive(s, s1, Run(s1, reqs[1..], defaultCredits));
    }
  }

  /** From the empty store, every history leaves each balance equal to the
      sign-up balance plus that user's paid credits. */
  lemma FromEmpty(reqs: seq<Request>, defaultCredits: Option<nat>)
    ensures var s := Run(Empty, reqs, defaultCredits);
      WellFormed(s) && Balanced(s, SignUpBalance(defaultCredits))
  {
    RunKeeps(Empty, reqs, defaultCredits);
  }
}
