/** The handlers of the user controller as methods of a store object holding
    the two tables. Each state-changing handler updates the maps step by step
    as the handler does, and its postcondition ties the new tables to the
    corresponding function of the Ledger module, about which the properties
    are proved. */
module UserController {
  import opened Wrappers
  import opened Plans
  import opened Email
  import opened Ledger

  /** `{success: true, token, user: {name}}` of register and login. */
  datatype AuthReply = AuthReply(token: string, name: string)

  /** `{success: true, credits, user: {name}}` of the credits read. */
  datatype CreditsReply = CreditsReply(credits: Option<nat>, name: string)

  const UserDoesNotExist := "User does not exist"
  const InvalidCredentials := "Invalid Credentials"
  /** The TypeError thrown by `email.trim()` when the request has no email. */
  const UndefinedTrim := "Cannot read properties of undefined (reading 'trim')"
  /** bcrypt's rejection of `compare` called without a password. */
  const MissingCompareArguments := "data and hash arguments required"

  /** `findOne({email: key})` finds someone. */
  predicate Registered(users: map<Id, User>, key: string)
  {
    exists id :: id in users && users[id].email == key
  }

  class Store {
    var users: map<Id, User>
    var transactions: map<Id, Transaction>
    var nextId: nat
    /** The balance the user schema gives a new user, if any. */
    const defaultCredits: Option<nat>

    function State(): Tables
      reads this
    {
      Tables(users, transactions, nextId)
    }

    /** The tables are well formed and every balance is the sign-up balance
        plus the credits of the user's paid transactions. */
    ghost predicate Valid()
      reads this
    {
      WellFormed(State()) && Balanced(State(), SignUpBalance(defaultCredits))
    }

    constructor (defaultCredits: Option<nat>)
      ensures Valid() && State() == Empty && this.defaultCredits == defaultCredits
    {
      users, transactions, nextId := map[], map[], 0;
      this.defaultCredits := defaultCredits;
    }

    /** `registerUser`: `hash` is bcrypt with the generated `salt`, `sign` is
        the JWT signing with the server's secret. */
    method RegisterUser(name: string, email: string, password: string, salt: string,
                        hash: (string, string) -> string, sign: Id -> string) returns (r: Result<AuthReply>)
      requires Valid()
      modifies this
      ensures Valid()
      ensures var (res, s') := Register(old(State()), name, email, password, hash(password, salt), defaultCredits);
        && State() == s'
        && r == (if res.Ok? then Ok(AuthReply(sign(res.value), name)) else Err(res.message))
      ensures MissingField(name, email, password) ==> r == Err(MissingDetails) && State() == old(State())
    {
      if MissingField(name, email, password) {
        return Err(MissingDetails);
      }
      var hashed := hash(password, salt);
      RegisterBalanced(State(), name, email, password, hashed, defaultCredits);
      var id := nextId;
      users := users[id := User(name, email, hashed, defaultCredits)];
      nextId := nextId + 1;
      r := Ok(AuthReply(sign(id), name));
    }

    /** `loginUser`: looks the user up by the normalised email; `matches` is
        bcrypt's compare, which rejects an absent password. Nothing is
        written. */
    method LoginUser(email: Option<string>, password: Option<string>, matches: (string, string) -> bool,
                     sign: Id -> string) returns (r: Result<AuthReply>)
      ensures email.None? ==> r == Err(UndefinedTrim)
      ensures email.Some? && !Registered(users, Normalise(email.value)) ==> r == Err(UserDoesNotExist)
      ensures email.Some? && Registered(users, Normalise(email.value)) && password.None?
        ==> r == Err(MissingCompareArguments)
      ensures email.Some? && Registered(users, Normalise(email.value)) && password.Some?
        ==> r.Ok? || r == Err(InvalidCredentials)
      ensures email.Some? && password.Some? && r.Ok? ==>
        exists id :: id in users && users[id].email == Normalise(email.value)
                  && matches(password.value, users[id].password) && r.value == AuthReply(sign(id), users[id].name)
      ensures email.Some? && password.Some? && r == Err(InvalidCredentials) ==>
        exists id :: id in users && users[id].email == Normalise(email.value)
                  && !matches(password.value, users[id].password)
    {
      if email.None? {
        return Err(UndefinedTrim);
      }
      var key := Normalise(email.value);
      if !Registered(users, key) {
        return Err(UserDoesNotExist);
      }
      var id :| id in users && users[id].email == key;
      if password.None? {
        return Err(MissingCompareArguments);
      }
      if matches(password.value, users[id].password) {
        r := Ok(AuthReply(sign(id), users[id].name));
      } else {
        r := Err(InvalidCredentials);
      }
    }

    /** `userCredits`: a read. A user that is not found makes the handler
        dereference null, which it reports as an error. */
    method UserCredits(userId: Option<Id>) returns (r: Result<CreditsReply>)
      ensures r.Ok? <==> userId.Some? && userId.value in users
      ensures r.Ok? ==> r.value == CreditsReply(users[userId.value].creditBalance, users[userId.value].name)
      ensures r.Err? ==> r.message == NullCreditBalance
    {
      if userId.None? || userId.value !in users {
        return Err(NullCreditBalance);
      }
      var user := users[userId.value];
      r := Ok(CreditsReply(user.creditBalance, user.name));
    }

    /** `paymentRazorpay`: `now` is `Date.now()`, `currency` the configured
        currency, `gateway` the gateway's `orders.create`. */
    method PaymentRazorpay(userId: Option<Id>, planId: string, currency: string, now: int,
                           gateway: OrderOptions -> GatewayReply) returns (r: Result<Order>)
      requires Valid()
      modifies this
      ensures Valid()
      ensures (r, State()) == Pay(old(State()), userId, planId, currency, now, gateway)
      ensures users == old(users)
    {
      PayBalanced(State(), userId, planId, currency, now, gateway, SignUpBalance(defaultCredits));
      if userId.None? || planId == "" {
        return Err(MissingDetails);
      }
      if userId.value !in users {
        return Err(UserNotFound);
      }
      var plan, credits, amount;
      match PlanOf(planId) {
        case None =>
          return Err(InvalidPlan);
        case Some(p) =>
          plan, credits, amount := Name(p), Credits(p), Amount(p);
      }
      var id := nextId;
      transactions := transactions[id := Transaction(userId.value, plan, amount, credits, now, false)];
      nextId := nextId + 1;
      var options := OrderOptions(MinorUnits(amount), currency, id);
      match gateway(options) {
        case Created(orderId) =>
          r := Ok(Order(orderId, options));
        case Failed(e) =>
          r := Err(e);
      }
    }

    /** `verifyRazorpay`: the balance write and the payment-flag write are two
        successive updates, as in the handler. The owner of a stored
        transaction is always a stored user here, so the handler's null
        dereference of a missing owner cannot arise. */
    method VerifyRazorpay(receipt: Option<Id>) returns (r: Result<string>)
      requires Valid()
      modifies this
      ensures Valid()
      ensures (r, State()) == Verify(old(State()), receipt)
      ensures r.Err? ==> State() == old(State())
    {
      VerifyBalanced(State(), receipt, SignUpBalance(defaultCredits));
      if receipt.None? || receipt.value !in transactions {
        return Err(TransactionNotFound);
      }
      var transactionData := transactions[receipt.value];
      if transactionData.payment {
        return Err(PaymentAlreadyCompleted);
      }
      var userData := users[transactionData.userId];
      var creditBalance := Balance(userData) + transactionData.credits;
      users := users[transactionData.userId := userData.(creditBalance := Some(creditBalance))];
      transactions := transactions[receipt.value := transactionData.(payment := true)];
      r := Ok(CreditsAdded);
    }
  }
}
