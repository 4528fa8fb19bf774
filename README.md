# Credit purchase and account checks of the image-generation server

This project models the user controller of an image-generation service
(`server/controllers/userController.js`): user registration and login checks,
the credits read, and the two-step credit purchase through the Razorpay
gateway — creating an unpaid transaction together with the gateway order
options, then verifying a receipt, which credits the user once and marks the
transaction paid.

The MongoDB user and transaction collections become two maps, `users` and
`transactions`, keyed by an `Id` drawn from one counter (`nextId`) that stands
for a fresh ObjectId. They are fields of the class `UserController.Store`,
whose methods update them step by step as the handlers do. Each
state-changing method's postcondition ties the new tables to a function of the
`Ledger` module (`Register`, `Pay`, `Verify`), and the properties are proved
about those functions:

- `Email`: ECMAScript `trim` and `toLowerCase` as used for the login key.
- `Plans`: the fixed plan table and the conversion to minor currency units.
- `Ledger`: the record types, the three state transitions, and the ledger
  invariant. `Balanced(s, base)` says that every user's balance equals the
  sign-up balance plus the credits of that user's paid transactions, with each
  transaction counted once. It holds after any sequence of handler calls
  (`RunKeeps`, `FromEmpty`), and no payment flag ever goes from paid back to
  unpaid (`Evolves`). So credits are applied at most once per transaction,
  however often a receipt is verified.
- `UserController`: the handlers as methods of `Store`.

Request fields are modelled per handler. Where a handler only tests a string
field for falsiness (`registerUser`'s name, email and password, the payment's
`planId`), an absent field and an empty one behave alike and are both `""`.
Where an absent string field fails differently from an empty one (login's
`email`, whose `trim` throws, and login's `password`, which bcrypt's compare
rejects), it is an `Option` and absence is `None`. An absent id is `None`.
The parameters stand for the library
calls: the password hash (bcrypt with its salt), bcrypt's compare, JWT signing
(`sign`), `Date.now()` (`now`), the configured currency, and the gateway's
`orders.create` (`gateway`). Errors are `Err(message)` with the handler's
message string. Where the handler would throw a `TypeError`, the message is
V8's wording for it.

Details the model takes from the code: transactions store `plan` as the
string `planId`, not as an enumeration. A user whose `creditBalance` is absent counts as 0 (`|| 0`).
Registration stores the email exactly as given, while login looks it up
trimmed and lower-cased.

## Model

| member | source | states |
|---|---|---|
| Email.LeadingSpace | server/controllers/userController.js:36 | the number of whitespace characters `trim` removes at the front: every character before it is whitespace and the one at it is not |
| Email.TrailingSpace | server/controllers/userController.js:36 | the same count at the back of the string |
| Email.Trim | server/controllers/userController.js:36 | neither end of the trimmed string is whitespace |
| Email.TrimFactor | server/controllers/userController.js:36 | the trimmed string is the factor that starts where the leading whitespace ends, with only whitespace before and after it |
| Email.Normalise | server/controllers/userController.js:36 | the login key contains no upper-case ASCII letter and has no leading or trailing whitespace |
| Email.TrimStartAppend | server/controllers/userController.js:36 | trimming the front of `s + q` removes all of `s` and continues into `q` exactly when `s` is all whitespace, otherwise it leaves `q` intact |
| Email.TrimEndPrepend | server/controllers/userController.js:36 | the mirror statement for trimming the back of `p + s` |
| Email.TrimIgnoresPadding | server/controllers/userController.js:36 | surrounding whitespace does not change what `trim` returns |
| Email.SpaceCountsLower | server/controllers/userController.js:36 | lower-casing keeps the leading and trailing whitespace counts |
| Email.TrimStartLower | server/controllers/userController.js:36 | lower-casing commutes with trimming the front |
| Email.TrimEndLower | server/controllers/userController.js:36 | lower-casing commutes with trimming the back |
| Email.NormaliseLowerFirst | server/controllers/userController.js:36 | trim-then-lower-case equals lower-case-then-trim |
| Email.SameLookupKey | server/controllers/userController.js:36 | two login emails that differ only in surrounding whitespace and letter case give the same lookup key, so they find the same user |
| Email.NormaliseIdempotent | server/controllers/userController.js:36 | normalising a normalised key changes nothing |
| Plans.PlanOf | server/controllers/userController.js:93-114 | exactly "Basic", "Advanced" and "Business" are accepted, and the accepted plan's name is `planId` (so the stored `plan` equals `planId`); anything else selects no plan |
| Plans.PlanOfName | server/controllers/userController.js:93-110 | each plan is selected by its own name |
| Plans.PriceList | server/controllers/userController.js:93-110 | Basic gives 100 credits for 10, Advanced 500 for 50, Business 5000 for 250 |
| Plans.MinorUnits | server/controllers/userController.js:131 | the order amount is a multiple of 100 whose quotient by 100 is the plan price |
| Ledger.RegisterRejectsMissing | server/controllers/userController.js:10-12 | an empty name, email or password answers 'Missing Details' and leaves both tables unchanged |
| Ledger.RegisterAddsUser | server/controllers/userController.js:13-20 | a valid registration adds exactly one user under a fresh id with the hashed password and the default balance, and no transaction |
| Ledger.RegisterBalanced | server/controllers/userController.js:16-20 | registration keeps the store well formed and the ledger balanced; a new user's balance is the sign-up balance |
| Ledger.PayRejects | server/controllers/userController.js:81-113 | missing userId or planId answers 'Missing Details', an unknown user 'User not found', an unknown plan 'Invalid plan selected', checked in that order; no table changes |
| Ledger.PayRecordsTransaction | server/controllers/userController.js:116-139 | an accepted request adds exactly one unpaid transaction under a fresh id with `plan == planId` and the plan's credits and price; the order options carry 100 times the price and the new id as receipt; a gateway failure is reported but the transaction stays |
| Ledger.InsertUnpaidBalanced | server/controllers/userController.js:118-127 | inserting an unpaid transaction for a stored user changes no balance and no paid total, and keeps the store well formed |
| Ledger.PayBalanced | server/controllers/userController.js:116-127 | creating a transaction changes no balance and no paid total, and keeps the store well formed |
| Ledger.VerifyRejects | server/controllers/userController.js:152-159 | an unknown receipt answers 'Transaction not found', a paid one 'Payment already completed'; neither changes anything |
| Ledger.VerifyCredits | server/controllers/userController.js:161-167 | verifying an unpaid transaction sets its owner's balance to the old balance (absent counts as 0) plus its credits and marks it paid; every other user and transaction is unchanged |
| Ledger.VerifySecondIsNoOp | server/controllers/userController.js:157-165 | a second verify of the same receipt changes nothing and, after a successful first, answers 'Payment already completed' |
| Ledger.PaidBelowMarkPaid | server/controllers/userController.js:164-165 | marking one unpaid transaction paid adds its credits to its owner's paid total once and to no other user's |
| Ledger.VerifyBalanced | server/controllers/userController.js:161-165 | a verify keeps every balance equal to the sign-up balance plus that user's paid credits |
| Ledger.EvolvesTransitive | server/controllers/userController.js:157-165 | "payment flags only go from unpaid to paid, other fields never change" composes over successive calls |
| Ledger.ApplyKeeps | server/controllers/userController.js:7-173 | each state-changing handler keeps the store well formed and balanced, and never clears a payment flag |
| Ledger.RunKeeps | server/controllers/userController.js:147-173 | over any sequence of handler calls the ledger stays balanced and no payment flag is cleared: credits are applied at most once per transaction |
| Ledger.FromEmpty | server/controllers/userController.js:7-173 | from empty tables, every reachable balance is the sign-up balance plus the user's paid credits |
| UserController.Store.RegisterUser | server/controllers/userController.js:7-30 | validates, then inserts the user with the hashed password and returns the signed token and the name; the new tables are those of `Ledger.Register`, and the store stays well formed and balanced |
| UserController.Store.LoginUser | server/controllers/userController.js:32-59 | no email gives the `trim` TypeError; an unregistered normalised email gives 'User does not exist'; a found user with no password gives bcrypt's 'data and hash arguments required'; otherwise a token for a user with that email whose password matches, or 'Invalid Credentials' for one whose password does not; nothing is written |
| UserController.Store.UserCredits | server/controllers/userController.js:61-70 | succeeds exactly when the user exists, returning its stored balance and name unchanged; otherwise the null-dereference error |
| UserController.Store.PaymentRazorpay | server/controllers/userController.js:77-145 | the checks, the transaction insert and the gateway call in the handler's order; the result and new tables are those of `Ledger.Pay`, users are untouched, and the store stays well formed and balanced |
| UserController.Store.VerifyRazorpay | server/controllers/userController.js:147-173 | looks up the receipt, refuses missing or paid ones, then writes the balance and the payment flag in two steps; the result and new tables are those of `Ledger.Verify`, a refusal changes nothing, and the store stays well formed and balanced |

## Left out

- Password hashing, salting and comparison (bcrypt) and token signing (JWT) are function parameters with no properties.
- The gateway client's construction from the environment and the network call `orders.create` are left out; the call is a function parameter that answers an order id or an error.
- MongoDB persistence, schema validation and schema defaults are not modelled. The default balance of a new user is a constructor parameter. A unique index on email, and any schema-level lower-casing of emails, are not modelled either. Malformed id strings, which would raise cast errors, cannot occur because ids are numbers.
- The HTTP plumbing, console logging and the catch-all conversion of thrown errors are left out. A thrown error is an `Err` carrying its message.
- Concurrency and durability are left out: the race between two simultaneous verifies of one receipt, and a crash between the two writes of a verify. Each handler call is atomic in the model.
- The order id `razorpay_order_id` that the verify handler reads is never used by it, so the model's verify takes only the receipt. The handler checks no payment signature, and neither does the model.
- Email.LowerChar: maps only the ASCII letters, where `toLowerCase` applies full Unicode case mapping.
- Email.IsTrimmable: works on Unicode scalar values, where JavaScript strings are UTF-16 code units. For the BMP characters that `trim` removes, the two agree.
- Credits are unbounded integers; JavaScript's double-precision limit of 2^53 is not modelled.
- Credits spent elsewhere in the service (image generation) are outside this controller, so the ledger invariant covers only this controller's handlers.
- UserController.Store.LoginUser: request fields that are JSON `null` or not strings (a number, an object) are not modelled; an email or password is either a string or absent.
- UserController.Store.LoginUser: when several users share the normalised email, the model picks any of them, while MongoDB's `findOne` returns the first in its natural order.
- The React client (`client/src/App.jsx`) is routing and presentation only.
