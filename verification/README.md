# Venmo-style ledger, modelled in Dafny

This project models the ledger behind a small peer-to-peer payment backend
(a Flask application over sqlite) as a pure state machine. A `Ledger` holds
three tables as immutable values: users (name, username, balance, an opaque
password hash, email), transactions (timestamp, sender, receiver, amount,
message and the tri-state `accepted` column, written `Pending` / `Accepted` /
`Declined` for NULL / true / false) and friend edges. Every storage method of
the `DB` class is one atomic transition, and the handlers that change the
ledger (`create_transaction`, `respond_to_transaction`, `delete_user`,
`create_friendship`) are functions returning a reply and the next ledger.
HTTP statuses become tags of `Failure`; uncaught Python exceptions (reading a
field of `None`, sqlite's foreign-key refusal) become `Unhandled(fault)`,
which Flask answers with status 500.

Modules, following the program's structure:

- `Types` (`types.dfy`): the rows, the ledger, referential integrity
  (`Consistent`), symmetry of friendship, sqlite's rule for new row ids
  (`NextId`) and the sum of all balances (`Total`).
- `Store` (`store.dfy`): the storage methods of `src/db.py`.
- `App` (`app.py` logic, `app.dfy`): the handlers' decisions and their
  properties (conservation, terminal states, the gaps the code leaves open).
- `Traces` (`traces.dfy`): arbitrary runs of handler calls; invariants and
  conservation along every run.
- `Scenarios` (`scenarios.dfy`): concrete two-user runs.

Behaviour is modelled as the code has it, including where it differs from
what a payment ledger would be expected to do:

- A transfer whose sender is also its receiver creates `amount`: both new
  balances are computed from one read, and the receiver's write lands last
  (`SelfTransferMints`, `SelfPaymentMints`).
- A transaction created with `accepted = false` moves the money just as a
  payment does, although a declined transaction would be expected to move
  none; only a `None` creation defers the transfer. The model follows the code
  (`DeclinedCreationMovesMoney`).
- The amount is never checked to be positive (`NegativeAmountReversesPayment`);
  the gate is `amount > balance`, so sending the whole balance is allowed.
- Accepting a request does not re-check the sender's balance
  (`AcceptanceSkipsFundsCheck`, `DoubleRequestOverdraws`).
- Foreign keys are switched on, so deleting a user that a transaction or a
  friend edge names is refused by sqlite and the handler raises; no dangling
  reference can arise, and referential integrity holds along every run
  (`RunKeepsInvariant`).
- New ids are one more than the largest id present (sqlite's rowid rule for
  tables without AUTOINCREMENT), so the id of a deleted user can be handed out
  again; such a user never has history (`InsertUserHasNoHistory`).

## Model

| member | source | states |
|---|---|---|
| Types.NextId | src/db.py:17 | a new row id is 1 when the table is empty, and otherwise one more than the largest id present; it is always positive and larger than every id present |
| Store.GetUser | src/db.py:87-91 | a user lookup finds the stored row or reports absence |
| Store.InsertUser | src/db.py:81-85 | the new user is stored with the given fields under an id not previously present; no existing user, transaction or edge changes |
| Store.DeleteUserRow | src/db.py:101-104 | deletion is refused exactly when the user exists and a transaction or friend edge names it; an absent id changes nothing; otherwise only that user disappears |
| Store.Transfer | src/db.py:93-98 | for distinct parties the sender loses and the receiver gains `amount`; for one party the balance ends at old + amount; no other user and no other field changes |
| Store.UpdateUserBalances | src/db.py:93-99 | raises before writing when either party is missing; otherwise applies the transfer to users only, leaving transactions and edges unchanged |
| Store.TransferConserves | src/db.py:93-99 | a transfer between two different users keeps the sum of all balances |
| Store.SelfTransferMints | src/db.py:94-98 | a transfer from a user to itself raises the sum of all balances by `amount` |
| Store.InsertTransaction | src/db.py:106-110 | succeeds exactly when both parties exist; stores the record exactly as given, tri-state decision included, under a fresh id; nothing else changes |
| Store.GetTransaction | src/db.py:112-117 | a transaction lookup finds the stored row or reports absence |
| Store.TransactionsOf | src/db.py:119-125 | returns exactly the transactions whose sender or receiver is the user, with their stored records |
| Store.SetAccepted | src/db.py:127-133 | overwrites only the decision and the timestamp of the target; sender, receiver, amount and message are kept; the returned record is the stored one and carries the new decision; no other row changes |
| Store.UpdateTransactionAccepted | src/db.py:127-134 | an absent id yields None; a present one is updated whatever its previous decision |
| Store.CreateFriendship | src/db.py:60-65 | succeeds exactly when both users exist and then adds both directed edges and nothing else |
| Store.FriendsOf | src/db.py:67-72 | returns exactly the users v with an edge (u, v) |
| Store.InsertUserThenGet | src/db.py:81-91 | looking up a freshly inserted user returns the given fields |
| Store.InsertUserHasNoHistory | src/db.py:81-85 | in a consistent ledger a new user, even under a reused id, has no transactions and no friends |
| Store.InsertTransactionThenGet | src/db.py:106-125 | a freshly inserted transaction reads back as given and is listed for both its sender and its receiver |
| Store.UpdateThenGet | src/db.py:127-133 | reading a transaction after updating it returns the record the update returned, with the new decision |
| Store.DeleteUserNeedsNoHistory | src/db.py:101-104 | with symmetric friendship, an existing user can be deleted exactly when it has no transactions and no friends |
| Store.FriendsOfSymmetric | src/db.py:60-72 | over a symmetric edge set, v is a friend of u exactly when u is a friend of v |
| Store.CreateFriendshipSymmetric | src/db.py:60-72 | befriending keeps the edge set symmetric and makes each user a friend of the other |
| App.Status | src/app.py:46-130 | not-found failures answer 404 (lines 46, 57, 80, 128), insufficient funds and already-completed answer 400 (lines 95, 130), uncaught exceptions 500 |
| App.CreateTransaction | src/app.py:82-122 | a missing sender raises, then the strict funds gate refuses with no change, then a missing receiver is refused by the foreign key with no change; success stores the record as given under a fresh id; a pending one moves no money, any other decision transfers `amount` |
| App.RespondToTransaction | src/app.py:124-136 | absent id is not-found, a non-pending one is already-completed, both with no change; a `true` answer whose stored party is missing raises on reading its balance, with no change; a `true` answer otherwise transfers the stored amount between the stored parties; other answers move nothing; the record gets the answer and the new timestamp |
| App.DeleteUser | src/app.py:53-59 | an unknown user is 404 with no change; a referenced user makes the delete raise with no change; otherwise the user is returned and removed |
| App.Befriend | src/app.py:70-80 | a missing user is answered 404 with no change; otherwise both directed edges are added |
| App.CreateConserves | src/app.py:106-109 | creating a transaction between different users never changes the balance sum, whatever the decision and the outcome |
| App.SelfPaymentMints | src/app.py:94-109 | a self-payment within the balance succeeds and adds `amount` to the user's balance and to the sum |
| App.DeclinedCreationMovesMoney | src/app.py:106-109 | creating a transaction with `accepted = false` moves the money exactly as a payment does and stores it declined |
| App.NegativeAmountReversesPayment | src/app.py:94-95 | a negative amount passes the gate and moves money from the receiver to the sender |
| App.RespondConserves | src/app.py:132-134 | answering a transaction between different users never changes the balance sum |
| App.RespondTerminal | src/app.py:129-130 | after a successful non-None answer every further answer is refused and changes nothing |
| App.RespondNoneStaysOpen | src/app.py:131-134 | a `None` answer leaves the transaction pending with the new timestamp and moves no money |
| App.AcceptanceSkipsFundsCheck | src/app.py:132-133 | accepting a request larger than the sender's current balance still succeeds and leaves the sender negative |
| App.ConsistentRespondSucceeds | src/app.py:132-134 | in a ledger with referential integrity, answering a pending transaction never raises |
| App.FailureStatuses | src/app.py:53-130 | the funds gate answers 400, an unknown transaction 404, an already answered one 400, an unknown user to delete 404, a friendship with an unknown user 404 |
| Traces.StepKeepsInvariant | src/db.py:30-56 | every handler call keeps referential integrity and symmetric friendship |
| Traces.RunKeepsInvariant | src/db.py:8 | every run of handler calls keeps referential integrity and symmetric friendship |
| Traces.StepKeepsSettled | src/app.py:129-130 | no handler call changes an accepted or declined transaction |
| Traces.RunKeepsSettled | src/app.py:129-134 | along every run an accepted or declined transaction keeps its record |
| Traces.StepConserves | src/db.py:93-99 | a creation between distinct users or an answer keeps the balance sum and adds no self-transaction |
| Traces.RunConserves | src/db.py:93-99 | along any run of such transfers from a ledger without self-transactions the balance sum is unchanged |
| Scenarios.PaymentExample | src/app.py:94-109 | sender 100, receiver 50, payment of 30: balances 70 and 80, stored accepted under id 1 |
| Scenarios.RequestThenAcceptExample | src/app.py:124-134 | a request of 30 moves nothing until accepted, then moves 30 |
| Scenarios.InsufficientFundsExample | src/app.py:94-95 | a sender with 10 cannot send 50; nothing changes |
| Scenarios.WholeBalanceExample | src/app.py:94-95 | a sender may send exactly its whole balance |
| Scenarios.AnswerTwiceExample | src/app.py:129-130 | declining an accepted payment is refused and it stays accepted |
| Scenarios.DoubleRequestOverdraws | src/app.py:132-133 | two requests of 80 against a balance of 100, both accepted, leave the sender at -60 |
| Scenarios.DeleteReferencedExample | src/app.py:53-59 | a user who has sent a payment cannot be deleted |

## Left out

- The sqlite connection, table creation and commits: each storage method is one atomic step over maps.
- Crash atomicity: the record write and the transfer in `create_transaction`, and the transfer and the update in `respond_to_transaction`, are separate commits in the code; the model treats each handler as one step.
- Concurrency (the connection is shared across threads) and the race between the funds check and a later acceptance; only its sequential consequence is shown.
- Flask routing, JSON parsing and rendering, `without_keys`, `get_all_users` and the `get_user` handler with its 401 path: no ledger logic, and password verification is a foreign library.
- Password hashing: the hash is an opaque string field.
- SendGrid email after a creation (src/app.py:106-121): building the message and its subject is not modelled; only the send itself is inside the `try`, and its failures are caught and printed.
- Float columns for balances and amounts: money is an unbounded integer, and float rounding is not modelled.
- Timestamps: the clock reading is a parameter of the handlers that take one.
- Store.FriendsOf: returns the set of friend ids, not the list of user records with repeats; friend edges are a set, so a friendship created twice is stored once rather than as duplicate rows.
- Store.TransactionsOf: returns a map from id to record, not a list in row order.
- Store.GetUser: does not attach the user's transactions as the `transactions` field; `TransactionsOf` gives them.
- Store.CreateFriendship: does not return the row id of the second edge.
- App.RespondToTransaction: answers are limited to None, true and false. The handler takes any JSON value and tests it with `is True`, so a truthy answer such as `1` or `"yes"` moves no money, yet is written to the ACCEPTED column and read back as true: the request then shows as accepted without a transfer and can never be answered again. That path is not modelled.
