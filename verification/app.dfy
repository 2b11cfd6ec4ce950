/** The decision logic of the HTTP handlers that change the ledger: creating a
    transaction, responding to one, deleting a user and befriending two users.
    Each handler is a function from a ledger to a reply and the next ledger. */
module App {
  import opened Types
  import opened Store

  /** The cause of an exception the handler does not catch. */
  datatype Fault =
    | NoneSubscripted  // a lookup returned None and a field of it was read
    | IntegrityError   // sqlite refused a write on a foreign key

  datatype Failure =
    | UserNotFound
    | TransactionNotFound
    | InsufficientFunds
    | AlreadyCompleted
    | Unhandled(fault: Fault)

  /** The HTTP status each failure is answered with; an uncaught exception
      becomes a server error. */
  function Status(f: Failure): (code: int)
    ensures code == 404 <==> f.UserNotFound? || f.TransactionNotFound?
    ensures code == 400 <==> f.InsufficientFunds? || f.AlreadyCompleted?
    ensures code == 500 <==> f.Unhandled?
  {
    match f
    case UserNotFound => 404
    case TransactionNotFound => 404
    case InsufficientFunds => 400
    case AlreadyCompleted => 400
    case Unhandled(_) => 500
  }

  datatype Reply<+T> = Done(code: int, data: T) | Fail(failure: Failure)

  /** What a handler answers and the ledger it leaves behind. */
  datatype Outcome<+T> = Outcome(reply: Reply<T>, ledger: Ledger)

  /** create_transaction. A missing sender raises when its name is read; the
      sufficiency gate compares against the sender's stored balance; a missing
      receiver is refused by the foreign key when the record is written. Any
      decision other than a pending one moves the money at once. */
  function CreateTransaction(l: Ledger, sender: UserId, receiver: UserId, amount: Money, message: string,
                             accepted: Decision, now: string)
    : (o: Outcome<(TxId, Transaction)>)
    ensures sender !in l.users ==> o == Outcome(Fail(Unhandled(NoneSubscripted)), l)
    ensures sender in l.users && amount > l.users[sender].balance ==> o == Outcome(Fail(InsufficientFunds), l)
    ensures sender in l.users && amount <= l.users[sender].balance && receiver !in l.users ==>
              o == Outcome(Fail(Unhandled(IntegrityError)), l)
    ensures o.reply.Done? <==> sender in l.users && receiver in l.users && amount <= l.users[sender].balance
    ensures o.reply.Done? ==>
              && o.reply.code == 201
              && o.reply.data.0 !in l.txs
              && o.reply.data.1 == Transaction(now, sender, receiver, amount, message, accepted)
              && o.ledger.txs == l.txs[o.reply.data.0 := o.reply.data.1]
              && o.ledger.edges == l.edges
    ensures o.reply.Done? && accepted == Pending ==> o.ledger.users == l.users
    ensures o.reply.Done? && accepted != Pending ==>
              o.ledger.users == Transfer(l.users, sender, receiver, amount)
  {
    if sender !in l.users then Outcome(Fail(Unhandled(NoneSubscripted)), l)
    else if amount > l.users[sender].balance then Outcome(Fail(InsufficientFunds), l)
    else
      match InsertTransaction(l, now, sender, receiver, amount, message, accepted)
      case Err(_) => Outcome(Fail(Unhandled(IntegrityError)), l)
      case Ok((id, stored)) =>
        var t := Transaction(now, sender, receiver, amount, message, accepted);
        if accepted == Pending then Outcome(Done(201, (id, t)), stored)
        // The insert succeeded, so both parties exist and update_user_balances
        // reads both balances without raising.
        else Outcome(Done(201, (id, t)), stored.(users := Transfer(stored.users, sender, receiver, amount)))
  }

  /** respond_to_transaction. Only a pending transaction can be answered. A
      `true` answer moves the stored amount without looking at the sender's
      balance again; any other answer, a `None` one included, moves nothing.
      The answer and a new timestamp are then written to the record. */
  function RespondToTransaction(l: Ledger, id: TxId, decision: Decision, now: string): (o: Outcome<Transaction>)
    ensures id !in l.txs ==> o == Outcome(Fail(TransactionNotFound), l)
    ensures id in l.txs && l.txs[id].accepted != Pending ==> o == Outcome(Fail(AlreadyCompleted), l)
    ensures id in l.txs && l.txs[id].accepted == Pending && decision == Accepted &&
            !(l.txs[id].sender in l.users && l.txs[id].receiver in l.users) ==>
              o == Outcome(Fail(Unhandled(NoneSubscripted)), l)
    ensures o.reply.Fail? ==> o.ledger == l
    ensures o.reply.Done? <==>
              && id in l.txs && l.txs[id].accepted == Pending
              && (decision == Accepted ==> l.txs[id].sender in l.users && l.txs[id].receiver in l.users)
    ensures o.reply.Done? ==>
              && o.reply.code == 200
              && o.reply.data == l.txs[id].(accepted := decision, timestamp := now)
              && o.ledger.txs == l.txs[id := o.reply.data]
              && o.ledger.edges == l.edges
    ensures o.reply.Done? && decision == Accepted ==>
              o.ledger.users == Transfer(l.users, l.txs[id].sender, l.txs[id].receiver, l.txs[id].amount)
    ensures o.reply.Done? && decision != Accepted ==> o.ledger.users == l.users
  {
    if id !in l.txs then Outcome(Fail(TransactionNotFound), l)
    else
      var t := l.txs[id];
      if t.accepted != Pending then Outcome(Fail(AlreadyCompleted), l)
      else if decision == Accepted then
        match UpdateUserBalances(l, t.sender, t.receiver, t.amount)
        case None => Outcome(Fail(Unhandled(NoneSubscripted)), l)
        case Some(paid) =>
          // The transfer leaves the transaction table alone, so the row exists.
          var (updated, next) := SetAccepted(paid, id, decision, now);
          Outcome(Done(200, updated), next)
      else
        var (updated, next) := SetAccepted(l, id, decision, now);
        Outcome(Done(200, updated), next)
  }

  /** delete_user: an unknown id is answered 404 before the store is touched;
      the store then refuses to delete a user that rows still name. */
  function DeleteUser(l: Ledger, id: UserId): (o: Outcome<User>)
    ensures id !in l.users ==> o == Outcome(Fail(UserNotFound), l)
    ensures id in l.users && Referenced(l, id) ==> o == Outcome(Fail(Unhandled(IntegrityError)), l)
    ensures id in l.users && !Referenced(l, id) ==>
              && o.reply == Done(200, l.users[id])
              && o.ledger == l.(users := l.users - {id})
  {
    match GetUser(l, id)
    case None => Outcome(Fail(UserNotFound), l)
    case Some(u) =>
      match DeleteUserRow(l, id)
      case Err(_) => Outcome(Fail(Unhandled(IntegrityError)), l)
      case Ok(next) => Outcome(Done(200, u), next)
  }

  /** create_friendship: the foreign-key refusal is caught and answered 404. */
  function Befriend(l: Ledger, user: UserId, friend: UserId): (o: Outcome<Edge>)
    ensures o.reply.Fail? <==> user !in l.users || friend !in l.users
    ensures o.reply.Fail? ==> o == Outcome(Fail(UserNotFound), l)
    ensures o.reply.Done? ==>
              && o.reply == Done(201, Edge(user, friend))
              && o.ledger == l.(edges := l.edges + {Edge(friend, user), Edge(user, friend)})
  {
    match CreateFriendship(l, user, friend)
    case Err(_) => Outcome(Fail(UserNotFound), l)
    case Ok(next) => Outcome(Done(201, Edge(user, friend)), next)
  }

  // ---- Properties of the handlers ----

  /** Creating a transaction between two different users never changes the
      sum of all balances, whatever the outcome and the decision. */
  lemma CreateConserves(l: Ledger, sender: UserId, receiver: UserId, amount: Money, message: string,
                        accepted: Decision, now: string)
    requires sender != receiver
    ensures Total(CreateTransaction(l, sender, receiver, amount, message, accepted, now).ledger.users) == Total(l.users)
  {
    var o := CreateTransaction(l, sender, receiver, amount, message, accepted, now);
    if o.reply.Done? && accepted != Pending {
      TransferConserves(l.users, sender, receiver, amount);
    }
  }

  /** A payment from a user to itself passes the gate and adds `amount` to
      that user's balance and to the sum of all balances. */
  lemma SelfPaymentMints(l: Ledger, id: UserId, amount: Money, message: string, accepted: Decision, now: string)
    requires id in l.users && amount <= l.users[id].balance && accepted != Pending
    ensures var o := CreateTransaction(l, id, id, amount, message, accepted, now);
            && o.reply.Done?
            && o.ledger.users[id].balance == l.users[id].balance + amount
            && Total(o.ledger.users) == Total(l.users) + amount
  {
    SelfTransferMints(l.users, id, amount);
  }

  /** A transaction created declined still moves the money, exactly as a
      payment does. */
  lemma DeclinedCreationMovesMoney(l: Ledger, sender: UserId, receiver: UserId, amount: Money, message: string, now: string)
    requires sender in l.users && receiver in l.users && sender != receiver
    requires amount <= l.users[sender].balance
    ensures var declined := CreateTransaction(l, sender, receiver, amount, message, Declined, now);
            var paid := CreateTransaction(l, sender, receiver, amount, message, Accepted, now);
            && declined.ledger.users == paid.ledger.users
            && declined.ledger.users[sender].balance == l.users[sender].balance - amount
            && declined.ledger.users[receiver].balance == l.users[receiver].balance + amount
            && declined.reply.data.1.accepted == Declined
  {
  }

  /** The gate lets a negative amount through, and a "payment" of a negative
      amount moves money from the receiver to the sender. */
  lemma NegativeAmountReversesPayment(l: Ledger, sender: UserId, receiver: UserId, amount: Money, message: string, now: string)
    requires sender in l.users && receiver in l.users && sender != receiver
    requires amount < 0 && l.users[sender].balance >= 0
    ensures var o := CreateTransaction(l, sender, receiver, amount, message, Accepted, now);
            && o.reply.Done?
            && o.ledger.users[sender].balance > l.users[sender].balance
            && o.ledger.users[receiver].balance < l.users[receiver].balance
  {
  }

  /** Answering a transaction between two different users never changes the
      sum of all balances. */
  lemma RespondConserves(l: Ledger, id: TxId, decision: Decision, now: string)
    requires id in l.txs ==> l.txs[id].sender != l.txs[id].receiver
    ensures Total(RespondToTransaction(l, id, decision, now).ledger.users) == Total(l.users)
  {
    var o := RespondToTransaction(l, id, decision, now);
    if o.reply.Done? && decision == Accepted {
      TransferConserves(l.users, l.txs[id].sender, l.txs[id].receiver, l.txs[id].amount);
    }
  }

  /** Accepted and Declined are terminal: once an answer other than `None` has
      been recorded, every later answer is refused and changes nothing. */
  lemma RespondTerminal(l: Ledger, id: TxId, decision: Decision, now: string, later: Decision, laterNow: string)
    requires decision != Pending
    requires RespondToTransaction(l, id, decision, now).reply.Done?
    ensures var first := RespondToTransaction(l, id, decision, now);
            RespondToTransaction(first.ledger, id, later, laterNow) == Outcome(Fail(AlreadyCompleted), first.ledger)
  {
  }

  /** Answering `None` leaves the transaction pending, so it can be answered
      again. */
  lemma RespondNoneStaysOpen(l: Ledger, id: TxId, now: string)
    requires id in l.txs && l.txs[id].accepted == Pending
    ensures var o := RespondToTransaction(l, id, Pending, now);
            && o.reply.Done?
            && o.ledger.txs[id].accepted == Pending
            && o.ledger.txs[id].timestamp == now
            && o.ledger.users == l.users
  {
  }

  /** Acceptance does not re-check the sender's balance: a pending request for
      more than the sender now holds is still settled, overdrawing the
      account. */
  lemma AcceptanceSkipsFundsCheck(l: Ledger, id: TxId, now: string)
    requires id in l.txs && l.txs[id].accepted == Pending
    requires l.txs[id].sender in l.users && l.txs[id].receiver in l.users
    requires l.txs[id].sender != l.txs[id].receiver
    requires l.txs[id].amount > l.users[l.txs[id].sender].balance
    ensures var o := RespondToTransaction(l, id, Accepted, now);
            o.reply.Done? && o.ledger.users[l.txs[id].sender].balance < 0
  {
  }

  /** In a ledger with referential integrity an answer to a pending
      transaction never raises: both parties of a stored transaction exist. */
  lemma ConsistentRespondSucceeds(l: Ledger, id: TxId, decision: Decision, now: string)
    requires Consistent(l)
    requires id in l.txs && l.txs[id].accepted == Pending
    ensures RespondToTransaction(l, id, decision, now).reply.Done?
  {
  }

  /** Each refusal a handler answers with is sent with the status the handler
      writes for it: 400 for the funds gate and for a second answer, 404 for
      an unknown transaction, an unknown user to delete and a friendship with
      an unknown user. */
  lemma FailureStatuses(l: Ledger, sender: UserId, receiver: UserId, amount: Money, message: string,
                        accepted: Decision, now: string, id: TxId, decision: Decision, user: UserId,
                        friend: UserId)
    ensures var c := CreateTransaction(l, sender, receiver, amount, message, accepted, now);
            sender in l.users && amount > l.users[sender].balance ==>
              c.reply.Fail? && Status(c.reply.failure) == 400
    ensures var r := RespondToTransaction(l, id, decision, now);
            && (id !in l.txs ==> r.reply.Fail? && Status(r.reply.failure) == 404)
            && (id in l.txs && l.txs[id].accepted != Pending ==> r.reply.Fail? && Status(r.reply.failure) == 400)
    ensures user !in l.users ==>
              DeleteUser(l, user).reply.Fail? && Status(DeleteUser(l, user).reply.failure) == 404
    ensures user !in l.users || friend !in l.users ==>
              Befriend(l, user, friend).reply.Fail? && Status(Befriend(l, user, friend).reply.failure) == 404
  {
  }
}
