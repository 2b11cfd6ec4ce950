/** Concrete runs of the handlers on a two-user ledger. */
module Scenarios {
  import opened Types
  import opened Store
  import opened App

  function Alice(balance: Money): User { User("Alice", "alice", balance, "hash-a", "alice@example.com") }
  function Bob(balance: Money): User { User("Bob", "bob", balance, "hash-b", "bob@example.com") }

  /** Users 1 and 2 with the given balances, no transactions, no friends. */
  function TwoUsers(a: Money, b: Money): Ledger
  {
    Ledger(map[1 := Alice(a), 2 := Bob(b)], map[], {})
  }

  /** Sender 100, receiver 50, a payment of 30: balances become 70 and 80 and
      the record is stored accepted under id 1. */
  lemma PaymentExample()
    ensures var o := CreateTransaction(TwoUsers(100, 50), 1, 2, 30, "lunch", Accepted, "t0");
            && o.reply == Done(201, (1, Transaction("t0", 1, 2, 30, "lunch", Accepted)))
            && o.ledger.users[1].balance == 70
            && o.ledger.users[2].balance == 80
            && o.ledger.txs[1].accepted == Accepted
  {
  }

  /** A request of 30 leaves both balances alone until it is accepted; the
      acceptance then moves the 30. */
  lemma RequestThenAcceptExample()
    ensures var requested := CreateTransaction(TwoUsers(100, 50), 1, 2, 30, "rent", Pending, "t0");
            var answered := RespondToTransaction(requested.ledger, 1, Accepted, "t1");
            && requested.reply.Done?
            && requested.ledger.users == TwoUsers(100, 50).users
            && answered.reply == Done(200, Transaction("t1", 1, 2, 30, "rent", Accepted))
            && answered.ledger.users[1].balance == 70
            && answered.ledger.users[2].balance == 80
  {
  }

  /** A sender holding 10 cannot send 50: no record, no balance change. */
  lemma InsufficientFundsExample()
    ensures CreateTransaction(TwoUsers(10, 50), 1, 2, 50, "car", Accepted, "t0")
            == Outcome(Fail(InsufficientFunds), TwoUsers(10, 50))
  {
  }

  /** A sender may send exactly its whole balance. */
  lemma WholeBalanceExample()
    ensures var o := CreateTransaction(TwoUsers(10, 50), 1, 2, 10, "all", Accepted, "t0");
            o.reply.Done? && o.ledger.users[1].balance == 0 && o.ledger.users[2].balance == 60
  {
  }

  /** Declining an accepted payment is refused and the record stays accepted. */
  lemma AnswerTwiceExample()
    ensures var paid := CreateTransaction(TwoUsers(100, 50), 1, 2, 30, "lunch", Accepted, "t0");
            var again := RespondToTransaction(paid.ledger, 1, Declined, "t1");
            && again == Outcome(Fail(AlreadyCompleted), paid.ledger)
            && again.ledger.txs[1].accepted == Accepted
  {
  }

  /** Two requests of 80 each pass the gate against a balance of 100; both are
      then accepted and the sender ends at -60. */
  lemma DoubleRequestOverdraws()
    ensures var first := CreateTransaction(TwoUsers(100, 50), 1, 2, 80, "a", Pending, "t0");
            var second := CreateTransaction(first.ledger, 1, 2, 80, "b", Pending, "t1");
            var one := RespondToTransaction(second.ledger, 1, Accepted, "t2");
            var two := RespondToTransaction(one.ledger, 2, Accepted, "t3");
            && first.reply.Done? && second.reply.Done? && one.reply.Done? && two.reply.Done?
            && two.ledger.users[1].balance == -60
            && two.ledger.users[2].balance == 210
  {
  }

  /** A user that has sent a payment cannot be deleted. */
  lemma DeleteReferencedExample()
    ensures var paid := CreateTransaction(TwoUsers(100, 50), 1, 2, 30, "lunch", Accepted, "t0");
            DeleteUser(paid.ledger, 1) == Outcome(Fail(Unhandled(IntegrityError)), paid.ledger)
  {
  }
}
