/** Runs of handler calls against one ledger, and the properties that hold
    along every run: referential integrity and symmetric friendship, settled
    transactions never changing, and conservation of the balance sum. */
module Traces {
  import opened Types
  import opened Store
  import opened App

  /** One call into the ledger, with the caller's data and the clock reading. */
  datatype Command =
    | AddUser(name: string, username: string, balance: Money, passwordHash: string, email: string)
    | RemoveUser(id: UserId)
    | MakeFriends(user: UserId, friend: UserId)
    | Create(sender: UserId, receiver: UserId, amount: Money, message: string, accepted: Decision, now: string)
    | Respond(tx: TxId, decision: Decision, now: string)

  /** The ledger after one command, whatever the command answered. */
  function Step(l: Ledger, c: Command): Ledger
  {
    match c
    case AddUser(name, username, balance, passwordHash, email) =>
      InsertUser(l, name, username, balance, passwordHash, email).1
    case RemoveUser(id) => DeleteUser(l, id).ledger
    case MakeFriends(user, friend) => Befriend(l, user, friend).ledger
    case Create(sender, receiver, amount, message, accepted, now) =>
      CreateTransaction(l, sender, receiver, amount, message, accepted, now).ledger
    case Respond(tx, decision, now) => RespondToTransaction(l, tx, decision, now).ledger
  }

  /** The ledger after a run of commands, first to last. */
  function Run(l: Ledger, cs: seq<Command>): (r: Ledger)
    ensures l.txs.Keys <= r.txs.Keys
    decreases |cs|
  {
    if cs == [] then l else Run(Step(l, cs[0]), cs[1..])
  }

  /** The invariants the foreign keys and create_friendship maintain. */
  predicate Invariant(l: Ledger)
  {
    Consistent(l) && Symmetric(l.edges)
  }

  /** Every command keeps the invariant. */
  lemma StepKeepsInvariant(l: Ledger, c: Command)
    requires Invariant(l)
    ensures Invariant(Step(l, c))
  {
  }

  /** Every run from a ledger that satisfies the invariant keeps it. */
  lemma {:induction false} RunKeepsInvariant(l: Ledger, cs: seq<Command>)
    requires Invariant(l)
    ensures Invariant(Run(l, cs))
    decreases |cs|
  {
    if cs != [] {
      StepKeepsInvariant(l, cs[0]);
      RunKeepsInvariant(Step(l, cs[0]), cs[1..]);
    }
  }

  /** No command changes a transaction that is no longer pending. */
  lemma StepKeepsSettled(l: Ledger, c: Command, id: TxId)
    requires id in l.txs && l.txs[id].accepted != Pending
    ensures id in Step(l, c).txs && Step(l, c).txs[id] == l.txs[id]
  {
  }

  /** Along any run, a transaction that was accepted or declined keeps its
      record unchanged. */
  lemma {:induction false} RunKeepsSettled(l: Ledger, cs: seq<Command>, id: TxId)
    requires id in l.txs && l.txs[id].accepted != Pending
    ensures id in Run(l, cs).txs && Run(l, cs).txs[id] == l.txs[id]
    decreases |cs|
  {
    if cs != [] {
      StepKeepsSettled(l, cs[0], id);
      RunKeepsSettled(Step(l, cs[0]), cs[1..], id);
    }
  }

  /** A command that only moves money between different users: a creation
      with two distinct parties, or an answer to a transaction. */
  predicate IsTransfer(c: Command)
  {
    || (c.Create? && c.sender != c.receiver)
    || c.Respond?
  }

  /** A transfer command keeps the sum of balances and adds no transaction
      with the same user on both sides. */
  lemma StepConserves(l: Ledger, c: Command)
    requires NoSelfTransactions(l) && IsTransfer(c)
    ensures NoSelfTransactions(Step(l, c))
    ensures Total(Step(l, c).users) == Total(l.users)
  {
    match c
    case Create(sender, receiver, amount, message, accepted, now) =>
      CreateConserves(l, sender, receiver, amount, message, accepted, now);
    case Respond(tx, decision, now) =>
      RespondConserves(l, tx, decision, now);
  }

  /** Money is neither created nor destroyed along a run of transfers between
      different users, as long as no stored transaction is a self-transfer. */
  lemma {:induction false} RunConserves(l: Ledger, cs: seq<Command>)
    requires NoSelfTransactions(l)
    requires forall i :: 0 <= i < |cs| ==> IsTransfer(cs[i])
    ensures Total(Run(l, cs).users) == Total(l.users)
    decreases |cs|
  {
    if cs != [] {
      StepConserves(l, cs[0]);
      RunConserves(Step(l, cs[0]), cs[1..]);
    }
  }
}
