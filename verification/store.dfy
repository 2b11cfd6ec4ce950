/** The storage methods of the DB class, each one atomic step from one ledger
    to the next. Foreign keys are switched on, so a row that names a missing
    user is refused and a user that rows still name cannot be deleted. */
module Store {
  import opened Types

  /** get_user_by_id, without the transactions it attaches (see
      TransactionsOf). */
  function GetUser(l: Ledger, id: UserId): (r: Option<User>)
    ensures r.Some? <==> id in l.users
    ensures r.Some? ==> r.value == l.users[id]
  {
    if id in l.users then Some(l.users[id]) else None
  }

  /** insert_user: the new row gets the next free id; no other row changes. */
  function InsertUser(l: Ledger, name: string, username: string, balance: Money, passwordHash: string, email: string)
    : (r: (UserId, Ledger))
    ensures r.0 !in l.users
    ensures r.1.users.Keys == l.users.Keys + {r.0}
    ensures r.1.users[r.0] == User(name, username, balance, passwordHash, email)
    ensures forall k :: k in l.users ==> r.1.users[k] == l.users[k]
    ensures r.1.txs == l.txs && r.1.edges == l.edges
  {
    var id := NextId(l.users.Keys);
    (id, l.(users := l.users[id := User(name, username, balance, passwordHash, email)]))
  }

  /** delete_user: the DELETE is refused while a transaction or a friend edge
      names the user; deleting an absent id deletes no row and so changes
      nothing. */
  function DeleteUserRow(l: Ledger, id: UserId): (r: Result<Ledger, DbError>)
    ensures r.Err? <==> id in l.users && Referenced(l, id)
    ensures id !in l.users ==> r == Ok(l)
    ensures r.Ok? ==> r.value.users.Keys == l.users.Keys - {id}
    ensures r.Ok? ==> forall k :: k in r.value.users ==> r.value.users[k] == l.users[k]
    ensures r.Ok? ==> r.value.txs == l.txs && r.value.edges == l.edges
  {
    if id !in l.users then Ok(l)
    else if Referenced(l, id) then Err(ForeignKeyViolation)
    else Ok(l.(users := l.users - {id}))
  }

  /** The two writes of update_user_balances. Both new balances come from one
      read taken before either write, and the receiver's write lands last. */
  function Transfer(users: map<UserId, User>, sender: UserId, receiver: UserId, amount: Money)
    : (r: map<UserId, User>)
    requires sender in users && receiver in users
    ensures r.Keys == users.Keys
    ensures sender != receiver ==> r[sender].balance == users[sender].balance - amount
    ensures sender != receiver ==> r[receiver].balance == users[receiver].balance + amount
    ensures sender == receiver ==> r[sender].balance == users[sender].balance + amount
    ensures forall k :: k in users ==> r[k] == users[k].(balance := r[k].balance)
    ensures forall k :: k in users && k != sender && k != receiver ==> r[k] == users[k]
  {
    var senderBalance := users[sender].balance - amount;
    var receiverBalance := users[receiver].balance + amount;
    var afterSender := users[sender := users[sender].(balance := senderBalance)];
    afterSender[receiver := afterSender[receiver].(balance := receiverBalance)]
  }

  /** update_user_balances. Reading the balance of a missing user subscripts
      None and raises before anything is written. */
  function UpdateUserBalances(l: Ledger, sender: UserId, receiver: UserId, amount: Money): (r: Option<Ledger>)
    ensures r.Some? <==> sender in l.users && receiver in l.users
    ensures r.Some? ==> r.value.users == Transfer(l.users, sender, receiver, amount)
    ensures r.Some? ==> r.value.txs == l.txs && r.value.edges == l.edges
  {
    if sender in l.users && receiver in l.users then
      Some(l.(users := Transfer(l.users, sender, receiver, amount)))
    else None
  }

  /** Between two different users a transfer keeps the sum of all balances. */
  lemma TransferConserves(users: map<UserId, User>, sender: UserId, receiver: UserId, amount: Money)
    requires sender in users && receiver in users && sender != receiver
    ensures Total(Transfer(users, sender, receiver, amount)) == Total(users)
  {
    var afterSender := users[sender := users[sender].(balance := users[sender].balance - amount)];
    TotalUpdate(users, sender, afterSender[sender]);
    TotalUpdate(afterSender, receiver, afterSender[receiver].(balance := users[receiver].balance + amount));
  }

  /** A transfer from a user to itself adds `amount` to the sum: the receiver's
      write overwrites the sender's with the stale balance plus `amount`. */
  lemma SelfTransferMints(users: map<UserId, User>, id: UserId, amount: Money)
    requires id in users
    ensures Total(Transfer(users, id, id, amount)) == Total(users) + amount
  {
    TotalUpdate(users, id, users[id].(balance := users[id].balance + amount));
    assert Transfer(users, id, id, amount) == users[id := users[id].(balance := users[id].balance + amount)];
  }

  /** insert_transaction: the record is stored exactly as given under the next
      free id, or refused when either party is missing. */
  function InsertTransaction(l: Ledger, timestamp: string, sender: UserId, receiver: UserId, amount: Money,
                             message: string, accepted: Decision)
    : (r: Result<(TxId, Ledger), DbError>)
    ensures r.Ok? <==> sender in l.users && receiver in l.users
    ensures r.Ok? ==> r.value.0 !in l.txs
    ensures r.Ok? ==> r.value.1.txs.Keys == l.txs.Keys + {r.value.0}
    ensures r.Ok? ==> r.value.1.txs[r.value.0] == Transaction(timestamp, sender, receiver, amount, message, accepted)
    ensures r.Ok? ==> forall t :: t in l.txs ==> r.value.1.txs[t] == l.txs[t]
    ensures r.Ok? ==> r.value.1.users == l.users && r.value.1.edges == l.edges
  {
    if sender in l.users && receiver in l.users then
      var id := NextId(l.txs.Keys);
      Ok((id, l.(txs := l.txs[id := Transaction(timestamp, sender, receiver, amount, message, accepted)])))
    else Err(ForeignKeyViolation)
  }

  /** get_transaction_by_id. */
  function GetTransaction(l: Ledger, id: TxId): (r: Option<Transaction>)
    ensures r.Some? <==> id in l.txs
    ensures r.Some? ==> r.value == l.txs[id]
  {
    if id in l.txs then Some(l.txs[id]) else None
  }

  /** get_transactions_of_user: the transactions the user sent or received,
      keyed by id. */
  function TransactionsOf(l: Ledger, id: UserId): (r: map<TxId, Transaction>)
    ensures forall t :: t in r <==> t in l.txs && (l.txs[t].sender == id || l.txs[t].receiver == id)
    ensures forall t :: t in r ==> r[t] == l.txs[t]
  {
    map t | t in l.txs && (l.txs[t].sender == id || l.txs[t].receiver == id) :: l.txs[t]
  }

  /** The UPDATE of update_transaction_accepted on a row known to exist. */
  function SetAccepted(l: Ledger, id: TxId, accepted: Decision, now: string): (r: (Transaction, Ledger))
    requires id in l.txs
    ensures r.0.accepted == accepted && r.0.timestamp == now
    ensures r.0.sender == l.txs[id].sender && r.0.receiver == l.txs[id].receiver
    ensures r.0.amount == l.txs[id].amount && r.0.message == l.txs[id].message
    ensures r.1.txs.Keys == l.txs.Keys && r.1.txs[id] == r.0
    ensures forall t :: t in l.txs && t != id ==> r.1.txs[t] == l.txs[t]
    ensures r.1.users == l.users && r.1.edges == l.edges
  {
    var updated := l.txs[id].(timestamp := now, accepted := accepted);
    (updated, l.(txs := l.txs[id := updated]))
  }

  /** update_transaction_accepted: overwrites the decision and the timestamp
      whatever the stored decision was; an absent id updates no row and
      yields None. */
  function UpdateTransactionAccepted(l: Ledger, id: TxId, accepted: Decision, now: string)
    : (r: Option<(Transaction, Ledger)>)
    ensures r.Some? <==> id in l.txs
    ensures r.Some? ==> r.value == SetAccepted(l, id, accepted, now)
  {
    if id in l.txs then Some(SetAccepted(l, id, accepted, now)) else None
  }

  /** create_friendship: both directions are inserted; the first INSERT
      already names both users, so a missing user refuses the whole call. */
  function CreateFriendship(l: Ledger, user1: UserId, user2: UserId): (r: Result<Ledger, DbError>)
    ensures r.Ok? <==> user1 in l.users && user2 in l.users
    ensures r.Ok? ==> r.value.edges == l.edges + {Edge(user2, user1), Edge(user1, user2)}
    ensures r.Ok? ==> r.value.users == l.users && r.value.txs == l.txs
  {
    if user1 in l.users && user2 in l.users then
      Ok(l.(edges := l.edges + {Edge(user2, user1), Edge(user1, user2)}))
    else Err(ForeignKeyViolation)
  }

  /** get_friends_of: the ids of the users listed as friends of `id`. */
  function FriendsOf(l: Ledger, id: UserId): (r: set<UserId>)
    ensures forall v :: v in r <==> Edge(id, v) in l.edges
  {
    set e | e in l.edges && e.user == id :: e.friend
  }

  // ---- Properties relating the operations ----

  /** Reading a user back after inserting it yields the stored fields. */
  lemma InsertUserThenGet(l: Ledger, name: string, username: string, balance: Money, passwordHash: string, email: string)
    ensures var (id, l') := InsertUser(l, name, username, balance, passwordHash, email);
            GetUser(l', id) == Some(User(name, username, balance, passwordHash, email))
  {
  }

  /** In a consistent ledger a freshly inserted user has no transactions and
      no friends, even when sqlite reuses the id of a deleted user. */
  lemma InsertUserHasNoHistory(l: Ledger, name: string, username: string, balance: Money, passwordHash: string, email: string)
    requires Consistent(l)
    ensures var (id, l') := InsertUser(l, name, username, balance, passwordHash, email);
            TransactionsOf(l', id) == map[] && FriendsOf(l', id) == {}
  {
  }

  /** Reading a transaction back after inserting it yields the record as given. */
  lemma InsertTransactionThenGet(l: Ledger, timestamp: string, sender: UserId, receiver: UserId, amount: Money,
                                 message: string, accepted: Decision)
    requires sender in l.users && receiver in l.users
    ensures var r := InsertTransaction(l, timestamp, sender, receiver, amount, message, accepted);
            r.Ok? &&
            GetTransaction(r.value.1, r.value.0) == Some(Transaction(timestamp, sender, receiver, amount, message, accepted)) &&
            r.value.0 in TransactionsOf(r.value.1, sender) &&
            r.value.0 in TransactionsOf(r.value.1, receiver)
  {
  }

  /** Reading a transaction back after updating it yields the returned record. */
  lemma UpdateThenGet(l: Ledger, id: TxId, accepted: Decision, now: string)
    requires id in l.txs
    ensures var r := UpdateTransactionAccepted(l, id, accepted, now);
            r.Some? && GetTransaction(r.value.1, id) == Some(r.value.0) && r.value.0.accepted == accepted
  {
  }

  /** Deleting a user succeeds exactly when the user has no transactions and
      no friend edges in either direction. */
  lemma DeleteUserNeedsNoHistory(l: Ledger, id: UserId)
    requires id in l.users && Symmetric(l.edges)
    ensures DeleteUserRow(l, id).Ok? <==> TransactionsOf(l, id) == map[] && FriendsOf(l, id) == {}
  {
  }

  /** Friendship as get_friends_of reports it is symmetric whenever the edge
      set is. */
  lemma FriendsOfSymmetric(l: Ledger, u: UserId, v: UserId)
    requires Symmetric(l.edges)
    ensures v in FriendsOf(l, u) <==> u in FriendsOf(l, v)
  {
  }

  /** create_friendship keeps the edge set symmetric and makes each user a
      friend of the other. */
  lemma CreateFriendshipSymmetric(l: Ledger, user1: UserId, user2: UserId)
    requires Symmetric(l.edges)
    requires user1 in l.users && user2 in l.users
    ensures var r := CreateFriendship(l, user1, user2);
            r.Ok? && Symmetric(r.value.edges) &&
            user2 in FriendsOf(r.value, user1) && user1 in FriendsOf(r.value, user2)
  {
  }
}
