/** The state of the ledger: users, transactions and friend edges, held as
    immutable maps and sets, together with the invariants the storage layer
    maintains and the sum of all balances. */
module Types {

  /** Row ids. sqlite hands out INTEGER PRIMARY KEY ids starting at 1. */
  type UserId = nat
  type TxId = nat

  /** Money in the smallest unit. The stored columns are floats; rounding is
      not modelled. Amounts are not required to be positive. */
  type Money = int

  datatype Option<+T> = None | Some(value: T)

  datatype Result<+T, +E> = Ok(value: T) | Err(error: E)

  /** The nullable ACCEPTED column: NULL is a request awaiting an answer,
      true a settled transaction, false a declined one. */
  datatype Decision = Pending | Accepted | Declined

  /** A row of the user table. The password hash is opaque to the ledger. */
  datatype User = User(name: string, username: string, balance: Money, passwordHash: string, email: string)

  /** A row of the transaction table. */
  datatype Transaction = Transaction(
    timestamp: string,
    sender: UserId,
    receiver: UserId,
    amount: Money,
    message: string,
    accepted: Decision)

  /** A row of the friend_join table: `friend` is listed as a friend of `user`. */
  datatype Edge = Edge(user: UserId, friend: UserId)

  datatype Ledger = Ledger(users: map<UserId, User>, txs: map<TxId, Transaction>, edges: set<Edge>)

  /** The only error the storage layer raises itself: a row that names a user
      that does not exist, or a delete of a user that rows still name. */
  datatype DbError = ForeignKeyViolation

  /** Some transaction or friend edge names user `id`. */
  predicate Referenced(l: Ledger, id: UserId)
  {
    || (exists t :: t in l.txs && (l.txs[t].sender == id || l.txs[t].receiver == id))
    || (exists e :: e in l.edges && (e.user == id || e.friend == id))
  }

  /** Referential integrity, as the foreign keys of the transaction and
      friend_join tables enforce it. */
  predicate Consistent(l: Ledger)
  {
    && (forall t :: t in l.txs ==> l.txs[t].sender in l.users && l.txs[t].receiver in l.users)
    && (forall e :: e in l.edges ==> e.user in l.users && e.friend in l.users)
  }

  /** Every friend edge is stored together with its reverse. */
  predicate Symmetric(edges: set<Edge>)
  {
    forall e :: e in edges ==> Edge(e.friend, e.user) in edges
  }

  /** No stored transaction has the same user on both sides. */
  predicate NoSelfTransactions(l: Ledger)
  {
    forall t :: t in l.txs ==> l.txs[t].sender != l.txs[t].receiver
  }

  /** The largest key of a non-empty set of ids. */
  lemma {:induction false} MaxOf(keys: set<nat>) returns (m: nat)
    requires keys != {}
    ensures m in keys && forall k :: k in keys ==> k <= m
    decreases |keys|
  {
    var x :| x in keys;
    var rest := keys - {x};
    if rest == {} {
      m := x;
    } else {
      var restMax := MaxOf(rest);
      m := if x <= restMax then restMax else x;
    }
    forall k | k in keys ensures k <= m {
      if k != x { assert k in rest; }
    }
  }

  /** Some key of a non-empty set of ids is at least every other key. */
  lemma MaxExists(keys: set<nat>)
    requires keys != {}
    ensures exists m :: m in keys && forall k :: k in keys ==> k <= m
  {
    var m := MaxOf(keys);
  }

  /** The id sqlite gives a new row of a table without AUTOINCREMENT: one more
      than the largest id present, or 1 when the table is empty. */
  function NextId(keys: set<nat>): (id: nat)
    ensures id > 0 && id !in keys
    ensures forall k :: k in keys ==> k < id
    ensures keys == {} ==> id == 1
    ensures keys != {} ==> id - 1 in keys
  {
    if keys == {} then 1
    else
      MaxExists(keys);
      var m :| m in keys && forall k :: k in keys ==> k <= m;
      m + 1
  }

  /** The sum of the balances of all users. */
  ghost function Total(users: map<UserId, User>): int
    decreases users.Keys
  {
    if users == map[] then 0
    else
      var k :| k in users;
      users[k].balance + Total(users - {k})
  }

  /** The sum does not depend on which user is taken out first. */
  lemma {:induction false} TotalRemove(users: map<UserId, User>, k: UserId)
    requires k in users
    ensures Total(users) == users[k].balance + Total(users - {k})
    decreases users.Keys
  {
    var j :| j in users && Total(users) == users[j].balance + Total(users - {j});
    if j != k {
      TotalRemove(users - {j}, k);
      TotalRemove(users - {k}, j);
      assert users - {j} - {k} == users - {k} - {j};
    }
  }

  /** Replacing one user's record shifts the sum by the change of its balance. */
  lemma TotalUpdate(users: map<UserId, User>, k: UserId, u: User)
    requires k in users
    ensures Total(users[k := u]) == Total(users) - users[k].balance + u.balance
  {
    TotalRemove(users[k := u], k);
    TotalRemove(users, k);
    assert users[k := u] - {k} == users - {k};
  }
}
