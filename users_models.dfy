/**
 * The user table and the subscription table of backend/users/models.py:
 * their rows as values and their declared constraints as predicates over
 * whole tables. A table is a map from primary key to row.
 */
module Users {

  type UserId = nat
  type RowId = nat

  /** A registered user; the password is stored as the hash it already is. */
  datatype User = User(
    email: string,
    username: string,
    firstName: string,
    lastName: string,
    password: string)

  /** The string form of a user. */
  function Str(u: User): string {
    u.username
  }

  /** `email` is declared unique. */
  ghost predicate EmailUnique(users: map<UserId, User>) {
    forall a, b :: a in users && b in users && a != b ==> users[a].email != users[b].email
  }

  /** `username` is declared unique. */
  ghost predicate UsernameUnique(users: map<UserId, User>) {
    forall a, b :: a in users && b in users && a != b ==> users[a].username != users[b].username
  }

  /** The constraint `unique_username_email` on the pair (username, email). */
  ghost predicate UsernameEmailUnique(users: map<UserId, User>) {
    forall a, b :: a in users && b in users && a != b ==>
      (users[a].username, users[a].email) != (users[b].username, users[b].email)
  }

  ghost predicate UsersValid(users: map<UserId, User>) {
    EmailUnique(users) && UsernameUnique(users) && UsernameEmailUnique(users)
  }

  /**
   * In a valid user table the string form identifies the user: two users
   * that print the same are the same row.
   */
  lemma StrIdentifiesUser(users: map<UserId, User>, a: UserId, b: UserId)
    requires UsersValid(users)
    requires a in users && b in users
    ensures Str(users[a]) == Str(users[b]) <==> a == b
  {
  }

  /** One row of the subscription table: `user` follows `author`. */
  datatype Subscription = Subscription(user: UserId, author: UserId)

  /**
   * Both foreign keys point at users, the pair (user, author) occurs in at
   * most one row (`unique_subscription`) and no user follows themself
   * (`no_self_subscription`).
   */
  ghost predicate SubscriptionsValid(users: map<UserId, User>, subs: map<RowId, Subscription>) {
    && (forall k :: k in subs ==> subs[k].user in users && subs[k].author in users)
    && (forall k1, k2 :: k1 in subs && k2 in subs && k1 != k2 ==> subs[k1] != subs[k2])
    && (forall k :: k in subs ==> subs[k].user != subs[k].author)
  }

  /** `user.subscriber_user.filter(author=author).exists()`. */
  predicate Subscribed(subs: map<RowId, Subscription>, user: UserId, author: UserId) {
    Subscription(user, author) in subs.Values
  }

  /**
   * The cascade of deleting user `u` on the subscription table: both foreign
   * keys are declared with on_delete=CASCADE.
   */
  function RemoveUserSubscriptions(subs: map<RowId, Subscription>, u: UserId): (r: map<RowId, Subscription>)
    ensures forall k :: k in r ==> r[k].user != u && r[k].author != u
    ensures forall k :: k in subs && subs[k].user != u && subs[k].author != u ==> k in r && r[k] == subs[k]
    ensures r.Keys <= subs.Keys
  {
    map k | k in subs && subs[k].user != u && subs[k].author != u :: subs[k]
  }
}
