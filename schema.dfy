/** The `users` and `todos` tables and the Stripe subscription rows, with the
    defaults and constraints the schema declares for them. */
module Schema {
  import opened Wrappers
  import opened Seqs

  /** A timestamp: milliseconds since the epoch, the resolution of a JavaScript `Date`. */
  type Millis = int

  /** Length of the `varchar(36)` id columns. */
  const ID_LENGTH: nat := 36
  /** Length of the `varchar(255)` email column. */
  const EMAIL_LENGTH: nat := 255

  /** A row of `users`; `subscriptionEnds` is nullable. */
  datatype User = User(id: string, email: string, isSubscribed: bool, subscriptionEnds: Option<Millis>)

  /** A row of `todos`; `userId` is a nullable reference to `users.id`. */
  datatype Todo = Todo(id: string, title: string, completed: bool, userId: Option<string>,
                       createdAt: Millis, updatedAt: Millis)

  /** The two statuses the handlers ever write: "inActive" and "active". */
  datatype SubscriptionStatus = InActive | Active

  /** A row of the Stripe subscription table, with the fields the webhook inserts. */
  datatype StripeSubscription = StripeSubscription(
    id: string, customerId: string, status: SubscriptionStatus, priceId: Option<string>,
    startDate: Millis, endDate: Millis, cancelAt: bool, userId: string)

  /** The whole record store, each table in row order. */
  datatype State = State(users: seq<User>, todos: seq<Todo>, subscriptions: seq<StripeSubscription>)

  /** A user row as the column defaults make it. */
  function NewUser(id: string, email: string): (u: User)
    ensures u.id == id && u.email == email
    ensures !u.isSubscribed && u.subscriptionEnds == None
  {
    User(id, email, false, None)
  }

  /** A todo row as the column defaults make it at time `now`. */
  function NewTodo(id: string, title: string, userId: Option<string>, now: Millis): (t: Todo)
    ensures t.id == id && t.title == title && t.userId == userId
    ensures !t.completed && t.createdAt == now && t.updatedAt == now
  {
    Todo(id, title, false, userId, now, now)
  }

  predicate HasUser(users: seq<User>, id: string)
  {
    exists i :: 0 <= i < |users| && users[i].id == id
  }

  predicate EmailTaken(users: seq<User>, email: string)
  {
    exists i :: 0 <= i < |users| && users[i].email == email
  }

  predicate HasTodo(todos: seq<Todo>, id: string)
  {
    exists i :: 0 <= i < |todos| && todos[i].id == id
  }

  /** `id` is the primary key of `users`; `email` is unique and not null. */
  predicate UsersWellFormed(users: seq<User>)
  {
    (forall i :: 0 <= i < |users| ==> |users[i].id| <= ID_LENGTH && |users[i].email| <= EMAIL_LENGTH) &&
    (forall i, j :: 0 <= i < j < |users| ==> users[i].id != users[j].id && users[i].email != users[j].email)
  }

  /** `id` is the primary key of `todos`; `userId` references an existing user. */
  predicate TodosWellFormed(todos: seq<Todo>, users: seq<User>)
  {
    (forall i, j :: 0 <= i < j < |todos| ==> todos[i].id != todos[j].id) &&
    (forall i :: 0 <= i < |todos| && todos[i].userId.Some? ==> HasUser(users, todos[i].userId.value))
  }

  /** Every constraint the schema declares holds. */
  predicate Valid(s: State)
  {
    UsersWellFormed(s.users) && TodosWellFormed(s.todos, s.users)
  }

  /** Inserting a user: rejected when a column is too long, the id is taken
      or the email is already in use. */
  function InsertUser(s: State, id: string, email: string): (r: Option<State>)
    ensures r.Some? <==> |id| <= ID_LENGTH && |email| <= EMAIL_LENGTH && !HasUser(s.users, id) && !EmailTaken(s.users, email)
    ensures r.Some? ==> r.value == s.(users := s.users + [NewUser(id, email)])
  {
    if |id| <= ID_LENGTH && |email| <= EMAIL_LENGTH && !HasUser(s.users, id) && !EmailTaken(s.users, email)
    then Some(s.(users := s.users + [NewUser(id, email)]))
    else None
  }

  /** Inserting a todo: rejected when its id is taken or its owner does not exist. */
  function InsertTodo(s: State, t: Todo): (r: Option<State>)
    ensures r.Some? <==> !HasTodo(s.todos, t.id) && (t.userId.Some? ==> HasUser(s.users, t.userId.value))
    ensures r.Some? ==> r.value == s.(todos := s.todos + [t])
  {
    if !HasTodo(s.todos, t.id) && (t.userId.Some? ==> HasUser(s.users, t.userId.value))
    then Some(s.(todos := s.todos + [t]))
    else None
  }

  /** Rewriting only non-key fields keeps the user constraints and the set of user ids. */
  lemma {:induction false} SameIdsSameUsers(users: seq<User>, users': seq<User>)
    requires |users'| == |users|
    requires forall i :: 0 <= i < |users| ==> users'[i].id == users[i].id && users'[i].email == users[i].email
    ensures UsersWellFormed(users) ==> UsersWellFormed(users')
    ensures forall id :: HasUser(users, id) <==> HasUser(users', id)
  {
    forall id ensures HasUser(users, id) <==> HasUser(users', id) {
      if HasUser(users, id) {
        var i :| 0 <= i < |users| && users[i].id == id;
        assert users'[i].id == id;
      }
      if HasUser(users', id) {
        var i :| 0 <= i < |users'| && users'[i].id == id;
        assert users[i].id == id;
      }
    }
  }

  /** An accepted user insertion keeps every schema constraint. */
  lemma InsertUserKeepsValid(s: State, id: string, email: string)
    requires Valid(s) && InsertUser(s, id, email).Some?
    ensures Valid(InsertUser(s, id, email).value)
  {
    var s' := InsertUser(s, id, email).value;
    forall j | 0 <= j < |s.todos| && s.todos[j].userId.Some?
      ensures HasUser(s'.users, s.todos[j].userId.value)
    {
      var k :| 0 <= k < |s.users| && s.users[k].id == s.todos[j].userId.value;
      assert s'.users[k] == s.users[k];
    }
  }

  /** An accepted todo insertion keeps every schema constraint. */
  lemma InsertTodoKeepsValid(s: State, t: Todo)
    requires Valid(s) && InsertTodo(s, t).Some?
    ensures Valid(InsertTodo(s, t).value)
  {
    var s' := InsertTodo(s, t).value;
    forall i, j | 0 <= i < j < |s'.todos| ensures s'.todos[i].id != s'.todos[j].id {
      if j == |s.todos| {
        assert s'.todos[i] == s.todos[i];
      }
    }
  }

  /** Deleting one todo row keeps every schema constraint. */
  lemma DeleteTodoKeepsValid(s: State, i: nat)
    requires Valid(s) && i < |s.todos|
    ensures Valid(s.(todos := s.todos[..i] + s.todos[i + 1..]))
  {
    var rest := s.todos[..i] + s.todos[i + 1..];
    assert forall a :: 0 <= a < |rest| ==> rest[a] == s.todos[if a < i then a else a + 1];
  }

  /** A subscription row that counts as active for `userId` at time `now`:
      status "active" and an end date still in the future. */
  predicate ActiveFor(row: StripeSubscription, userId: string, now: Millis)
  {
    row.userId == userId && row.status == Active && row.endDate > now
  }

  /** The first subscription row active for `userId` at `now`, if any. */
  function FirstActive(subscriptions: seq<StripeSubscription>, userId: string, now: Millis): (r: Option<nat>)
    ensures r.Some? ==> r.value < |subscriptions| && ActiveFor(subscriptions[r.value], userId, now)
    ensures r.Some? ==> forall j :: 0 <= j < r.value ==> !ActiveFor(subscriptions[j], userId, now)
    ensures r.None? <==> forall i :: 0 <= i < |subscriptions| ==> !ActiveFor(subscriptions[i], userId, now)
  {
    FirstWhere(subscriptions, row => ActiveFor(row, userId, now))
  }

  /** `update users set isSubscribed, subscriptionEnds where id = userId`:
      every row with that id is rewritten, and none at all when there is no such row. */
  function SetSubscription(users: seq<User>, userId: string, isSubscribed: bool, ends: Option<Millis>): (r: seq<User>)
    ensures |r| == |users|
    ensures forall i :: 0 <= i < |users| ==> r[i].id == users[i].id && r[i].email == users[i].email
    ensures forall i :: 0 <= i < |users| ==>
      r[i] == if users[i].id == userId then users[i].(isSubscribed := isSubscribed, subscriptionEnds := ends) else users[i]
  {
    UpdateWhere(users, (u: User) => u.id == userId, (u: User) => u.(isSubscribed := isSubscribed, subscriptionEnds := ends))
  }

  /** Changing a user's subscription fields keeps every schema constraint. */
  lemma SetSubscriptionKeepsValid(s: State, userId: string, isSubscribed: bool, ends: Option<Millis>)
    requires Valid(s)
    ensures Valid(s.(users := SetSubscription(s.users, userId, isSubscribed, ends)))
  {
    SameIdsSameUsers(s.users, SetSubscription(s.users, userId, isSubscribed, ends));
  }

  /** Index of the row of `users` whose id is `id`: `findFirst where id = …`. */
  function UserIndex(users: seq<User>, id: string): (r: Option<nat>)
    ensures r.Some? ==> r.value < |users| && users[r.value].id == id
    ensures r.Some? ==> forall j :: 0 <= j < r.value ==> users[j].id != id
    ensures r.None? <==> !HasUser(users, id)
  {
    FirstWhere(users, (u: User) => u.id == id)
  }

  /** Rewriting non-key fields does not move a user's row. */
  lemma {:induction false} UserIndexSameIds(users: seq<User>, users': seq<User>, id: string)
    requires |users'| == |users|
    requires forall i :: 0 <= i < |users| ==> users'[i].id == users[i].id
    ensures UserIndex(users', id) == UserIndex(users, id)
  {
    assert forall j :: 0 <= j < |users| ==> (users'[j].id == id <==> users[j].id == id);
    assert HasUser(users, id) <==> HasUser(users', id);
  }

  /** The todos a user owns, in row order: the `todos` relation of `users`. */
  function TodosOf(todos: seq<Todo>, userId: string): (r: seq<Todo>)
    ensures forall t :: t in r <==> t in todos && t.userId == Some(userId)
    ensures forall t :: multiset(r)[t] == if t.userId == Some(userId) then multiset(todos)[t] else 0
  {
    FilterMultiplicity(todos, (t: Todo) => t.userId == Some(userId));
    Filter(todos, (t: Todo) => t.userId == Some(userId))
  }
}
