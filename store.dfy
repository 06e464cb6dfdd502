/** The shared database the route handlers read and write. */
module Store {
  import opened Schema

  /** What a handler leaves behind: the next store contents and its reply. */
  datatype Outcome<R> = Outcome(next: State, reply: R)

  /** The database: its three tables, each updated in place by the handlers. */
  class Database {
    var users: seq<User>
    var todos: seq<Todo>
    var subscriptions: seq<StripeSubscription>

    /** The current contents of every table. */
    function Snapshot(): State
      reads this
    {
      State(users, todos, subscriptions)
    }

    constructor (initial: State)
      ensures Snapshot() == initial
    {
      users := initial.users;
      todos := initial.todos;
      subscriptions := initial.subscriptions;
    }
  }
}
