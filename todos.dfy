/** The todo route: GET lists the caller's todos matching a search text, newest
    first, one page at a time; POST creates a todo, capping free users at three. */
module TodosRoute {
  import opened Wrappers
  import opened Schema
  import opened Store
  import opened Helpers
  import opened Seqs
  import opened Paging

  /** Most todos a user without a subscription may own. */
  const FREE_TODO_LIMIT: nat := 3

  /** Case folding of one character (ASCII letters only). */
  function LowerChar(c: char): char
  {
    if 'A' <= c <= 'Z' then (c as int + ('a' as int - 'A' as int)) as char else c
  }

  /** The case-folded text compared by a `mode: "insensitive"` match. */
  function Fold(s: string): (r: string)
    ensures |r| == |s|
    ensures forall i :: 0 <= i < |s| ==> r[i] == LowerChar(s[i])
  {
    seq(|s|, i requires 0 <= i < |s| => LowerChar(s[i]))
  }

  /** `part` occurs somewhere in `text`: SQL `LIKE '%part%'`. */
  predicate Contains(text: string, part: string)
    decreases |text|
  {
    part <= text || (text != [] && Contains(text[1..], part))
  }

  /** The `where` clause of both queries: owned by the caller, title containing
      the search text regardless of case. */
  predicate Matches(t: Todo, userId: string, search: string)
  {
    t.userId == Some(userId) && Contains(Fold(t.title), Fold(search))
  }

  function Matching(todos: seq<Todo>, userId: string, search: string): (r: seq<Todo>)
    ensures forall t :: t in r <==> t in todos && Matches(t, userId, search)
  {
    Filter(todos, (t: Todo) => Matches(t, userId, search))
  }

  datatype Reply =
    | Unauthorized
    | UserNotFound
    | FreeTierLimit
    | InternalError
    | Page(todos: seq<Todo>, currentPage: int, totalPages: nat)
    | Created(todo: Todo)
  {
    function Code(): int
    {
      match this
      case Unauthorized => 401
      case UserNotFound => 404
      case FreeTierLimit => 403
      case InternalError => 500
      case Page(_, _, _) => 200
      case Created(_) => 201
    }
  }

  /** GET. A page number below 1 gives a negative `skip`, which Prisma refuses by throwing. */
  function List(s: State, caller: Option<string>, page: int, search: string): Reply
  {
    if !Present(caller) then Unauthorized
    else if page < 1 then InternalError
    else
      var matching := Matching(s.todos, caller.value, search);
      Page(PageOf(NewestFirst(matching), page), page, TotalPages(|matching|))
  }

  /** POST. A missing title violates `title not null`; a clashing id, the primary key. */
  function Create(s: State, caller: Option<string>, title: Option<string>, newId: string, now: Millis): Outcome<Reply>
  {
    if !Present(caller) then Outcome(s, Unauthorized)
    else
      var k := UserIndex(s.users, caller.value);
      if k.None? then Outcome(s, UserNotFound)
      else if !s.users[k.value].isSubscribed && |TodosOf(s.todos, caller.value)| >= FREE_TODO_LIMIT then
        Outcome(s, FreeTierLimit)
      else if title.None? then Outcome(s, InternalError)
      else
        var todo := NewTodo(newId, title.value, Some(caller.value), now);
        match InsertTodo(s, todo)
        case None => Outcome(s, InternalError)
        case Some(s') => Outcome(s', Created(todo))
  }

  method Post(db: Database, caller: Option<string>, title: Option<string>, newId: string, now: Millis)
    returns (reply: Reply)
    modifies db
    ensures Outcome(db.Snapshot(), reply) == Create(old(db.Snapshot()), caller, title, newId, now)
  {
    if !Present(caller) {
      return Unauthorized;
    }
    var userId := caller.value;
    var k := UserIndex(db.users, userId);
    if k.None? {
      return UserNotFound;
    }
    if !db.users[k.value].isSubscribed && |TodosOf(db.todos, userId)| >= FREE_TODO_LIMIT {
      return FreeTierLimit;
    }
    if title.None? {
      return InternalError;
    }
    var todo := NewTodo(newId, title.value, Some(userId), now);
    if HasTodo(db.todos, newId) {
      return InternalError;
    }
    db.todos := db.todos + [todo];
    return Created(todo);
  }

  /** GET returns only the caller's todos whose title contains the search text,
      newest first, at most ITEMS_PER_PAGE of them, starting at (page - 1) * ITEMS_PER_PAGE
      of the whole matching list; `totalPages` counts that same list. */
  lemma ListIsPageOfMatching(s: State, userId: string, page: int, search: string)
    requires userId != "" && page >= 1
    ensures var r := List(s, Some(userId), page, search);
            var ordered := NewestFirst(Matching(s.todos, userId, search));
            r.Page? && r.currentPage == page &&
            |r.todos| <= ITEMS_PER_PAGE &&
            NewestFirstOrdered(r.todos) &&
            r.totalPages == TotalPages(|ordered|) &&
            (forall k :: 0 <= k < |r.todos| ==> r.todos[k] == ordered[Skip(page) + k]) &&
            (forall t :: t in r.todos ==> t in s.todos && Matches(t, userId, search)) &&
            (r.todos != [] <==> page <= r.totalPages)
  {
    var matching := Matching(s.todos, userId, search);
    NewestFirstPage(matching, page);
    assert |NewestFirst(matching)| == |matching| by {
      assert |multiset(NewestFirst(matching))| == |multiset(matching)|;
    }
  }

  /** With an empty search every todo the caller owns matches. */
  lemma EmptySearchMatchesAll(todos: seq<Todo>, userId: string)
    ensures Matching(todos, userId, "") == TodosOf(todos, userId)
  {
    assert Fold("") == "";
    forall t: Todo ensures Matches(t, userId, "") == (t.userId == Some(userId)) {
      assert [] <= Fold(t.title);
    }
    FilterSame(todos, (t: Todo) => Matches(t, userId, ""), (t: Todo) => t.userId == Some(userId));
  }

  /** POST without a caller is 401, for an unknown caller 404; nothing is created. */
  lemma CreateNeedsKnownUser(s: State, caller: Option<string>, title: Option<string>, newId: string, now: Millis)
    requires !Present(caller) || !HasUser(s.users, caller.value)
    ensures var o := Create(s, caller, title, newId, now);
            o.next == s && o.reply.Code() == (if Present(caller) then 404 else 401)
  {
  }

  /** A user without a subscription who already owns three todos gets 403 and
      the todos stay as they were. */
  lemma CreateCapped(s: State, userId: string, title: Option<string>, newId: string, now: Millis)
    requires userId != "" && UserIndex(s.users, userId).Some?
    requires !s.users[UserIndex(s.users, userId).value].isSubscribed
    requires |TodosOf(s.todos, userId)| >= FREE_TODO_LIMIT
    ensures Create(s, Some(userId), title, newId, now) == Outcome(s, FreeTierLimit)
  {
  }

  /** A successful POST appends exactly one todo, with the given title, owned by
      the caller, not completed and stamped `now`; nothing else changes. */
  lemma CreateAppendsOne(s: State, userId: string, title: Option<string>, newId: string, now: Millis)
    requires userId != ""
    ensures var o := Create(s, Some(userId), title, newId, now);
            o.reply.Created? ==>
              title.Some? &&
              o.next == s.(todos := s.todos + [o.reply.todo]) &&
              o.reply.todo.title == title.value && o.reply.todo.userId == Some(userId) &&
              o.reply.todo.id == newId && !o.reply.todo.completed &&
              o.reply.todo.createdAt == now && o.reply.todo.updatedAt == now
  {
  }

  /** A known caller who is subscribed, or owns fewer than three todos, and sends
      a title gets 201 and exactly one new todo, provided the fresh id is unused. */
  lemma CreateSucceeds(s: State, userId: string, title: Option<string>, newId: string, now: Millis)
    requires userId != "" && UserIndex(s.users, userId).Some?
    requires s.users[UserIndex(s.users, userId).value].isSubscribed || |TodosOf(s.todos, userId)| < FREE_TODO_LIMIT
    requires title.Some? && !HasTodo(s.todos, newId)
    ensures var todo := NewTodo(newId, title.value, Some(userId), now);
            Create(s, Some(userId), title, newId, now) == Outcome(s.(todos := s.todos + [todo]), Created(todo))
  {
  }

  /** A successful POST by a user without a subscription never leaves them
      with more than three todos. */
  lemma {:induction false} FreeTierBound(s: State, userId: string, title: Option<string>, newId: string, now: Millis)
    requires userId != "" && UserIndex(s.users, userId).Some?
    requires !s.users[UserIndex(s.users, userId).value].isSubscribed
    ensures var o := Create(s, Some(userId), title, newId, now);
            o.reply.Created? ==> |TodosOf(o.next.todos, userId)| <= FREE_TODO_LIMIT
  {
    var o := Create(s, Some(userId), title, newId, now);
    if o.reply.Created? {
      var todo := o.reply.todo;
      FilterAppend(s.todos, [todo], (t: Todo) => t.userId == Some(userId));
      assert [todo][1..] == [];
    }
  }

  /** POST keeps every schema constraint. */
  lemma CreateKeepsValid(s: State, caller: Option<string>, title: Option<string>, newId: string, now: Millis)
    requires Valid(s)
    ensures Valid(Create(s, caller, title, newId, now).next)
  {
    if Present(caller) && title.Some? {
      var todo := NewTodo(newId, title.value, Some(caller.value), now);
      if InsertTodo(s, todo).Some? {
        InsertTodoKeepsValid(s, todo);
      }
    }
  }
}
