/** The two routers (authRouter.js, todoRouter.js) reduced to what matters for
    behaviour: which routes pass through the `userAuth` gate, and a server that
    runs a request through the gate, when the route has one, and then through
    its handler, against one client's session. */
module Routes {
  import opened Wrappers
  import opened Http
  import opened UserModel
  import opened TodoModel
  import opened UserAuth
  import AC = AuthController
  import TC = TodoController
  import Bcrypt

  datatype Route =
    | Register | Login | Logout | IsAuthenticated | VerifyKeyReset | ResetPassword
    | Data | UpdateBio | UploadImage | UpdateProfile
    | AddTodo | EditTodo | DeleteTodo | GetTodo

  /** The routes registered with `userAuth` in front of their handler. */
  predicate IsGated(route: Route) {
    match route
    case IsAuthenticated | Data | UpdateBio | UpdateProfile => true
    case AddTodo | EditTodo | DeleteTodo | GetTodo => true
    case Register | Login | Logout | VerifyKeyReset | ResetPassword | UploadImage => false
  }

  /** What the server does with a request on `route` that has passed the gate,
      or needs none, from account state `a` and todo state `t` to `a'` and
      `t'`: the route's handler runs, the gated ones on behalf of the
      session's user. Only the data route returns a record and only the
      listing returns todos. `destroyFails` is the session store's answer to
      a logout. */
  ghost predicate Served(hasher: Bcrypt.Hasher, route: Route, b: RequestBody, destroyFails: bool,
                         a: AC.Accounts, t: TC.Todos,
                         r: Response, userData: Option<User>, todos: seq<Todo>,
                         a': AC.Accounts, t': TC.Todos)
    requires ValidUsers(a.users)
  {
    (route != Data ==> userData == None) && (route != GetTodo ==> todos == []) &&
    match route
    case Register => AC.Registered(hasher, a, b.fullName, b.email, b.password, b.secretKey, r, a') && t' == t
    case Login => AC.LoggedIn(hasher, a, b.email, b.password, r, a') && t' == t
    case Logout => AC.LoggedOut(a, destroyFails, r, a') && t' == t
    case VerifyKeyReset => AC.KeyChecked(hasher, a.users, b.email, b.key, r) && a' == a && t' == t
    case ResetPassword => AC.PasswordReset(hasher, a, b.email, b.newPassword, r, a') && t' == t
    case IsAuthenticated => a.session.Some? && r == Response(200, true, None) && a' == a && t' == t
    case Data => a.session.Some? && AC.UserDataServed(a.users, a.session.value, r, userData) && a' == a && t' == t
    case UpdateBio => a.session.Some? && AC.BioUpdated(a, a.session.value, b.newbio, r, a') && t' == t
    case UpdateProfile => a.session.Some? && AC.ProfileUpdated(a, a.session.value, b.imageUrl, r, a') && t' == t
    case AddTodo => a.session.Some? && TC.Added(t, a.session.value, b.title, r, t') && a' == a
    case EditTodo => a.session.Some? && TC.Edited(t, b.todoId, b.title, b.completed, r, t') && a' == a
    case DeleteTodo => a.session.Some? && TC.Deleted(t, b.todoId, r, t') && a' == a
    case GetTodo => a.session.Some? && TC.Listed(t.todos, a.session.value, r, todos) && a' == a && t' == t
    case UploadImage => false
  }

  /** The outcome never depends on the `userId` the client put in the body:
      the gated handlers act for the session's user. */
  lemma ServedIgnoresClientUserId(hasher: Bcrypt.Hasher, route: Route, b: RequestBody, claimed: Option<UserId>,
                                  destroyFails: bool, a: AC.Accounts, t: TC.Todos, r: Response,
                                  userData: Option<User>, todos: seq<Todo>, a': AC.Accounts, t': TC.Todos)
    requires ValidUsers(a.users)
    ensures Served(hasher, route, b, destroyFails, a, t, r, userData, todos, a', t') <==>
      Served(hasher, route, b.(userId := claimed), destroyFails, a, t, r, userData, todos, a', t')
  {
  }

  /** No handler answers 401: that reply comes from the gate alone. */
  lemma ServedNeverUnauthorized(hasher: Bcrypt.Hasher, route: Route, b: RequestBody, destroyFails: bool,
                                a: AC.Accounts, t: TC.Todos, r: Response, userData: Option<User>,
                                todos: seq<Todo>, a': AC.Accounts, t': TC.Todos)
    requires ValidUsers(a.users) && Served(hasher, route, b, destroyFails, a, t, r, userData, todos, a', t')
    ensures r.status != 401 && r != Unauthorized
  {
  }

  /** Gated routes never change the session; routes without a gate never
      touch the todos. */
  lemma ServedSessionAndTodos(hasher: Bcrypt.Hasher, route: Route, b: RequestBody, destroyFails: bool,
                              a: AC.Accounts, t: TC.Todos, r: Response, userData: Option<User>,
                              todos: seq<Todo>, a': AC.Accounts, t': TC.Todos)
    requires ValidUsers(a.users) && Served(hasher, route, b, destroyFails, a, t, r, userData, todos, a', t')
    ensures IsGated(route) ==> a'.session == a.session
    ensures !IsGated(route) ==> t' == t
  {
  }

  /** What the session's user reaches: the data route returns that user's
      record, a profile update changes no other user, a new todo belongs to
      that user, and the listing holds only that user's todos. */
  lemma ServedActsForSessionUser(hasher: Bcrypt.Hasher, route: Route, b: RequestBody, destroyFails: bool,
                                 a: AC.Accounts, t: TC.Todos, r: Response, userData: Option<User>,
                                 todos: seq<Todo>, a': AC.Accounts, t': TC.Todos)
    requires ValidUsers(a.users) && Served(hasher, route, b, destroyFails, a, t, r, userData, todos, a', t')
    requires a.session.Some? ==> a.session.value in a.users
    ensures route == IsAuthenticated ==> r.success
    ensures route == Data ==> userData == Some(a.users[a.session.value])
    ensures (route == UpdateBio || route == UpdateProfile) ==>
      forall id :: id in a.users && Some(id) != a.session ==> id in a'.users && a'.users[id] == a.users[id]
    ensures route == AddTodo ==> forall x :: x in t'.todos && x !in t.todos ==> Some(x.userId) == a.session
    ensures route == GetTodo ==> forall x :: x in todos ==> Some(x.userId) == a.session
  {
  }

  class Server {
    const accounts: AC.AccountService
    const store: TC.TodoStore

    /** Both collections are valid, the session names a stored user, and every
        todo's owner is a stored user (the `ref: 'User'` of the Todo schema). */
    ghost predicate Valid()
      reads this, accounts, store
    {
      accounts.Valid() && store.Valid() &&
      forall k :: 0 <= k < |store.todos| ==> store.todos[k].userId in accounts.users
    }

    constructor (hasher: Bcrypt.Hasher)
      ensures Valid() && fresh(accounts) && fresh(store)
      ensures accounts.hasher == hasher && accounts.users == map[] && accounts.session == None
      ensures store.todos == [] && accounts.nextId == 0 && store.nextId == 0
    {
      accounts := new AC.AccountService(hasher);
      store := new TC.TodoStore();
    }

    /** One request on `route` with body `body`. A gated route without a
        session user gets 401 and changes nothing; every other request is
        served by its handler as `Served` describes, so gated routes never
        touch the session, the todo collection is reachable only through the
        gate, a todo is created only for the session's user, and a profile
        update reaches no other user. */
    method Handle(route: Route, body: RequestBody, destroyFails: bool)
      returns (r: Response, userData: Option<User>, todos: seq<Todo>)
      requires Valid() && route != UploadImage
      modifies accounts, store
      ensures Valid()
      ensures IsGated(route) ==> (r == Unauthorized <==> old(accounts.session).None?)
      ensures IsGated(route) && old(accounts.session).None? ==>
        unchanged(accounts) && unchanged(store) && userData == None && todos == []
      ensures !IsGated(route) || old(accounts.session).Some? ==>
        Served(accounts.hasher, route, body, destroyFails, old(accounts.State()), old(store.State()),
               r, userData, todos, accounts.State(), store.State())
      ensures IsGated(route) ==> accounts.session == old(accounts.session)
      ensures !IsGated(route) ==> unchanged(store)
      ensures route == IsAuthenticated ==> r.success == old(accounts.session).Some?
      ensures route == Data && old(accounts.session).Some? ==>
        userData == Some(old(accounts.users)[old(accounts.session).value])
      ensures (route == UpdateBio || route == UpdateProfile) ==>
        forall id :: id in old(accounts.users) && Some(id) != old(accounts.session) ==>
          id in accounts.users && accounts.users[id] == old(accounts.users)[id]
      ensures route == AddTodo ==>
        forall t :: t in store.todos && t !in old(store.todos) ==> Some(t.userId) == old(accounts.session)
      ensures route == GetTodo ==> forall t :: t in todos ==> Some(t.userId) == old(accounts.session)
    {
      userData, todos := None, [];
      var req := new Request(body);
      if IsGated(route) {
        var rejected := Gate(req, accounts.session);
        if rejected.Some? {
          r := rejected.value;
          return;
        }
      }
      ghost var a, t := accounts.State(), store.State();
      var b := req.body;
      if route.AddTodo? || route.EditTodo? || route.DeleteTodo? || route.GetTodo? {
        r, userData, todos := HandleTodo(route, b, destroyFails);
      } else if IsGated(route) {
        r, userData, todos := HandleProfile(route, b, destroyFails);
      } else {
        r, userData, todos := HandleOpen(route, b, destroyFails);
      }
      ServedIgnoresClientUserId(accounts.hasher, route, body, b.userId, destroyFails, a, t, r, userData, todos,
                                accounts.State(), store.State());
      ServedNeverUnauthorized(accounts.hasher, route, body, destroyFails, a, t, r, userData, todos,
                              accounts.State(), store.State());
      ServedSessionAndTodos(accounts.hasher, route, body, destroyFails, a, t, r, userData, todos,
                            accounts.State(), store.State());
      ServedActsForSessionUser(accounts.hasher, route, body, destroyFails, a, t, r, userData, todos,
                               accounts.State(), store.State());
    }

    /** The todo routes, past the gate, which has put the session's user into
        the body. */
    method HandleTodo(route: Route, b: RequestBody, destroyFails: bool)
      returns (r: Response, userData: Option<User>, todos: seq<Todo>)
      requires Valid() && accounts.session.Some? && b.userId == accounts.session
      requires route.AddTodo? || route.EditTodo? || route.DeleteTodo? || route.GetTodo?
      modifies store
      ensures Valid()
      ensures Served(accounts.hasher, route, b, destroyFails, old(accounts.State()), old(store.State()),
                     r, userData, todos, accounts.State(), store.State())
    {
      var userId := b.userId.value;
      userData, todos := None, [];
      match route {
        case AddTodo =>
          r := store.AddTodo(userId, b.title);
        case EditTodo =>
          r := store.EditTodo(b.todoId, b.title, b.completed);
        case DeleteTodo =>
          r := store.DeleteTodo(b.todoId);
        case GetTodo =>
          r, todos := store.GetTodo(userId);
      }
    }

    /** The gated account routes, past the gate, which has put the session's
        user into the body. */
    method HandleProfile(route: Route, b: RequestBody, destroyFails: bool)
      returns (r: Response, userData: Option<User>, todos: seq<Todo>)
      requires Valid() && accounts.session.Some? && b.userId == accounts.session
      requires route.IsAuthenticated? || route.Data? || route.UpdateBio? || route.UpdateProfile?
      modifies accounts
      ensures Valid()
      ensures Served(accounts.hasher, route, b, destroyFails, old(accounts.State()), old(store.State()),
                     r, userData, todos, accounts.State(), store.State())
    {
      var userId := b.userId.value;
      userData, todos := None, [];
      match route {
        case IsAuthenticated =>
          r := accounts.IsAuthenticated();
        case Data =>
          r, userData := accounts.GetUserData(userId);
        case UpdateBio =>
          r := accounts.UpdateBio(userId, b.newbio);
        case UpdateProfile =>
          r := accounts.UpdateProfile(userId, b.imageUrl);
      }
    }

    /** The routes without a gate. */
    method HandleOpen(route: Route, b: RequestBody, destroyFails: bool)
      returns (r: Response, userData: Option<User>, todos: seq<Todo>)
      requires Valid() && !IsGated(route) && route != UploadImage
      modifies accounts
      ensures Valid()
      ensures Served(accounts.hasher, route, b, destroyFails, old(accounts.State()), old(store.State()),
                     r, userData, todos, accounts.State(), store.State())
    {
      userData, todos := None, [];
      match route {
        case Register =>
          r := accounts.Register(b.fullName, b.email, b.password, b.secretKey);
        case Login =>
          r := accounts.Login(b.email, b.password);
        case Logout =>
          r := accounts.Logout(destroyFails);
        case VerifyKeyReset =>
          r := accounts.VerifySecretKey(b.email, b.key);
        case ResetPassword =>
          r := accounts.ResetPassword(b.email, b.newPassword);
      }
    }
  }
}
