# Todo list with accounts — a Dafny model of its server core and list view

The system is a small todo-list web application with two parts.

The back end has an account service: register, login, logout, a session check, secret-key verification, password reset, profile data, bio and profile image. It also has a todo service (add, edit, delete, list) and one authorization gate. The gate lets a request through only when its session names a user, and then writes that user's id into the request body.

The front end keeps the fetched todos with a per-entry "editing" flag and can restrict the view to completed todos.

This project models that core in Dafny and proves what it promises:

- **Validation rules** (`Credentials`). The email and password regular expressions are modelled as the languages they accept. Each is proved equal to its plain-words rule:
  - an email has no white space, exactly one `@` with something before it, and an inner `.` after it;
  - a password has at least eight characters, only ASCII letters and digits, and at least one of each.
- **JavaScript string primitives** (`JsStrings`): the `\s` set, `trim` and ASCII `toLowerCase`. Lemmas cover what trimming and lower-casing keep and remove.
- **Schemas** (`UserModel`, `TodoModel`) as records plus the invariants of their collections:
  - required fields are non-empty;
  - emails are in the normal form the `lowercase`/`trim` setters leave;
  - emails are unique;
  - titles are trimmed and non-empty.

  Email lookups go through the same setters as stored emails, because Mongoose casts query filters with the schema's setters.
- **Account service** (`AuthController.AccountService`): a class holding the user collection, the client's session slot and the next id. Each handler states every reply it can give, in the source's order of checks, and the exact new state.
- **Todo service** (`TodoController.TodoStore`): a class holding the todo sequence in insertion order. Each handler states its replies and its new state. Lemmas connect add, edit and delete to the per-owner listing.
- **Gate** (`UserAuth`): a function saying what the middleware decides, and a method that overwrites the request body in place.
- **Server** (`Routes.Server`): runs a request through the gate, where the route has one, and then through its handler. Each handler's outcome is a predicate over the state before and after (`Registered`, `Added`, …); the account and todo methods ensure it, and the server ensures that a request past the gate is served exactly as its route's predicate says. It proves:
  - a gated route answers 401 exactly when there is no session, and then changes nothing;
  - the client's own `userId` in the body never changes the outcome;
  - gated routes never touch the session;
  - new todos and listings belong to the session's user;
  - a profile update reaches no other user.
- **List view** (`TodoWrapper`): the editing toggle and the "show completed" filter as functions on sequences. It proves that toggling one id twice restores every editing state, reading an absent flag as false. The list itself comes back unchanged only when every toggled entry already carried the flag: an absent flag becomes `true`, then `false`. The filter picks the completed entries in order, each as often as in the list, and toggling and filtering commute.

External services are parameters:

- bcrypt's hash is a caller-supplied function;
- the session store's failure on logout is a boolean argument;
- the database is the in-memory state of the two classes.

Where the code departs from what the API's surface suggests, the model follows the code:

- **Logout** is registered without the gate (`backend/routes/authRouter.js:225`). It is therefore an open route here.
- **Unknown todo ids:** editing or deleting one answers 500 "Internal server error", not a 400 not-found reply (`backend/controller/todoController.js:33-34`, `:52-53`).
- **Blank titles:** a title of white space alone passes the handlers' emptiness test. It is then trimmed to "" by the schema and rejected by `required`, which lands in the handler's `catch` and answers 500.

Some questionable behaviour is kept exactly as written, and the contracts make it visible:

- `TodoStore.EditTodo` and `DeleteTodo` never compare the todo's owner with the caller.
- `AccountService.GetUserData` returns the stored digests.
- `AccountService.ResetPassword` never consults the secret key.

## Model

| member | source | states |
|---|---|---|
| Credentials.IsValidEmail | backend/controller/authController.js:7-10 | the language of `^[^\s@]+@[^\s@]+\.[^\s@]+$` with JavaScript's `\s`: an '@' and a later '.' split the string into three non-empty runs without white space or '@' |
| Credentials.IsValidPassword | backend/controller/authController.js:12-15 | the language of `^(?=.*[A-Za-z])(?=.*\d)[A-Za-z\d]{8,}$`, the lookaheads scanning only over characters `.` matches |
| Credentials.EmailPatternHasShape | backend/controller/authController.js:7-10 | every string the email pattern accepts has no white space, exactly one '@' with something before it, and a '.' strictly inside the part after it |
| Credentials.EmailShapeMatchesPattern | backend/controller/authController.js:7-10 | conversely, every string of that shape is accepted by the email pattern |
| Credentials.EmailRule | backend/controller/authController.js:7-10 | the email pattern accepts a string exactly when it has that shape |
| Credentials.PasswordRule | backend/controller/authController.js:12-15 | the password pattern, lookaheads included, accepts exactly the strings of at least 8 characters made only of ASCII letters and digits with at least one letter and one digit |
| JsStrings.Trim | backend/models/todoModel.js:9 | `String.prototype.trim`: removes JavaScript white space from both ends |
| JsStrings.Lower | backend/models/userModel.js:14 | `toLowerCase` on ASCII letters |
| JsStrings.TrimIsInnerSlice | backend/models/todoModel.js:9 | `trim` returns a contiguous piece of its input; only white space lies outside it; neither end of the result is white space |
| JsStrings.TrimIdempotent | backend/models/todoModel.js:9 | trimming a trimmed string changes nothing |
| JsStrings.TrimEmptyIff | backend/models/todoModel.js:9 | a string trims to "" exactly when it is all white space |
| JsStrings.TrimNoSpace | backend/models/userModel.js:15 | a string without white space is its own trim |
| JsStrings.LowerSpec | backend/models/userModel.js:14 | lower-casing keeps the length, leaves no ASCII capital, maps each capital to its small letter and keeps every other character |
| JsStrings.LowerNoUpper | backend/models/userModel.js:14 | lower-casing a string without capitals changes nothing |
| JsStrings.LowerAt | backend/models/userModel.js:14 | lower-casing keeps the length and maps each character on its own |
| JsStrings.TrimLowerCommute | backend/models/userModel.js:14-15 | trimming and lower-casing commute |
| Bcrypt.Hash | backend/controller/authController.js:38-39 | a digest is a non-empty string starting with '$' |
| Bcrypt.Compare | backend/controller/authController.js:69 | `bcrypt.compare(p, digest)` (also at :115): a password matches exactly the digest the hasher gives it |
| Bcrypt.CompareHash | backend/controller/authController.js:69 | a password always matches its own digest |
| UserModel.NormalizeEmail | backend/models/userModel.js:14-15 | the `email` setters `lowercase` and `trim`, lower-casing then trimming |
| UserModel.NormalizeEmailEitherOrder | backend/models/userModel.js:14-15 | the setters give the same email whichever of them runs first |
| UserModel.IsNormalEmail | backend/models/userModel.js:14-15 | the form the setters leave an email in: no ASCII capital and no white space at either end |
| UserModel.NormalizeEmailIsNormal | backend/models/userModel.js:10-16 | the email setters always leave an email without capitals and without white space at either end |
| UserModel.NormalEmailIsFixed | backend/models/userModel.js:10-16 | an email already in that form passes through the setters unchanged |
| UserModel.NormalizeEmailIdempotent | backend/models/userModel.js:10-16 | running the setters on a stored email again changes nothing |
| UserModel.NormalizeEmailNonEmpty | backend/models/userModel.js:12 | an email with a character other than white space stays non-empty through the setters, so `required` accepts it |
| UserModel.NewUser | backend/controller/authController.js:40-46 | a new user record has the normalized email, empty bio and profile image (the schema defaults), and the given name and digests |
| UserModel.IsStoredUser | backend/models/userModel.js:6-32 | a stored user has non-empty `fullName`, `email`, `password` and `secretKey` (the `required` options) and an email in the setters' normal form |
| UserModel.UniqueEmails | backend/models/userModel.js:13 | the unique index on `email`: no two stored users share an email |
| UserModel.ValidUsers | backend/models/userModel.js:5-32 | the invariant of the user collection: every record is a stored user and emails are unique |
| UserModel.UpdateKeepsValid | backend/controller/authController.js:147-148 | saving a changed record that keeps its email keeps the collection valid (required fields, normal emails, unique emails) |
| UserModel.InsertKeepsValid | backend/models/userModel.js:13 | inserting a valid record under a fresh id with an email no one holds keeps the collection valid |
| UserModel.FindByEmail | backend/controller/authController.js:33 | `findOne({email})` finds the user whose stored email equals the normalized query, or reports that none has it |
| UserModel.FindByKey | backend/models/userModel.js:13 | the lookup on the unique email path finds the user holding the key, or reports that none has it |
| UserModel.FindByEmailFindsStored | backend/controller/authController.js:33-36 | any spelling that normalizes to a stored email finds exactly that user, so a registered email is taken from then on and login reaches that account |
| TodoModel.CastTitle | backend/models/todoModel.js:6-10 | assigning a title succeeds exactly when it has a non-white-space character, and then stores its trim, which is non-empty and trimmed |
| TodoModel.BlankTitleRejected | backend/models/todoModel.js:6-10 | a non-empty title of white space alone is rejected by the schema |
| TodoModel.IsStoredTodo | backend/models/todoModel.js:6-10 | a stored todo's title is non-empty (`required`) and trimmed (`trim`) |
| AuthController.Registered | backend/controller/authController.js:17-54 | the outcome of `register`: missing field, bad email, weak password and taken email give 400 in that order with no change; otherwise exactly one user is added under the next id with digests of password and key, and the session is bound to it |
| AuthController.LoggedIn | backend/controller/authController.js:57-81 | the outcome of `login`: missing fields give 400; unknown email and wrong password give the same 400 "Invalid credentials" with no change; only a matching password binds the session |
| AuthController.LoggedOut | backend/controller/authController.js:84-90 | the outcome of `logout`: a session-store error gives 500 "Logout failed" and keeps the session; otherwise 200 "Logged out" and the session is cleared |
| AuthController.KeyChecked | backend/controller/authController.js:102-126 | the reply of `verifySecretKey`, one 400 message per failure, in the source's order |
| AuthController.PasswordReset | backend/controller/authController.js:129-157 | the outcome of `resetPassword`: missing fields, unknown user and weak password give 400 in that order with no change; otherwise only that user's password becomes the digest of the new one, without consulting the secret key |
| AuthController.UserDataServed | backend/controller/authController.js:160-174 | the reply of `getUserData`: the full stored record, digests included, or 400 "User not found" |
| AuthController.BioUpdated | backend/controller/authController.js:177-199 | the outcome of `updateBio`: an empty bio gives 400 before the lookup, an unknown user 400; otherwise only that user's bio changes |
| AuthController.ProfileUpdated | backend/controller/authController.js:202-218 | the outcome of `updateProfile`: an unknown user gives 400; otherwise only that user's profile image changes, to the URL sent |
| AuthController.LoginFailuresAlike | backend/controller/authController.js:64-72 | every login failure past the presence check is the same 400 "Invalid credentials" with no change, so an unknown email and a wrong password look alike |
| AuthController.KeyCheckedSucceedsIff | backend/controller/authController.js:102-126 | the key check succeeds exactly when both fields are present, the user exists and the key matches the stored digest |
| AuthController.AccountService.Valid | backend/models/userModel.js:5-32 | the service's invariant: the user collection is valid, every id is below the next id, and the session names a stored user |
| AuthController.AccountService.Register | backend/controller/authController.js:17-54 | the service moves from its state to one `Registered` allows, keeps the collection invariant (required fields, normal and unique emails), and gives a created user an id no stored user has |
| AuthController.AccountService.Login | backend/controller/authController.js:57-81 | the service moves as `LoggedIn` says and keeps its invariant |
| AuthController.AccountService.Logout | backend/controller/authController.js:84-90 | the service moves as `LoggedOut` says and keeps its invariant |
| AuthController.AccountService.IsAuthenticated | backend/controller/authController.js:92-99 | once past the gate the reply is 200 with success and no message, and nothing changes |
| AuthController.AccountService.VerifySecretKey | backend/controller/authController.js:102-126 | the reply is the one `KeyChecked` gives, and nothing changes |
| AuthController.AccountService.ResetPassword | backend/controller/authController.js:129-157 | the service moves as `PasswordReset` says and keeps its invariant |
| AuthController.AccountService.GetUserData | backend/controller/authController.js:160-174 | the reply and record are those `UserDataServed` gives, and nothing changes |
| AuthController.AccountService.UpdateBio | backend/controller/authController.js:177-199 | the service moves as `BioUpdated` says and keeps its invariant |
| AuthController.AccountService.UpdateProfile | backend/controller/authController.js:202-218 | the service moves as `ProfileUpdated` says and keeps its invariant |
| TodoController.OwnedBy | backend/controller/todoController.js:67 | `Todo.find({ userId })`: the todos of one owner, in store order |
| TodoController.OwnedByAppend | backend/controller/todoController.js:64-74 | after an insertion the new todo comes last in its owner's list and no other owner's list changes |
| TodoController.OwnedByRemove | backend/controller/todoController.js:48-62 | after a removal the owner's list loses exactly the removed todo and keeps the rest in order |
| TodoController.OwnedByUpdate | backend/controller/todoController.js:36-38 | after an edit that keeps the owner the owner's list shows the edited todo in the old one's place; other owners' lists are unchanged |
| TodoController.IndexOfTodo | backend/controller/todoController.js:32-35 | `findById` finds a position holding that id, or reports that no todo has it |
| TodoController.Added | backend/controller/todoController.js:5-23 | the outcome of `addTodo`: an empty title gives 400 and a blank one 500, with no change; otherwise exactly one todo is appended under the next id, with the trimmed title, completed false and the given owner |
| TodoController.Edited | backend/controller/todoController.js:25-46 | the outcome of `editTodo`: an empty title gives 400; an unknown id, a blank title or a missing `completed` give 500; otherwise only that todo's title and completed change, its owner kept and not compared with the caller |
| TodoController.Deleted | backend/controller/todoController.js:48-62 | the outcome of `deleteTodo`: an unknown id gives 500 with no change; otherwise exactly that todo is removed and the others keep their order |
| TodoController.Listed | backend/controller/todoController.js:64-74 | the reply of `getTodo`: 200 with exactly the caller's todos, in store order |
| TodoController.TodoStore.Valid | backend/models/todoModel.js:5-20 | the store's invariant: every todo satisfies the schema, ids are distinct and below the next id |
| TodoController.TodoStore.AddTodo | backend/controller/todoController.js:5-23 | the store moves as `Added` says and keeps its invariant (trimmed non-empty titles, distinct ids below the next id) |
| TodoController.TodoStore.EditTodo | backend/controller/todoController.js:25-46 | the store moves as `Edited` says and keeps its invariant |
| TodoController.TodoStore.DeleteTodo | backend/controller/todoController.js:48-62 | the store moves as `Deleted` says, keeps its invariant, and no todo with that id remains |
| TodoController.TodoStore.GetTodo | backend/controller/todoController.js:64-74 | the reply is the one `Listed` gives; the list holds exactly the caller's todos as a subsequence of the store; nothing changes |
| UserAuth.Authorize | backend/middleware/userAuth.js:1-10 | a request proceeds exactly when the session names a user, and then carries that user's id in place of the client's, with the rest of the body unchanged; otherwise the reply is 401 "Unauthorized" |
| UserAuth.Gate | backend/middleware/userAuth.js:1-10 | the middleware either overwrites the body's user id with the session's and proceeds, or answers 401 leaving the body alone, as `Authorize` decides |
| Routes.IsGated | backend/routes/authRouter.js:105-722 | which routes carry `userAuth`: is-authenticated, data, update-bio and update-profile here, and all four todo routes (`backend/routes/todoRouter.js:83-269`); register, login, logout, verify-key-reset, reset-password and upload-image do not |
| Routes.Served | backend/routes/authRouter.js:105-722 | for the account routes here and the todo routes (`backend/routes/todoRouter.js:83-269`), a request past the gate, or on an open route, is answered by its route's handler exactly as that handler's outcome predicate says, the gated ones for the session's user |
| Routes.ServedIgnoresClientUserId | backend/middleware/userAuth.js:4 | the outcome of a request never depends on the `userId` the client put in the body |
| Routes.ServedNeverUnauthorized | backend/middleware/userAuth.js:8 | no handler answers 401; that reply comes from the gate alone |
| Routes.ServedSessionAndTodos | backend/routes/authRouter.js:105-722 | gated routes never change the session; routes without the gate never touch the todos |
| Routes.ServedActsForSessionUser | backend/routes/todoRouter.js:83-269 | is-authenticated succeeds, the data route returns the session user's record, profile updates change no other user, a new todo belongs to the session's user, and the listing holds only that user's todos |
| Routes.Server.Valid | backend/models/todoModel.js:16-20 | both collections keep their invariants, and every todo's owner is a stored user (`ref: 'User'`) |
| Routes.Server.Handle | backend/routes/authRouter.js:105-722 | a gated route answers 401 exactly when there is no session, and then changes nothing; every other request is `Served` by its handler, with the gate's body; the consequences of `ServedSessionAndTodos` and `ServedActsForSessionUser` hold; the server invariant, including that every todo's owner is a stored user, is kept |
| Routes.Server.HandleTodo | backend/routes/todoRouter.js:83-269 | past the gate, the todo route's handler runs for the session's user as `Served` says, keeping the server invariant |
| Routes.Server.HandleProfile | backend/routes/authRouter.js:264-722 | past the gate, the gated account route's handler runs for the session's user as `Served` says, keeping the server invariant |
| Routes.Server.HandleOpen | backend/routes/authRouter.js:105-414 | register, login, logout, verify-key-reset and reset-password run their handlers as `Served` says, keeping the server invariant |
| TodoWrapper.Toggle | frontend/src/components/TodoWrapper.jsx:75-76 | `{...todo, isEditing: !todo.isEditing}`: the record kept, the flag set to the negation of the editing state |
| TodoWrapper.ToggleFlips | frontend/src/components/TodoWrapper.jsx:75-76 | toggling keeps the record and flips the editing state; toggling twice restores the editing state, and the entry itself when the flag was present |
| TodoWrapper.EditToDo | frontend/src/components/TodoWrapper.jsx:74-77 | toggling by id keeps length, order and every record; it flips the editing flag exactly on the entries with that id and leaves every other entry unchanged |
| TodoWrapper.EditToDoTwice | frontend/src/components/TodoWrapper.jsx:74-77 | toggling the same id twice restores every editing state, reading an absent flag as false; the list comes back identical when each toggled entry carried the flag |
| TodoWrapper.ToggleCompletedFilter | frontend/src/components/TodoWrapper.jsx:79-81 | the filter switch always flips |
| TodoWrapper.FilteredTasks | frontend/src/components/TodoWrapper.jsx:83-85 | the view is a subsequence of the list and no longer than it; with the filter on it holds exactly the completed entries, each as often as in the list; with it off, the whole list |
| TodoWrapper.FilteredTasksKeepsAll | frontend/src/components/TodoWrapper.jsx:83-85 | the completed view equals the whole list exactly when every entry is completed |
| TodoWrapper.CompletedEditToDo | frontend/src/components/TodoWrapper.jsx:74-85 | keeping the completed entries and toggling an id's editing flag commute |
| TodoWrapper.FilteredTasksEditToDo | frontend/src/components/TodoWrapper.jsx:74-85 | toggling an entry's editing flag and filtering the view commute, for either filter setting |
| Seqs.Filter | frontend/src/components/TodoWrapper.jsx:84 | filtering keeps exactly the elements that pass and is never longer than its input |
| Seqs.FilterCounts | frontend/src/components/TodoWrapper.jsx:84 | filtering keeps every copy of a passing element and no copy of a failing one |
| Seqs.FilterIsSubsequence | frontend/src/components/TodoWrapper.jsx:84 | filtering keeps the order of what it keeps |
| Seqs.FilterAppend | backend/controller/todoController.js:67 | filtering distributes over concatenation |
| Seqs.FilterKeepsAll | frontend/src/components/TodoWrapper.jsx:84 | filtering returns its input exactly when every element passes |

## Left out

- `uploadImage`, multer and the cloud upload (`backend/controller/authController.js:225-252`, `backend/config/cloudinary.js`): file I/O and an external service. `Routes.Server.Handle` does not accept the upload route.
- Express, the HTTP layer, cookies, CORS, Swagger documentation and `backend/app.js`: only status, success flag and message of each reply are modelled.
- Session expiry and the session cookie: the session is one slot in `AccountService`, for one client.
- The `catch` branches of the account handlers: they answer 500 with the error's message when the database fails. Store outages are not modelled, so these paths cannot be reached in the model.
- `findById` with a malformed id: the cast error this raises is not modelled. Ids are natural numbers, and an absent `todoId` behaves like an unknown one.
- Concurrency between requests: each handler is one atomic step.
- Bcrypt.Hash: salting, the cost factor and the digest format are not modelled beyond its leading '$'. The hash is an arbitrary function supplied by the caller, so the model neither assumes nor needs collision resistance.
- Bcrypt.Hash is deterministic: two digests of one password are equal in the model. bcrypt draws a fresh salt on every call (`backend/controller/authController.js:38-39`, `:146`), so the original's two digests differ. Resetting a password to its current value leaves the record unchanged in the model, but stores a new digest in the original.
- JsStrings.Lower: lower-cases only ASCII letters, while JavaScript's `toLowerCase` also maps non-ASCII capitals.
- Request bodies are strings, with "" standing for an absent field. JSON values of other types (numbers, objects, `null`) are not modelled. `completed` is a present boolean or absent.
- TodoController.Deleted, TodoController.TodoStore.DeleteTodo: model the intended removal. The source calls `todo.destroy()` (`backend/controller/todoController.js:55`), a method name Mongoose documents do not define. If that call throws at run time, the `catch` answers 500 and nothing is removed. The model does not reproduce this.
- `timestamps` (createdAt/updatedAt) on both schemas: clock values.
- The front end's fetch, post and toast calls, and React's state setters, in `frontend/src/components/TodoWrapper.jsx`: UI and network I/O. Only the values they store are modelled.
