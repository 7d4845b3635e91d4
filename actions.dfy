/**
 * The server actions behind the forms: log in and out, create, update and
 * delete events and transactions, and the superadmin's user management.
 * Each action checks its guards in a fixed order (session, then id, then
 * form validation) and only the last step writes to the store; every
 * early return leaves the store exactly as it was.
 *
 * The store is a `Store` object holding the three tables in row order and
 * the next autoincrement id of the two tables that have one. The session
 * user (`getSessionUser`) and the session check (`verifySession`) are
 * inputs; SHA-256 hex digests, the coercion `Number(text)` and the
 * rendering of a number as text are function parameters.
 */
module Actions {
  import Wrappers
  import opened Schema
  import opened Validators
  import Token
  import Session
  import Ledger

  // ---------------------------------------------------------------------
  // Results
  // ---------------------------------------------------------------------

  datatype Status = Idle | Success | Error

  /** What an action reports back to its form (the timestamp is left out). */
  datatype ActionState = ActionState(status: Status, message: string, errors: Wrappers.Option<map<string, seq<string>>>)

  /** The outcome of `login`: a rejection shown on the form, or a redirect. */
  datatype LoginOutcome = LoginRejected(state: ActionState) | RedirectTo(path: string)

  const Superadmin: string := "superadmin"

  const InvalidCredentials: string := "Invalid username or password."
  const ValidationFailed: string := "Validation failed. Please check the form."
  const InvalidEventId: string := "Invalid event ID."
  const InvalidTransactionId: string := "Invalid transaction ID."
  const Unauthorized: string := "Unauthorized. Please log in."
  const SuperadminOnly: string := "Only superadmin can perform this action."
  const CannotResetSuperadmin: string := "Cannot reset superadmin password."
  const EventDeleted: string := "Event and its transactions deleted."
  const TransactionDeleted: string := "Transaction deleted successfully."
  const EventTransactionsDeleted: string := "All transactions for this event deleted."

  function EventCreated(name: string): string { "Event created: " + name }
  function EventUpdated(name: string): string { "Event updated: " + name }
  function TransactionAdded(name: string, amount: string): string { "Transaction added: " + name + " - Rs. " + amount }
  function TransactionUpdated(name: string, amount: string): string { "Transaction updated: " + name + " - Rs. " + amount }
  function UserNotFound(target: string): string { "User \"" + target + "\" not found." }
  function PasswordWasReset(target: string): string { "Password for \"" + target + "\" has been reset to their username." }

  function Failed(message: string): ActionState { ActionState(Error, message, Wrappers.None) }
  function Succeeded(message: string): ActionState { ActionState(Success, message, Wrappers.None) }

  // ---------------------------------------------------------------------
  // Guards
  // ---------------------------------------------------------------------

  /** `requireSuperadmin`: the denial, unless the session user is exactly `superadmin`. */
  function RequireSuperadmin(sessionUser: Wrappers.Option<string>): (denied: Wrappers.Option<ActionState>)
    ensures denied.Some? <==> sessionUser != Wrappers.Some(Superadmin)
    ensures denied.Some? ==> denied.value.status == Error && denied.value.message == SuperadminOnly
  {
    if sessionUser != Wrappers.Some(Superadmin) then Wrappers.Some(Failed(SuperadminOnly)) else Wrappers.None
  }

  /** `formData.get(key)`: the submitted text, or `null` when the field is missing. */
  function Get(form: map<string, string>, key: string): Field
  {
    if key in form then Text(form[key]) else Null
  }

  /**
   * The id test `!id || isNaN(id)` on `Number(formData.get("id"))`: only
   * zero and NaN are rejected (a missing field coerces to zero).
   */
  predicate IdRejected(id: Coerced)
  {
    id == NaN || id == Finite(0.0)
  }

  function IdOf(form: map<string, string>, toNumber: string -> Coerced): (id: Coerced)
    ensures "id" !in form ==> IdRejected(id)
    ensures "id" in form ==> id == toNumber(form["id"])
  {
    Coerce(Get(form, "id"), toNumber)
  }

  /** `eq(column, id)` with a JavaScript number: equal only to an integer of the same value. */
  predicate IdMatches(rowId: int, id: Coerced)
  {
    id.Finite? && id.value == rowId as real
  }

  // ---------------------------------------------------------------------
  // Field errors
  // ---------------------------------------------------------------------

  /** `String(issue.path[0])`: the first path element, or the text `undefined` for an empty path. */
  function KeyOf(issue: Issue): string
  {
    if |issue.path| >= 1 then issue.path[0] else "undefined"
  }

  /** The error map after the issues have been filed one by one. */
  function FieldErrors(issues: seq<Issue>): map<string, seq<string>>
  {
    if issues == [] then map[]
    else
      var m := FieldErrors(issues[..|issues| - 1]);
      var last := issues[|issues| - 1];
      var k := KeyOf(last);
      m[k := (if k in m then m[k] else []) + [last.message]]
  }

  /** The messages of the issues filed under `key`, in issue order. */
  function MessagesFor(issues: seq<Issue>, key: string): seq<string>
  {
    if issues == [] then []
    else
      var last := issues[|issues| - 1];
      MessagesFor(issues[..|issues| - 1], key) + (if KeyOf(last) == key then [last.message] else [])
  }

  /**
   * The error map has a key exactly for each key some issue names, and
   * under it every message of the issues with that key, each once and in
   * issue order.
   */
  lemma {:induction false} FieldErrorsGroups(issues: seq<Issue>)
    ensures forall k :: k in FieldErrors(issues) <==> MessagesFor(issues, k) != []
    ensures forall k :: k in FieldErrors(issues) ==> FieldErrors(issues)[k] == MessagesFor(issues, k)
  {
    if issues != [] {
      FieldErrorsGroups(issues[..|issues| - 1]);
    }
  }

  /** Messages are filed under a key exactly when some issue has that key. */
  lemma {:induction false} MessagesForNonEmpty(issues: seq<Issue>, key: string)
    ensures MessagesFor(issues, key) != [] <==> exists i :: 0 <= i < |issues| && KeyOf(issues[i]) == key
  {
    if issues != [] {
      var init := issues[..|issues| - 1];
      MessagesForNonEmpty(init, key);
      if exists i :: 0 <= i < |init| && KeyOf(init[i]) == key {
        var i :| 0 <= i < |init| && KeyOf(init[i]) == key;
        assert issues[i] == init[i];
      }
      if exists i :: 0 <= i < |issues| && KeyOf(issues[i]) == key {
        var i :| 0 <= i < |issues| && KeyOf(issues[i]) == key;
        if i < |init| {
          assert init[i] == issues[i];
        }
      }
    }
  }

  /** `parseFormErrors`: file each issue's message under the issue's key. */
  method ParseFormErrors(issues: seq<Issue>) returns (fieldErrors: map<string, seq<string>>)
    ensures fieldErrors == FieldErrors(issues)
  {
    fieldErrors := map[];
    for i := 0 to |issues|
      invariant fieldErrors == FieldErrors(issues[..i])
    {
      var issue := issues[i];
      var key := KeyOf(issue);
      if key !in fieldErrors {
        fieldErrors := fieldErrors[key := []];
      }
      fieldErrors := fieldErrors[key := fieldErrors[key] + [issue.message]];
      assert issues[..i + 1][..i] == issues[..i];
    }
    assert issues[..|issues|] == issues;
  }

  /** The error map of a rejected transaction form has exactly the failing fields as keys. */
  lemma TransactionErrorKeys(raw: TransactionForm, toNumber: string -> Coerced)
    requires ParseTransaction(raw, toNumber).Failure?
    ensures forall k :: k in FieldErrors(ParseTransaction(raw, toNumber).error) <==> k in TransactionFailures(raw, toNumber)
  {
    var issues := ParseTransaction(raw, toNumber).error;
    FieldErrorsGroups(issues);
    forall k
      ensures k in FieldErrors(issues) <==> k in TransactionFailures(raw, toNumber)
    {
      MessagesForNonEmpty(issues, k);
      if k in TransactionFailures(raw, toNumber) {
        var i :| 0 <= i < |issues| && issues[i].path == [k];
        assert KeyOf(issues[i]) == k;
      }
    }
  }

  // ---------------------------------------------------------------------
  // Rows and tables
  // ---------------------------------------------------------------------

  /** The form fields of the transaction schema, read from the submitted form. */
  function TransactionFormOf(form: map<string, string>): TransactionForm
  {
    TransactionForm(Get(form, "date"), Get(form, "name"), Get(form, "amount"),
                    Get(form, "type"), Get(form, "description"), Get(form, "eventId"))
  }

  function EventFormOf(form: map<string, string>): EventForm
  {
    EventForm(Get(form, "name"), Get(form, "description"))
  }

  /** `users.where(username = name).get()`: the first user with that name. */
  function FindUser(users: seq<User>, name: string): (found: Wrappers.Option<User>)
    ensures found.Some? ==> found.value in users && found.value.username == name
    ensures found.None? <==> forall i :: 0 <= i < |users| ==> users[i].username != name
  {
    if users == [] then Wrappers.None
    else if users[0].username == name then Wrappers.Some(users[0])
    else FindUser(users[1..], name)
  }

  /** The password check of `login`: a user with that name whose stored hash is the password's. */
  predicate Authenticates(users: seq<User>, sha256Hex: string -> string, username: string, password: string)
  {
    var found := FindUser(users, username);
    found.Some? && found.value.passwordHash == sha256Hex(password)
  }

  /** `getAllUsers`' filter: every user name except the superadmin's, in table order. */
  function OtherUsernames(users: seq<User>): (names: seq<string>)
    ensures forall n :: n in names <==> n != Superadmin && exists i :: 0 <= i < |users| && users[i].username == n
  {
    if users == [] then []
    else
      var rest := OtherUsernames(users[1..]);
      assert forall i :: 0 <= i < |users[1..]| ==> users[1..][i] == users[i + 1];
      (if users[0].username != Superadmin then [users[0].username] else []) + rest
  }

  /** The filter keeps table order: it distributes over concatenation. */
  lemma {:induction false} OtherUsernamesAppend(a: seq<User>, b: seq<User>)
    ensures OtherUsernames(a + b) == OtherUsernames(a) + OtherUsernames(b)
  {
    if a != [] {
      OtherUsernamesAppend(a[1..], b);
      assert (a + b)[1..] == a[1..] + b;
    } else {
      assert a + b == b;
    }
  }

  /** Every user named `target` gets the stored hash `hash`; everything else is unchanged. */
  function SetPassword(users: seq<User>, target: string, hash: string): (r: seq<User>)
    ensures |r| == |users|
    ensures forall i :: 0 <= i < |users| ==>
      r[i] == if users[i].username == target then users[i].(passwordHash := hash) else users[i]
    ensures forall i :: 0 <= i < |users| ==> r[i].username == users[i].username && r[i].id == users[i].id
  {
    seq(|users|, i requires 0 <= i < |users| =>
      if users[i].username == target then users[i].(passwordHash := hash) else users[i])
  }

  /** After a reset, the target's lookup finds the new hash and every other lookup is unchanged. */
  lemma {:induction false} FindAfterSetPassword(users: seq<User>, target: string, hash: string, name: string)
    ensures FindUser(SetPassword(users, target, hash), name)
            == if name == target && FindUser(users, name).Some?
               then Wrappers.Some(FindUser(users, name).value.(passwordHash := hash))
               else FindUser(users, name)
  {
    if users != [] {
      FindAfterSetPassword(users[1..], target, hash, name);
      assert SetPassword(users, target, hash)[1..] == SetPassword(users[1..], target, hash);
    }
  }

  /** A password reset to the user's own name lets that user log in with their name, and nobody else's login changes. */
  lemma LoginAfterReset(users: seq<User>, sha256Hex: string -> string, target: string, username: string, password: string)
    requires FindUser(users, target).Some?
    ensures Authenticates(SetPassword(users, target, sha256Hex(target)), sha256Hex, target, target)
    ensures username != target ==>
      (Authenticates(SetPassword(users, target, sha256Hex(target)), sha256Hex, username, password)
       <==> Authenticates(users, sha256Hex, username, password))
  {
    FindAfterSetPassword(users, target, sha256Hex(target), target);
    FindAfterSetPassword(users, target, sha256Hex(target), username);
  }

  /** Which transactions a delete removes. */
  datatype Doomed = WithId(id: int) | OfEvent(eventId: int)

  predicate Hits(t: Transaction, d: Doomed)
  {
    match d
    case WithId(id) => t.id == id
    case OfEvent(eventId) => t.eventId == eventId
  }

  /** `delete from transactions where …`: the other rows, in table order. */
  function RemoveTransactions(ts: seq<Transaction>, d: Doomed): (r: seq<Transaction>)
    ensures |r| <= |ts|
    ensures forall t :: t in r <==> t in ts && !Hits(t, d)
  {
    if ts == [] then []
    else (if Hits(ts[0], d) then [] else [ts[0]]) + RemoveTransactions(ts[1..], d)
  }

  /** `delete from events where id = …`: the other events, in table order. */
  function RemoveEvent(es: seq<Event>, id: int): (r: seq<Event>)
    ensures |r| <= |es|
    ensures forall e :: e in r <==> e in es && e.id != id
  {
    if es == [] then []
    else (if es[0].id == id then [] else [es[0]]) + RemoveEvent(es[1..], id)
  }

  /** `update events set name, description where id = …`. */
  function SetEvent(es: seq<Event>, id: Coerced, data: EventData): (r: seq<Event>)
    ensures |r| == |es|
    ensures forall i :: 0 <= i < |es| ==>
      r[i] == if IdMatches(es[i].id, id) then es[i].(name := data.name, description := data.description) else es[i]
    ensures EventIds(r) == EventIds(es)
    ensures forall i :: 0 <= i < |es| ==> r[i].isActive == es[i].isActive && r[i].createdAt == es[i].createdAt
  {
    seq(|es|, i requires 0 <= i < |es| =>
      if IdMatches(es[i].id, id) then es[i].(name := data.name, description := data.description) else es[i])
  }

  /**
   * `update transactions set <the parsed fields> where id = …`. The
   * payment mode is not among the parsed fields, so it keeps its value.
   */
  function SetTransaction(ts: seq<Transaction>, id: Coerced, data: TransactionData): (r: seq<Transaction>)
    ensures |r| == |ts|
    ensures forall i :: 0 <= i < |ts| ==>
      r[i] == if IdMatches(ts[i].id, id) then Revised(ts[i], data) else ts[i]
    ensures TransactionIds(r) == TransactionIds(ts)
    ensures forall i :: 0 <= i < |ts| ==> r[i].paymentMode == ts[i].paymentMode && r[i].createdAt == ts[i].createdAt
  {
    seq(|ts|, i requires 0 <= i < |ts| => if IdMatches(ts[i].id, id) then Revised(ts[i], data) else ts[i])
  }

  /**
   * The update the edit form evidently means: as above, but the revised
   * rows also take the payment mode the form selects.
   */
  function SetTransactionWithMode(ts: seq<Transaction>, id: Coerced, data: TransactionData, form: map<string, string>)
    : (r: seq<Transaction>)
    ensures |r| == |ts|
    ensures TransactionIds(r) == TransactionIds(ts)
    ensures forall i :: 0 <= i < |ts| ==>
      r[i].paymentMode == (if IdMatches(ts[i].id, id) then ChosenMode(form) else ts[i].paymentMode)
    ensures forall i :: 0 <= i < |ts| ==> r[i] == SetTransaction(ts, id, data)[i].(paymentMode := r[i].paymentMode)
  {
    seq(|ts|, i requires 0 <= i < |ts| =>
      if IdMatches(ts[i].id, id) then Revised(ts[i], data).(paymentMode := ChosenMode(form)) else ts[i])
  }

  /** Editing a cash row and selecting bank leaves the row recorded as cash. */
  lemma UpdateSelectionIsLost(ts: seq<Transaction>, id: Coerced, data: TransactionData, form: map<string, string>, i: nat)
    requires i < |ts| && IdMatches(ts[i].id, id) && ts[i].paymentMode == Cash
    requires Get(form, "paymentMode") == Text("bank")
    ensures SetTransaction(ts, id, data)[i].paymentMode == Cash
    ensures SetTransactionWithMode(ts, id, data, form)[i].paymentMode == Bank
  {
  }

  function Revised(t: Transaction, data: TransactionData): Transaction
  {
    t.(date := data.date, name := data.name, amount := data.amount, txType := data.txType,
       description := data.description, eventId := data.eventId)
  }

  /**
   * The row `addTransaction` inserts: the parsed fields, the next id, the
   * insertion time, and the column default `cash` for the payment mode,
   * because the parsed data has no payment mode.
   */
  function InsertedTransaction(id: int, data: TransactionData, now: int): (t: Transaction)
    ensures t.paymentMode == Cash
  {
    Transaction(id, data.date, data.name, data.amount, data.txType, Cash, data.description, data.eventId, now)
  }

  /** The payment mode the form's radio buttons select: `bank`, or else the default `cash`. */
  function ChosenMode(form: map<string, string>): (mode: PaymentMode)
    ensures mode == Bank <==> Get(form, "paymentMode") == Text("bank")
  {
    if Get(form, "paymentMode") == Text("bank") then Bank else Cash
  }

  /** The row the insert evidently means to store: as above, with the chosen payment mode. */
  function InsertedTransactionWithMode(id: int, data: TransactionData, form: map<string, string>, now: int): (t: Transaction)
    ensures t.paymentMode == Bank <==> Get(form, "paymentMode") == Text("bank")
    ensures t == InsertedTransaction(id, data, now).(paymentMode := ChosenMode(form))
  {
    Transaction(id, data.date, data.name, data.amount, data.txType, ChosenMode(form), data.description, data.eventId, now)
  }

  /** Whatever the form selects, the inserted row is recorded as paid in cash. */
  lemma BankSelectionIsLost(id: int, data: TransactionData, form: map<string, string>, now: int)
    requires Get(form, "paymentMode") == Text("bank")
    ensures InsertedTransaction(id, data, now).paymentMode != InsertedTransactionWithMode(id, data, form, now).paymentMode
  {
  }

  // ---------------------------------------------------------------------
  // Id freshness
  // ---------------------------------------------------------------------

  // The id column of each table, read in row order; `EventIds` and
  // `TransactionIds` are the same projection over the two row types.

  function EventIds(es: seq<Event>): (ids: seq<int>)
    ensures |ids| == |es| && forall i :: 0 <= i < |es| ==> ids[i] == es[i].id
  {
    seq(|es|, i requires 0 <= i < |es| => es[i].id)
  }

  function TransactionIds(ts: seq<Transaction>): (ids: seq<int>)
    ensures |ids| == |ts| && forall i :: 0 <= i < |ts| ==> ids[i] == ts[i].id
  {
    seq(|ts|, i requires 0 <= i < |ts| => ts[i].id)
  }

  /** Autoincrement ids: positive, strictly increasing in row order, all below the next id to issue. */
  predicate Fresh(ids: seq<int>, next: int)
  {
    && next >= 1
    && (forall i :: 0 <= i < |ids| ==> 1 <= ids[i] < next)
    && (forall i, j :: 0 <= i < j < |ids| ==> ids[i] < ids[j])
  }

  lemma FreshAppend(ids: seq<int>, next: int)
    requires Fresh(ids, next)
    ensures Fresh(ids + [next], next + 1)
  {
  }

  lemma FreshTail(ids: seq<int>, next: int)
    requires Fresh(ids, next) && ids != []
    ensures Fresh(ids[1..], next)
    ensures forall j :: 0 <= j < |ids[1..]| ==> ids[0] < ids[1..][j]
  {
    assert forall j :: 0 <= j < |ids[1..]| ==> ids[1..][j] == ids[j + 1];
  }

  lemma FreshCons(x: int, ids: seq<int>, next: int)
    requires Fresh(ids, next) && 1 <= x < next
    requires forall j :: 0 <= j < |ids| ==> x < ids[j]
    ensures Fresh([x] + ids, next)
  {
    assert forall j :: 1 <= j < |[x] + ids| ==> ([x] + ids)[j] == ids[j - 1];
  }

  lemma RemoveEventAbove(es: seq<Event>, id: int, low: int)
    requires forall k :: 0 <= k < |es| ==> low < es[k].id
    ensures forall j :: 0 <= j < |RemoveEvent(es, id)| ==> low < RemoveEvent(es, id)[j].id
  {
    var rest := RemoveEvent(es, id);
    forall j | 0 <= j < |rest|
      ensures low < rest[j].id
    {
      assert rest[j] in es;
    }
  }

  lemma RemoveTransactionsAbove(ts: seq<Transaction>, d: Doomed, low: int)
    requires forall k :: 0 <= k < |ts| ==> low < ts[k].id
    ensures forall j :: 0 <= j < |RemoveTransactions(ts, d)| ==> low < RemoveTransactions(ts, d)[j].id
  {
    var rest := RemoveTransactions(ts, d);
    forall j | 0 <= j < |rest|
      ensures low < rest[j].id
    {
      assert rest[j] in ts;
    }
  }

  lemma EventConsFresh(e: Event, rest: seq<Event>, next: int)
    requires Fresh(EventIds(rest), next) && 1 <= e.id < next
    requires forall j :: 0 <= j < |rest| ==> e.id < rest[j].id
    ensures Fresh(EventIds([e] + rest), next)
  {
    assert EventIds([e] + rest) == [e.id] + EventIds(rest);
    FreshCons(e.id, EventIds(rest), next);
  }

  lemma {:induction false} RemoveEventFresh(es: seq<Event>, id: int, next: int)
    requires Fresh(EventIds(es), next)
    ensures Fresh(EventIds(RemoveEvent(es, id)), next)
  {
    if es != [] {
      var tail := es[1..];
      assert EventIds(tail) == EventIds(es)[1..];
      FreshTail(EventIds(es), next);
      RemoveEventFresh(tail, id, next);
      if es[0].id != id {
        assert forall k :: 0 <= k < |tail| ==> es[0].id < tail[k].id by {
          assert forall k :: 0 <= k < |tail| ==> tail[k].id == EventIds(es)[1..][k];
        }
        RemoveEventAbove(tail, id, es[0].id);
        EventConsFresh(es[0], RemoveEvent(tail, id), next);
      }
    }
  }

  lemma TransactionConsFresh(t: Transaction, rest: seq<Transaction>, next: int)
    requires Fresh(TransactionIds(rest), next) && 1 <= t.id < next
    requires forall j :: 0 <= j < |rest| ==> t.id < rest[j].id
    ensures Fresh(TransactionIds([t] + rest), next)
  {
    assert TransactionIds([t] + rest) == [t.id] + TransactionIds(rest);
    FreshCons(t.id, TransactionIds(rest), next);
  }

  lemma {:induction false} RemoveTransactionsFresh(ts: seq<Transaction>, d: Doomed, next: int)
    requires Fresh(TransactionIds(ts), next)
    ensures Fresh(TransactionIds(RemoveTransactions(ts, d)), next)
  {
    if ts != [] {
      var tail := ts[1..];
      assert TransactionIds(tail) == TransactionIds(ts)[1..];
      FreshTail(TransactionIds(ts), next);
      RemoveTransactionsFresh(tail, d, next);
      if !Hits(ts[0], d) {
        assert forall k :: 0 <= k < |tail| ==> ts[0].id < tail[k].id by {
          assert forall k :: 0 <= k < |tail| ==> tail[k].id == TransactionIds(ts)[1..][k];
        }
        RemoveTransactionsAbove(tail, d, ts[0].id);
        TransactionConsFresh(ts[0], RemoveTransactions(tail, d), next);
      }
    }
  }

  /** User names are unique (the `unique` constraint of the users table). */
  predicate UniqueNames(users: seq<User>)
  {
    forall i, j :: 0 <= i < j < |users| ==> users[i].username != users[j].username
  }

  // ---------------------------------------------------------------------
  // The store and the actions
  // ---------------------------------------------------------------------

  class Store {
    var events: seq<Event>
    var transactions: seq<Transaction>
    var users: seq<User>
    var nextEventId: int
    var nextTransactionId: int

    /** Ids are fresh autoincrement ids and user names are unique. */
    predicate Valid()
      reads this
    {
      && Fresh(EventIds(events), nextEventId)
      && Fresh(TransactionIds(transactions), nextTransactionId)
      && UniqueNames(users)
    }

    constructor(users0: seq<User>)
      requires UniqueNames(users0)
      ensures Valid()
      ensures events == [] && transactions == [] && users == users0
      ensures nextEventId == 1 && nextTransactionId == 1
    {
      events, transactions, users := [], [], users0;
      nextEventId, nextTransactionId := 1, 1;
    }

    /**
     * `login`: reject unless a user with that name exists and the
     * password's hash is the stored one; otherwise start a session and
     * redirect to the events page.
     */
    method Login(jar: Session.CookieJar, p: Token.Primitives<Session.SessionPayload>, secret: string,
                 now: int, production: bool, sha256Hex: string -> string, username: string, password: string)
      returns (out: LoginOutcome)
      modifies jar
      ensures out.LoginRejected? <==> !Authenticates(users, sha256Hex, username, password)
      ensures out.LoginRejected? ==> out.state == Failed(InvalidCredentials) && jar.cookies == old(jar.cookies)
      ensures out.RedirectTo? ==>
        && out.path == "/events"
        && jar.cookies == old(jar.cookies)[Session.CookieName :=
             Session.Cookie(Session.SessionToken(p, secret, now), Session.SessionCookieOptions(production))]
    {
      var passwordHash := sha256Hex(password);
      var user := FindUser(users, username);
      if user.None? || user.value.passwordHash != passwordHash {
        return LoginRejected(Failed(InvalidCredentials));
      }
      jar.CreateSession(p, secret, now, production);
      return RedirectTo("/events");
    }

    /** `logout`: drop the session cookie and redirect to the login page. */
    method Logout(jar: Session.CookieJar) returns (path: string)
      modifies jar
      ensures path == "/login"
      ensures jar.cookies == old(jar.cookies) - {Session.CookieName}
    {
      jar.DeleteSession();
      return "/login";
    }

    /** `createEvent` (no session guard): validate, then append the event with the next id. */
    method CreateEvent(form: map<string, string>, nowSeconds: int) returns (state: ActionState)
      requires Valid()
      modifies this
      ensures Valid()
      ensures var parsed := ParseEvent(EventFormOf(form));
        if parsed.Failure? then
          && state == ActionState(Error, ValidationFailed, Wrappers.Some(FieldErrors(parsed.error)))
          && unchanged(this)
        else
          && state == Succeeded(EventCreated(parsed.value.name))
          && events == old(events) + [Event(old(nextEventId), parsed.value.name, parsed.value.description, true, nowSeconds)]
          && nextEventId == old(nextEventId) + 1
          && transactions == old(transactions) && users == old(users) && nextTransactionId == old(nextTransactionId)
    {
      var parsed := ParseEvent(EventFormOf(form));
      if parsed.Failure? {
        var errors := ParseFormErrors(parsed.error);
        return ActionState(Error, ValidationFailed, Wrappers.Some(errors));
      }
      FreshAppend(EventIds(events), nextEventId);
      assert EventIds(events + [Event(nextEventId, parsed.value.name, parsed.value.description, true, nowSeconds)])
             == EventIds(events) + [nextEventId];
      events := events + [Event(nextEventId, parsed.value.name, parsed.value.description, true, nowSeconds)];
      nextEventId := nextEventId + 1;
      return Succeeded(EventCreated(parsed.value.name));
    }

    /** `updateEvent`: superadmin only, then a usable id, then validation, then the update. */
    method UpdateEvent(sessionUser: Wrappers.Option<string>, form: map<string, string>, toNumber: string -> Coerced)
      returns (state: ActionState)
      requires Valid()
      modifies this
      ensures Valid()
      ensures var denied := RequireSuperadmin(sessionUser);
        var id := IdOf(form, toNumber);
        var parsed := ParseEvent(EventFormOf(form));
        if denied.Some? then state == denied.value && unchanged(this)
        else if IdRejected(id) then state == Failed(InvalidEventId) && unchanged(this)
        else if parsed.Failure? then
          state == ActionState(Error, ValidationFailed, Wrappers.Some(FieldErrors(parsed.error))) && unchanged(this)
        else
          && state == Succeeded(EventUpdated(parsed.value.name))
          && events == SetEvent(old(events), id, parsed.value)
          && transactions == old(transactions) && users == old(users)
          && nextEventId == old(nextEventId) && nextTransactionId == old(nextTransactionId)
    {
      var denied := RequireSuperadmin(sessionUser);
      if denied.Some? {
        return denied.value;
      }
      var id := IdOf(form, toNumber);
      if IdRejected(id) {
        return Failed(InvalidEventId);
      }
      var parsed := ParseEvent(EventFormOf(form));
      if parsed.Failure? {
        var errors := ParseFormErrors(parsed.error);
        return ActionState(Error, ValidationFailed, Wrappers.Some(errors));
      }
      assert EventIds(SetEvent(events, id, parsed.value)) == EventIds(events);
      events := SetEvent(events, id, parsed.value);
      return Succeeded(EventUpdated(parsed.value.name));
    }

    /** `deleteEvent`: superadmin only; then the event's transactions, then the event itself. */
    method DeleteEvent(sessionUser: Wrappers.Option<string>, id: int) returns (state: ActionState)
      requires Valid()
      modifies this
      ensures Valid()
      ensures RequireSuperadmin(sessionUser).Some? ==> state == RequireSuperadmin(sessionUser).value && unchanged(this)
      ensures RequireSuperadmin(sessionUser).None? ==>
        && state == Succeeded(EventDeleted)
        && transactions == RemoveTransactions(old(transactions), OfEvent(id))
        && events == RemoveEvent(old(events), id)
        && users == old(users) && nextEventId == old(nextEventId) && nextTransactionId == old(nextTransactionId)
    {
      var denied := RequireSuperadmin(sessionUser);
      if denied.Some? {
        return denied.value;
      }
      RemoveTransactionsFresh(transactions, OfEvent(id), nextTransactionId);
      RemoveEventFresh(events, id, nextEventId);
      transactions := RemoveTransactions(transactions, OfEvent(id));
      events := RemoveEvent(events, id);
      return Succeeded(EventDeleted);
    }

    /**
     * `addTransaction` (no session guard): validate, then append the row
     * with the next id. The payment mode the form selects is not passed on.
     */
    method AddTransaction(form: map<string, string>, toNumber: string -> Coerced, numberText: real -> string, nowSeconds: int)
      returns (state: ActionState)
      requires Valid()
      modifies this
      ensures Valid()
      ensures var parsed := ParseTransaction(TransactionFormOf(form), toNumber);
        if parsed.Failure? then
          && state == ActionState(Error, ValidationFailed, Wrappers.Some(FieldErrors(parsed.error)))
          && unchanged(this)
        else
          && state == Succeeded(TransactionAdded(parsed.value.name, numberText(parsed.value.amount)))
          && transactions == old(transactions) + [InsertedTransaction(old(nextTransactionId), parsed.value, nowSeconds)]
          && nextTransactionId == old(nextTransactionId) + 1
          && events == old(events) && users == old(users) && nextEventId == old(nextEventId)
    {
      var parsed := ParseTransaction(TransactionFormOf(form), toNumber);
      if parsed.Failure? {
        var errors := ParseFormErrors(parsed.error);
        return ActionState(Error, ValidationFailed, Wrappers.Some(errors));
      }
      var row := InsertedTransaction(nextTransactionId, parsed.value, nowSeconds);
      FreshAppend(TransactionIds(transactions), nextTransactionId);
      assert TransactionIds(transactions + [row]) == TransactionIds(transactions) + [nextTransactionId];
      transactions := transactions + [row];
      nextTransactionId := nextTransactionId + 1;
      return Succeeded(TransactionAdded(parsed.value.name, numberText(parsed.value.amount)));
    }

    /** `addTransaction` storing the payment mode the form selects. */
    method AddTransactionWithMode(form: map<string, string>, toNumber: string -> Coerced, numberText: real -> string, nowSeconds: int)
      returns (state: ActionState)
      requires Valid()
      modifies this
      ensures Valid()
      ensures var parsed := ParseTransaction(TransactionFormOf(form), toNumber);
        if parsed.Failure? then
          && state == ActionState(Error, ValidationFailed, Wrappers.Some(FieldErrors(parsed.error)))
          && unchanged(this)
        else
          && state == Succeeded(TransactionAdded(parsed.value.name, numberText(parsed.value.amount)))
          && transactions == old(transactions) + [InsertedTransactionWithMode(old(nextTransactionId), parsed.value, form, nowSeconds)]
          && nextTransactionId == old(nextTransactionId) + 1
          && events == old(events) && users == old(users) && nextEventId == old(nextEventId)
    {
      var parsed := ParseTransaction(TransactionFormOf(form), toNumber);
      if parsed.Failure? {
        var errors := ParseFormErrors(parsed.error);
        return ActionState(Error, ValidationFailed, Wrappers.Some(errors));
      }
      var row := InsertedTransactionWithMode(nextTransactionId, parsed.value, form, nowSeconds);
      FreshAppend(TransactionIds(transactions), nextTransactionId);
      assert TransactionIds(transactions + [row]) == TransactionIds(transactions) + [nextTransactionId];
      transactions := transactions + [row];
      nextTransactionId := nextTransactionId + 1;
      return Succeeded(TransactionAdded(parsed.value.name, numberText(parsed.value.amount)));
    }

    /** `updateTransaction`: a valid session, then a usable id, then validation, then the update. */
    method UpdateTransaction(isAuth: bool, form: map<string, string>, toNumber: string -> Coerced, numberText: real -> string)
      returns (state: ActionState)
      requires Valid()
      modifies this
      ensures Valid()
      ensures var id := IdOf(form, toNumber);
        var parsed := ParseTransaction(TransactionFormOf(form), toNumber);
        if !isAuth then state == Failed(Unauthorized) && unchanged(this)
        else if IdRejected(id) then state == Failed(InvalidTransactionId) && unchanged(this)
        else if parsed.Failure? then
          state == ActionState(Error, ValidationFailed, Wrappers.Some(FieldErrors(parsed.error))) && unchanged(this)
        else
          && state == Succeeded(TransactionUpdated(parsed.value.name, numberText(parsed.value.amount)))
          && transactions == SetTransaction(old(transactions), id, parsed.value)
          && events == old(events) && users == old(users)
          && nextEventId == old(nextEventId) && nextTransactionId == old(nextTransactionId)
    {
      if !isAuth {
        return Failed(Unauthorized);
      }
      var id := IdOf(form, toNumber);
      if IdRejected(id) {
        return Failed(InvalidTransactionId);
      }
      var parsed := ParseTransaction(TransactionFormOf(form), toNumber);
      if parsed.Failure? {
        var errors := ParseFormErrors(parsed.error);
        return ActionState(Error, ValidationFailed, Wrappers.Some(errors));
      }
      assert TransactionIds(SetTransaction(transactions, id, parsed.value)) == TransactionIds(transactions);
      transactions := SetTransaction(transactions, id, parsed.value);
      return Succeeded(TransactionUpdated(parsed.value.name, numberText(parsed.value.amount)));
    }

    /** `updateTransaction` storing the payment mode the form selects. */
    method UpdateTransactionWithMode(isAuth: bool, form: map<string, string>, toNumber: string -> Coerced,
                                     numberText: real -> string)
      returns (state: ActionState)
      requires Valid()
      modifies this
      ensures Valid()
      ensures var id := IdOf(form, toNumber);
        var parsed := ParseTransaction(TransactionFormOf(form), toNumber);
        if !isAuth then state == Failed(Unauthorized) && unchanged(this)
        else if IdRejected(id) then state == Failed(InvalidTransactionId) && unchanged(this)
        else if parsed.Failure? then
          state == ActionState(Error, ValidationFailed, Wrappers.Some(FieldErrors(parsed.error))) && unchanged(this)
        else
          && state == Succeeded(TransactionUpdated(parsed.value.name, numberText(parsed.value.amount)))
          && transactions == SetTransactionWithMode(old(transactions), id, parsed.value, form)
          && events == old(events) && users == old(users)
          && nextEventId == old(nextEventId) && nextTransactionId == old(nextTransactionId)
    {
      if !isAuth {
        return Failed(Unauthorized);
      }
      var id := IdOf(form, toNumber);
      if IdRejected(id) {
        return Failed(InvalidTransactionId);
      }
      var parsed := ParseTransaction(TransactionFormOf(form), toNumber);
      if parsed.Failure? {
        var errors := ParseFormErrors(parsed.error);
        return ActionState(Error, ValidationFailed, Wrappers.Some(errors));
      }
      transactions := SetTransactionWithMode(transactions, id, parsed.value, form);
      return Succeeded(TransactionUpdated(parsed.value.name, numberText(parsed.value.amount)));
    }

    /** `deleteTransaction`: a valid session, then the delete by id. */
    method DeleteTransaction(isAuth: bool, id: int) returns (state: ActionState)
      requires Valid()
      modifies this
      ensures Valid()
      ensures !isAuth ==> state == Failed(Unauthorized) && unchanged(this)
      ensures isAuth ==>
        && state == Succeeded(TransactionDeleted)
        && transactions == RemoveTransactions(old(transactions), WithId(id))
        && events == old(events) && users == old(users)
        && nextEventId == old(nextEventId) && nextTransactionId == old(nextTransactionId)
    {
      if !isAuth {
        return Failed(Unauthorized);
      }
      RemoveTransactionsFresh(transactions, WithId(id), nextTransactionId);
      transactions := RemoveTransactions(transactions, WithId(id));
      return Succeeded(TransactionDeleted);
    }

    /** `deleteAllTransactions`: superadmin only, then every transaction of the event. */
    method DeleteAllTransactions(sessionUser: Wrappers.Option<string>, eventId: int) returns (state: ActionState)
      requires Valid()
      modifies this
      ensures Valid()
      ensures RequireSuperadmin(sessionUser).Some? ==> state == RequireSuperadmin(sessionUser).value && unchanged(this)
      ensures RequireSuperadmin(sessionUser).None? ==>
        && state == Succeeded(EventTransactionsDeleted)
        && transactions == RemoveTransactions(old(transactions), OfEvent(eventId))
        && events == old(events) && users == old(users)
        && nextEventId == old(nextEventId) && nextTransactionId == old(nextTransactionId)
    {
      var denied := RequireSuperadmin(sessionUser);
      if denied.Some? {
        return denied.value;
      }
      RemoveTransactionsFresh(transactions, OfEvent(eventId), nextTransactionId);
      transactions := RemoveTransactions(transactions, OfEvent(eventId));
      return Succeeded(EventTransactionsDeleted);
    }

    /**
     * `resetUserPassword`: superadmin only; the superadmin's own password
     * is never reset; an unknown user is reported; otherwise the user's
     * stored hash becomes the hash of their user name.
     */
    method ResetUserPassword(sessionUser: Wrappers.Option<string>, target: string, sha256Hex: string -> string)
      returns (state: ActionState)
      requires Valid()
      modifies this
      ensures Valid()
      ensures
        if RequireSuperadmin(sessionUser).Some? then state == RequireSuperadmin(sessionUser).value && unchanged(this)
        else if target == Superadmin then state == Failed(CannotResetSuperadmin) && unchanged(this)
        else if FindUser(old(users), target).None? then state == Failed(UserNotFound(target)) && unchanged(this)
        else
          && state == Succeeded(PasswordWasReset(target))
          && users == SetPassword(old(users), target, sha256Hex(target))
          && events == old(events) && transactions == old(transactions)
          && nextEventId == old(nextEventId) && nextTransactionId == old(nextTransactionId)
    {
      var denied := RequireSuperadmin(sessionUser);
      if denied.Some? {
        return denied.value;
      }
      if target == Superadmin {
        return Failed(CannotResetSuperadmin);
      }
      var user := FindUser(users, target);
      if user.None? {
        return Failed(UserNotFound(target));
      }
      var newHash := sha256Hex(target);
      users := SetPassword(users, target, newHash);
      return Succeeded(PasswordWasReset(target));
    }

    /** `getAllUsers`: nothing unless the caller is the superadmin; else every other user name in table order. */
    method GetAllUsers(sessionUser: Wrappers.Option<string>) returns (names: seq<string>)
      ensures sessionUser != Wrappers.Some(Superadmin) ==> names == []
      ensures sessionUser == Wrappers.Some(Superadmin) ==> names == OtherUsernames(users)
    {
      if sessionUser != Wrappers.Some(Superadmin) {
        return [];
      }
      names := OtherUsernames(users);
    }
  }

  /** After an event is deleted, the ledger holds no transaction of it, under any filter. */
  lemma DeletedEventHasNoRows(ts: seq<Transaction>, id: int, typeFilter: Wrappers.Option<TxType>,
                              modeFilter: Wrappers.Option<PaymentMode>)
    ensures Ledger.Select(RemoveTransactions(ts, OfEvent(id)), id, typeFilter, modeFilter) == []
  {
    var rest := RemoveTransactions(ts, OfEvent(id));
    var rows := Ledger.Select(rest, id, typeFilter, modeFilter);
    forall t: Transaction
      ensures multiset(rows)[t] == 0
    {
      if t.eventId == id {
        assert t !in rest;
      }
    }
    assert multiset(rows) == multiset{};
    assert |rows| == |multiset(rows)|;
  }
}
