/** The single-record handlers of the `employee` collection: the HR role gate,
    registration (the register-or-return of Google sign-in and the
    always-insert of `/add-user`), promotion to HR and the verification
    toggle. */
module Employees {
  import opened Values
  import opened Store
  import opened Http

  /** A stored employee document. Profile fields no handler here reads
      (name, photo, salary, ...) are kept opaquely in `details`. */
  datatype Employee = Employee(
    id: Id,
    email: Value,
    role: Value,
    isVerified: Value,
    makeHR: Value,
    timestamp: Value,
    details: map<string, Value>)

  /** The filter `{ email }`. */
  function EmailFilter(email: Value): Employee -> bool {
    (e: Employee) => FieldMatches(e.email, email)
  }

  /** The filter `{ _id: id }`. */
  function IdFilter(id: Id): Employee -> bool {
    (e: Employee) => e.id == id
  }

  /** No two employees answer the same `{ email }` query. */
  predicate UniqueEmails(s: seq<Employee>) {
    forall i, j :: 0 <= i < j < |s| ==> !FieldMatches(s[j].email, s[i].email)
  }

  // ---------------------------------------------------------------------------
  // verifyHR

  /** A middleware's verdict: hand the request on, or answer it. */
  datatype Gate = Pass | Deny(response: Response<Employee>)

  const HrOnly := "Forbidden Access! HR Only Actions!"

  /** `verifyHR`, run after `verifyToken` with the session's email claim:
      passes exactly when the first employee answering `{ email }` has role
      `"hr"`, and answers 403 otherwise, also when there is no such employee. */
  function VerifyHr(email: Value, s: seq<Employee>): (g: Gate)
    ensures g.Pass? <==> exists i :: IsFirst(s, EmailFilter(email), i) && s[i].role == Str("hr")
    ensures g.Deny? ==> g.response == Message(403, HrOnly)
    ensures NoMatch(s, EmailFilter(email)) ==> g.Deny?
  {
    match FindFirst(s, EmailFilter(email))
    case None => Deny(Message(403, HrOnly))
    case Some(i) => if s[i].role != Str("hr") then Deny(Message(403, HrOnly)) else Pass
  }

  /** When emails are unique, the gate passes exactly when some stored
      employee with the caller's email has role `"hr"`. */
  lemma VerifyHrWithUniqueEmails(email: Value, s: seq<Employee>)
    requires UniqueEmails(s)
    ensures VerifyHr(email, s).Pass? <==>
            exists i :: 0 <= i < |s| && FieldMatches(s[i].email, email) && s[i].role == Str("hr")
  {
    if i :| 0 <= i < |s| && FieldMatches(s[i].email, email) && s[i].role == Str("hr") {
      forall j | 0 <= j < i
        ensures !EmailFilter(email)(s[j])
      {
        if FieldMatches(s[j].email, email) {
          FieldMatchesIsSerializedEquality(s[j].email, email);
          FieldMatchesIsSerializedEquality(s[i].email, email);
          FieldMatchesIsSerializedEquality(s[i].email, s[j].email);
          assert false;
        }
      }
      assert IsFirst(s, EmailFilter(email), i);
    }
  }

  /** With two employees sharing an email, only the first one counts: an HR
      record behind an ordinary one is refused. */
  lemma VerifyHrShadowedByEarlierRecord(a: Employee, b: Employee)
    requires a.email == b.email
    requires a.role != Str("hr") && b.role == Str("hr")
    ensures VerifyHr(a.email, [a, b]) == Deny(Message(403, HrOnly))
  {
    assert IsFirst([a, b], EmailFilter(a.email), 0);
  }

  // ---------------------------------------------------------------------------
  // POST /goolgle-signIn/:email and POST /add-user/:email

  /** The inserted document: the body as sent, the generated `_id`, and the
      insertion time. */
  function Stamped(user: Employee, newId: Id, now: int): (e: Employee)
    ensures e.email == user.email && e.role == user.role && e.details == user.details
    ensures e.id == newId && e.timestamp == Num(now)
    ensures e.(id := user.id, timestamp := user.timestamp) == user
  {
    user.(id := newId, timestamp := Num(now))
  }

  /** Google sign-in: returns the employee already registered under the path's
      email, or inserts the body when there is none. The lookup uses the path
      email; the inserted document carries whatever email the body has. */
  function RegisterOrReturn(email: string, user: Employee, newId: Id, now: int, s: seq<Employee>): (out: Reply<Employee>)
    ensures forall i :: IsFirst(s, EmailFilter(Str(email)), i) ==> out == Reply(Found(s[i]), s)
    ensures NoMatch(s, EmailFilter(Str(email))) ==>
              && out.response == Inserted(newId)
              && |out.store| == |s| + 1
              && out.store[..|s|] == s
              && out.store[|s|] == Stamped(user, newId, now)
  {
    match FindFirst(s, EmailFilter(Str(email)))
    case Some(i) => Reply(Found(s[i]), s)
    case None => Reply(Inserted(newId), s + [Stamped(user, newId, now)])
  }

  /** Registering twice with a body that carries the path's email inserts at
      most once: the repeat finds the stored record and changes nothing. */
  lemma RegisterOrReturnIdempotent(email: string, user: Employee, newId: Id, newId': Id, now: int, now': int, s: seq<Employee>)
    requires user.email == Str(email)
    ensures var first := RegisterOrReturn(email, user, newId, now, s);
            var second := RegisterOrReturn(email, user, newId', now', first.store);
            && second.store == first.store
            && |first.store| <= |s| + 1
            && second.response.Found?
            && (first.response.Found? ==> second.response == first.response)
            && (first.response.Inserted? ==> second.response == Found(Stamped(user, newId, now)))
  {
    var p := EmailFilter(Str(email));
    var first := RegisterOrReturn(email, user, newId, now, s);
    match FindFirst(s, p)
    case Some(i) =>
      assert first.store == s;
    case None =>
      var t := first.store;
      assert t == s + [Stamped(user, newId, now)];
      assert p(t[|s|]);
      assert IsFirst(t, p, |s|);
  }

  /** Register-or-return keeps emails unique when the body's email is the
      path's. */
  lemma RegisterOrReturnPreservesUniqueEmails(email: string, user: Employee, newId: Id, now: int, s: seq<Employee>)
    requires UniqueEmails(s)
    requires user.email == Str(email)
    ensures UniqueEmails(RegisterOrReturn(email, user, newId, now, s).store)
  {
    var p := EmailFilter(Str(email));
    var t := RegisterOrReturn(email, user, newId, now, s).store;
    if FindFirst(s, p).None? {
      forall i, j | 0 <= i < j < |t|
        ensures !FieldMatches(t[j].email, t[i].email)
      {
        if j == |s| {
          assert !p(s[i]);
        } else {
          assert t[i] == s[i] && t[j] == s[j];
        }
      }
    }
  }

  /** `/add-user`: the lookup's result is never used, so the body is always
      inserted. */
  function AddUser(email: string, userData: Employee, newId: Id, now: int, s: seq<Employee>): (out: Reply<Employee>)
    ensures out.response == Inserted(newId)
    ensures |out.store| == |s| + 1
    ensures out.store[..|s|] == s
    ensures out.store[|s|] == Stamped(userData, newId, now)
  {
    // The lookup is made and its answer discarded.
    var isExist := FindFirst(s, EmailFilter(Str(email)));
    Reply(Inserted(newId), s + [Stamped(userData, newId, now)])
  }

  /** Registering the same user twice through `/add-user` stores two records
      answering the same email, so emails stop being unique. */
  lemma AddUserTwiceDuplicates(email: string, userData: Employee, newId: Id, newId': Id, now: int, now': int, s: seq<Employee>)
    requires userData.email == Str(email)
    ensures var t := AddUser(email, userData, newId', now', AddUser(email, userData, newId, now, s).store).store;
            && |t| == |s| + 2
            && t[|s|].email == Str(email) && t[|s| + 1].email == Str(email)
            && !UniqueEmails(t)
  {
    var t := AddUser(email, userData, newId', now', AddUser(email, userData, newId, now, s).store).store;
    assert FieldMatches(t[|s| + 1].email, t[|s|].email);
  }

  // ---------------------------------------------------------------------------
  // PUT /makehr/:id

  /** The `$set` of the promotion. */
  function Promote(e: Employee): (p: Employee)
    ensures p.makeHR == Bool(true) && p.role == Str("hr")
    ensures p.(makeHR := e.makeHR, role := e.role) == e
  {
    e.(makeHR := Bool(true), role := Str("hr"))
  }

  /** Sets `makeHR: true` and `role: "hr"` on the employee with the given id,
      without upsert; a promotion that changes nothing reports 0 modified. */
  function MakeHr(id: Id, s: seq<Employee>): (out: Reply<Employee>)
    ensures |out.store| == |s|
    ensures NoMatch(s, IdFilter(id)) ==> out == Reply(Updated(0, 0), s)
    ensures forall i :: IsFirst(s, IdFilter(id), i) ==>
              && out.store[i] == s[i].(makeHR := Bool(true), role := Str("hr"))
              && (forall j :: 0 <= j < |s| && j != i ==> out.store[j] == s[j])
              && out.response == Updated(1, if s[i].makeHR == Bool(true) && s[i].role == Str("hr") then 0 else 1)
  {
    var t := UpdateFirst(s, IdFilter(id), Promote);
    match FindFirst(s, IdFilter(id))
    case None => Reply(Updated(0, 0), t)
    case Some(i) => Reply(Updated(1, if t[i] == s[i] then 0 else 1), t)
  }

  /** Promoting twice leaves the store as promoting once. */
  lemma MakeHrIdempotent(id: Id, s: seq<Employee>)
    ensures MakeHr(id, MakeHr(id, s).store).store == MakeHr(id, s).store
  {
    match FindFirst(s, IdFilter(id))
    case None =>
    case Some(i) =>
      var t := MakeHr(id, s).store;
      assert t == s[i := Promote(s[i])];
      UpdateKeepsFirst(s, IdFilter(id), i, Promote(s[i]));
  }

  /** A promoted employee who is the first record under their email passes
      the HR gate afterwards. */
  lemma MakeHrOpensGate(id: Id, s: seq<Employee>, i: nat)
    requires IsFirst(s, IdFilter(id), i)
    requires IsFirst(s, EmailFilter(s[i].email), i)
    ensures VerifyHr(s[i].email, MakeHr(id, s).store) == Pass
  {
    var t := MakeHr(id, s).store;
    assert t == s[i := Promote(s[i])];
    UpdateKeepsFirst(s, EmailFilter(s[i].email), i, Promote(s[i]));
  }

  // ---------------------------------------------------------------------------
  // PATCH /verify/:id

  /** Reads the employee with the given id and writes back `!isVerified`.
      With no such employee, reading `isVerified` of `null` throws before any
      reply and nothing is written. */
  function ToggleVerified(id: Id, s: seq<Employee>): (out: Reply<Employee>)
    ensures |out.store| == |s|
    ensures NoMatch(s, IdFilter(id)) ==> out == Reply(Unhandled, s)
    ensures forall i :: IsFirst(s, IdFilter(id), i) ==>
              && out.store[i] == s[i].(isVerified := Bool(!Truthy(s[i].isVerified)))
              && (forall j :: 0 <= j < |s| && j != i ==> out.store[j] == s[j])
              && out.response == Updated(1, 1)
  {
    match FindFirst(s, IdFilter(id))
    case None => Reply(Unhandled, s)
    case Some(i) =>
      var user := s[i];
      var t := UpdateFirst(s, IdFilter(id), (e: Employee) => e.(isVerified := Not(user.isVerified)));
      Reply(Updated(1, if t[i] == s[i] then 0 else 1), t)
  }

  /** Two toggles give back the flag's truthiness as a boolean: a flag that
      was a boolean is restored exactly, a missing one ends up `false`. */
  lemma ToggleTwice(id: Id, s: seq<Employee>, i: nat)
    requires IsFirst(s, IdFilter(id), i)
    ensures var t := ToggleVerified(id, ToggleVerified(id, s).store).store;
            && t == s[i := s[i].(isVerified := Bool(Truthy(s[i].isVerified)))]
            && (s[i].isVerified.Bool? ==> t == s)
  {
    var once := ToggleVerified(id, s).store;
    var e := s[i].(isVerified := Bool(!Truthy(s[i].isVerified)));
    assert once == s[i := e];
    UpdateKeepsFirst(s, IdFilter(id), i, e);
    var t := ToggleVerified(id, once).store;
    assert t == once[i := e.(isVerified := Bool(!Truthy(e.isVerified)))];
  }
}
