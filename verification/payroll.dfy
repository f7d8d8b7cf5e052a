/** The payroll request lifecycle over the `payroll` collection, keyed by the
    composite (employee_id, month, year): an HR payment request guarded
    against duplicates, the payment-intent bridge to the card gateway, and the
    completion record, plus the completed-salary total of the statistics
    endpoint. */
module Payroll {
  import opened Values
  import opened Store
  import opened Http

  /** A stored payroll document. Fields the client sends that no handler reads
      (employee name, email, ...) are kept opaquely in `details`. */
  datatype PayrollRecord = PayrollRecord(
    id: Id,
    employeeId: Value,
    month: Value,
    year: Value,
    payableSalary: Value,
    isComplete: Value,
    status: Value,
    transactionId: Value,
    details: map<string, Value>)

  /** The composite key `{ employee_id, month, year }`. */
  datatype Key = Key(employeeId: Value, month: Value, year: Value)

  function KeyOf(r: PayrollRecord): Key {
    Key(r.employeeId, r.month, r.year)
  }

  /** The record satisfies the filter `{ employee_id, month, year }` built from `k`. */
  predicate MatchesKey(r: PayrollRecord, k: Key) {
    && FieldMatches(r.employeeId, k.employeeId)
    && FieldMatches(r.month, k.month)
    && FieldMatches(r.year, k.year)
  }

  function KeyFilter(k: Key): PayrollRecord -> bool {
    r => MatchesKey(r, k)
  }

  /** Some record answers the key query. */
  predicate HasKey(s: seq<PayrollRecord>, k: Key) {
    exists i :: 0 <= i < |s| && MatchesKey(s[i], k)
  }

  /** Invariant I1: no two records answer the same composite-key query. */
  predicate UniqueKeys(s: seq<PayrollRecord>) {
    forall i, j :: 0 <= i < j < |s| ==> !MatchesKey(s[j], KeyOf(s[i]))
  }

  lemma HasKeyIffFound(s: seq<PayrollRecord>, k: Key)
    ensures HasKey(s, k) <==> FindFirst(s, KeyFilter(k)).Some?
  {
    if HasKey(s, k) {
      var i :| 0 <= i < |s| && MatchesKey(s[i], k);
      assert KeyFilter(k)(s[i]);
    }
  }

  // ---------------------------------------------------------------------------
  // POST /payment-req

  const PaymentExists := "Payment Exists"

  /** Looks the body's key up and answers 400 when a record already holds it;
      otherwise inserts the body as sent, under the identifier `newId` the
      driver generates. */
  function RequestPayment(data: PayrollRecord, newId: Id, s: seq<PayrollRecord>): (out: Reply<PayrollRecord>)
    ensures HasKey(s, KeyOf(data)) ==> out == Reply(Message(400, PaymentExists), s)
    ensures !HasKey(s, KeyOf(data)) ==>
              && out.response == Inserted(newId)
              && |out.store| == |s| + 1
              && out.store[..|s|] == s
              && out.store[|s|] == data.(id := newId)
  {
    HasKeyIffFound(s, KeyOf(data));
    match FindFirst(s, KeyFilter(KeyOf(data)))
    case Some(_) => Reply(Message(400, PaymentExists), s)
    case None => Reply(Inserted(newId), s + [data.(id := newId)])
  }

  /** A payment request keeps invariant I1. */
  lemma RequestPaymentPreservesUniqueKeys(data: PayrollRecord, newId: Id, s: seq<PayrollRecord>)
    requires UniqueKeys(s)
    ensures UniqueKeys(RequestPayment(data, newId, s).store)
  {
    var t := RequestPayment(data, newId, s).store;
    if !HasKey(s, KeyOf(data)) {
      forall i, j | 0 <= i < j < |t|
        ensures !MatchesKey(t[j], KeyOf(t[i]))
      {
        if j == |s| {
          FieldMatchesSymmetricKey(t[i], data);
          assert !MatchesKey(s[i], KeyOf(data));
        } else {
          assert t[i] == s[i] && t[j] == s[j];
        }
      }
    }
  }

  /** Key matching does not depend on which side is the query. */
  lemma FieldMatchesSymmetricKey(a: PayrollRecord, b: PayrollRecord)
    ensures MatchesKey(a, KeyOf(b)) <==> MatchesKey(b, KeyOf(a))
  {
    FieldMatchesIsSerializedEquality(a.employeeId, b.employeeId);
    FieldMatchesIsSerializedEquality(a.month, b.month);
    FieldMatchesIsSerializedEquality(a.year, b.year);
  }

  /** Whatever the answer, when I1 held before, afterwards exactly one record
      holds the requested key: the one that was there, or the one inserted. */
  lemma RequestLeavesKeyHeldOnce(data: PayrollRecord, newId: Id, s: seq<PayrollRecord>)
    requires UniqueKeys(s)
    ensures var t := RequestPayment(data, newId, s).store;
            && HasKey(t, KeyOf(data))
            && forall i, j :: 0 <= i < |t| && 0 <= j < |t| && MatchesKey(t[i], KeyOf(data)) && MatchesKey(t[j], KeyOf(data)) ==> i == j
  {
    var t := RequestPayment(data, newId, s).store;
    RequestPaymentPreservesUniqueKeys(data, newId, s);
    if !HasKey(s, KeyOf(data)) {
      FieldMatchesSymmetricKey(t[|s|], data);
      assert MatchesKey(t[|s|], KeyOf(data));
    }
    forall i, j | 0 <= i < |t| && 0 <= j < |t| && MatchesKey(t[i], KeyOf(data)) && MatchesKey(t[j], KeyOf(data))
      ensures i == j
    {
      if i != j {
        var lo, hi := if i < j then i else j, if i < j then j else i;
        KeyMatchTransitive(t[hi], t[lo], data);
        assert false;
      }
    }
  }

  /** Two records that answer the same query answer each other's. */
  lemma KeyMatchTransitive(a: PayrollRecord, b: PayrollRecord, q: PayrollRecord)
    requires MatchesKey(a, KeyOf(q)) && MatchesKey(b, KeyOf(q))
    ensures MatchesKey(a, KeyOf(b))
  {
    FieldMatchesIsSerializedEquality(a.employeeId, q.employeeId);
    FieldMatchesIsSerializedEquality(b.employeeId, q.employeeId);
    FieldMatchesIsSerializedEquality(a.employeeId, b.employeeId);
    FieldMatchesIsSerializedEquality(a.month, q.month);
    FieldMatchesIsSerializedEquality(b.month, q.month);
    FieldMatchesIsSerializedEquality(a.month, b.month);
    FieldMatchesIsSerializedEquality(a.year, q.year);
    FieldMatchesIsSerializedEquality(b.year, q.year);
    FieldMatchesIsSerializedEquality(a.year, b.year);
  }

  // ---------------------------------------------------------------------------
  // POST /create-payment-intent

  /** The fields the handler reads from the body. `payableSalary` is the
      number the client sends; 0 stands for every falsy value (missing,
      `null`, `0`). */
  datatype IntentRequest = IntentRequest(payableSalary: int, employeeId: Value, month: Value, year: Value)

  /** The payment intent the handler asks the card gateway to create. */
  datatype GatewayCall = GatewayCall(amount: int, currency: string, automaticPaymentMethods: bool)

  /** What the gateway answers: a client secret, or an error it raises. */
  datatype GatewayReply = Created(clientSecret: string) | Declined(reason: string)

  /** The handler's answer and the gateway request it made, if any. The
      handler takes no store out: it never writes to the collection. */
  datatype IntentOutcome = IntentOutcome(response: Response<PayrollRecord>, call: Option<GatewayCall>)

  const MissingFields := "Missing required fields."
  const IntentFailed := "Failed to create payment intent"

  function IntentKey(req: IntentRequest): Key {
    Key(req.employeeId, req.month, req.year)
  }

  /** The validation the handler performs before any gateway call. */
  predicate Admissible(req: IntentRequest, s: seq<PayrollRecord>) {
    req.payableSalary != 0 && Truthy(req.employeeId) && HasKey(s, IntentKey(req))
  }

  /** Behind `verifyToken`: looks the payroll record up, answers 400 without
      calling the gateway when the salary or employee id is falsy or no
      record holds the key, and otherwise asks for the salary in cents. */
  function CreatePaymentIntent(session: Session, req: IntentRequest, s: seq<PayrollRecord>, reply: GatewayReply): (out: IntentOutcome)
    ensures !session.Verified? ==> out == IntentOutcome(Message(401, UnauthorizedAccess), None)
    ensures out.call.Some? <==> session.Verified? && Admissible(req, s)
    ensures session.Verified? && !Admissible(req, s) ==> out.response == Message(400, MissingFields)
    ensures out.call.Some? ==> out.call.value == GatewayCall(100 * req.payableSalary, "usd", true)
    ensures out.call.Some? && reply.Created? ==> out.response == ClientSecret(reply.clientSecret)
    ensures out.call.Some? && reply.Declined? ==> out.response == ErrorDetail(500, IntentFailed, reply.reason)
  {
    if !session.Verified? then IntentOutcome(Message(401, UnauthorizedAccess), None)
    else
      var user := FindFirst(s, KeyFilter(IntentKey(req)));
      HasKeyIffFound(s, IntentKey(req));
      if req.payableSalary == 0 || !Truthy(req.employeeId) || user.None? then
        IntentOutcome(Message(400, MissingFields), None)
      else
        var totalSalary := req.payableSalary * 100;
        var call := GatewayCall(totalSalary, "usd", true);
        match reply
        case Created(secret) => IntentOutcome(ClientSecret(secret), Some(call))
        case Declined(reason) => IntentOutcome(ErrorDetail(500, IntentFailed, reason), Some(call))
  }

  /** The intent is checked against the record's existence only: a record
      already marked complete still admits a new charge, and the amount comes
      from the request, not from the record's `payableSalary`. */
  lemma IntentIgnoresCompletionAndStoredAmount(session: Session, req: IntentRequest, s: seq<PayrollRecord>, reply: GatewayReply, i: nat)
    requires session.Verified?
    requires req.payableSalary != 0 && Truthy(req.employeeId)
    requires i < |s| && MatchesKey(s[i], IntentKey(req))
    ensures CreatePaymentIntent(session, req, s, reply).call == Some(GatewayCall(100 * req.payableSalary, "usd", true))
  {
  }

  // ---------------------------------------------------------------------------
  // PATCH /payment-process

  datatype CompletionRequest = CompletionRequest(employeeId: Value, month: Value, year: Value, transactionId: Value)

  function CompletionKey(req: CompletionRequest): Key {
    Key(req.employeeId, req.month, req.year)
  }

  /** The `$set` of the completion: the record keeps its key and every other field. */
  function MarkComplete(r: PayrollRecord, tx: Value): (c: PayrollRecord)
    ensures KeyOf(c) == KeyOf(r)
    ensures c.isComplete == Bool(true) && c.status == Str("Complete") && c.transactionId == Serialized(tx)
    ensures c.(isComplete := r.isComplete, status := r.status, transactionId := r.transactionId) == r
  {
    r.(isComplete := Bool(true), status := Str("Complete"), transactionId := Serialized(tx))
  }

  /** Behind `verifyToken`: marks the first record holding the key complete,
      whatever its current state; inserts nothing when none does. */
  function ProcessPayment(session: Session, req: CompletionRequest, s: seq<PayrollRecord>): (out: Reply<PayrollRecord>)
    ensures !session.Verified? ==> out == Reply(Message(401, UnauthorizedAccess), s)
    ensures |out.store| == |s|
    ensures session.Verified? && !HasKey(s, CompletionKey(req)) ==> out == Reply(Updated(0, 0), s)
    ensures session.Verified? ==> forall i :: IsFirst(s, KeyFilter(CompletionKey(req)), i) ==>
              && out.store[i] == s[i].(isComplete := Bool(true), status := Str("Complete"), transactionId := Serialized(req.transactionId))
              && (forall j :: 0 <= j < |s| && j != i ==> out.store[j] == s[j])
              && out.response == Updated(1, if out.store[i] == s[i] then 0 else 1)
  {
    if !session.Verified? then Reply(Message(401, UnauthorizedAccess), s)
    else
      var p := KeyFilter(CompletionKey(req));
      var t := UpdateFirst(s, p, r => MarkComplete(r, req.transactionId));
      HasKeyIffFound(s, CompletionKey(req));
      match FindFirst(s, p)
      case None => Reply(Updated(0, 0), t)
      case Some(i) => Reply(Updated(1, if t[i] == s[i] then 0 else 1), t)
  }

  /** Completing twice with the same arguments leaves the store as completing
      once; the repeat matches the record and modifies nothing. */
  lemma ProcessPaymentIdempotent(session: Session, req: CompletionRequest, s: seq<PayrollRecord>)
    ensures var once := ProcessPayment(session, req, s);
            var twice := ProcessPayment(session, req, once.store);
            && twice.store == once.store
            && (session.Verified? && HasKey(s, CompletionKey(req)) ==> twice.response == Updated(1, 0))
  {
    var p := KeyFilter(CompletionKey(req));
    var once := ProcessPayment(session, req, s);
    if session.Verified? {
      HasKeyIffFound(s, CompletionKey(req));
      match FindFirst(s, p)
      case None =>
      case Some(i) =>
        var c := MarkComplete(s[i], req.transactionId);
        assert once.store == s[i := c];
        UpdateKeepsFirst(s, p, i, c);
        assert MarkComplete(c, req.transactionId) == c;
        assert ProcessPayment(session, req, once.store).store[i] == c;
    }
  }

  /** A completion keeps invariant I1: it rewrites no key. */
  lemma ProcessPaymentPreservesUniqueKeys(session: Session, req: CompletionRequest, s: seq<PayrollRecord>)
    requires UniqueKeys(s)
    ensures UniqueKeys(ProcessPayment(session, req, s).store)
  {
    var t := ProcessPayment(session, req, s).store;
    assert forall k :: 0 <= k < |s| ==> KeyOf(t[k]) == KeyOf(s[k]) by {
      if session.Verified? {
        HasKeyIffFound(s, CompletionKey(req));
      }
    }
    forall i, j | 0 <= i < j < |t|
      ensures !MatchesKey(t[j], KeyOf(t[i]))
    {
      assert KeyOf(t[i]) == KeyOf(s[i]) && KeyOf(t[j]) == KeyOf(s[j]);
    }
  }

  // ---------------------------------------------------------------------------
  // GET /admin-stat: total salary paid

  /** The record selected by `{ isComplete: true }`. */
  predicate Completed(r: PayrollRecord) {
    r.isComplete == Bool(true)
  }

  /** What `$sum: "$payableSalary"` adds for one record: its amount when it is
      a number, nothing otherwise. */
  function Amount(r: PayrollRecord): int {
    if r.payableSalary.Num? then r.payableSalary.n else 0
  }

  /** A record's share of the completed-salary total. */
  function Contribution(r: PayrollRecord): int {
    if Completed(r) then Amount(r) else 0
  }

  /** `totalSalaryPaid`: the numeric `payableSalary` values of the completed
      records, summed; 0 when no record is completed (the empty aggregate
      falls back to `|| 0`). */
  function CompletedSalaryTotal(s: seq<PayrollRecord>): (total: int)
    ensures (forall i :: 0 <= i < |s| ==> !Completed(s[i])) ==> total == 0
    ensures (forall i :: 0 <= i < |s| ==> Amount(s[i]) >= 0) ==> total >= 0
  {
    if |s| == 0 then 0
    else CompletedSalaryTotal(s[..|s| - 1]) + Contribution(s[|s| - 1])
  }

  /** The `$match: { isComplete: true }` stage: the completed records, in
      collection order. */
  function MatchCompleted(s: seq<PayrollRecord>): (m: seq<PayrollRecord>)
    ensures |m| <= |s|
    ensures forall k :: 0 <= k < |m| ==> Completed(m[k])
    ensures forall r :: r in s && Completed(r) ==> r in m
    ensures forall r :: r in m ==> r in s
    ensures forall r :: multiset(m)[r] == (if Completed(r) then multiset(s)[r] else 0)
  {
    if |s| == 0 then []
    else
      var init, last := s[..|s| - 1], s[|s| - 1];
      assert s == init + [last];
      if Completed(last) then MatchCompleted(init) + [last]
      else MatchCompleted(init)
  }

  /** The `$group` stage's `$sum: "$payableSalary"` over the matched records. */
  function SumPayable(m: seq<PayrollRecord>): int {
    if |m| == 0 then 0 else SumPayable(m[..|m| - 1]) + Amount(m[|m| - 1])
  }

  /** The per-record total agrees with the aggregation pipeline as the
      endpoint writes it: match the completed records, then sum. */
  lemma {:induction false} CompletedSalaryTotalIsPipeline(s: seq<PayrollRecord>)
    ensures CompletedSalaryTotal(s) == SumPayable(MatchCompleted(s))
    decreases |s|
  {
    if |s| > 0 {
      CompletedSalaryTotalIsPipeline(s[..|s| - 1]);
      var m := MatchCompleted(s[..|s| - 1]);
      if Completed(s[|s| - 1]) {
        assert (m + [s[|s| - 1]])[..|m|] == m;
      }
    }
  }

  /** Replacing one record changes the total by the difference of the two
      records' contributions. */
  lemma {:induction false} TotalAfterReplace(s: seq<PayrollRecord>, i: nat, x: PayrollRecord)
    requires i < |s|
    ensures CompletedSalaryTotal(s[i := x]) == CompletedSalaryTotal(s) - Contribution(s[i]) + Contribution(x)
    decreases |s|
  {
    var t := s[i := x];
    if i == |s| - 1 {
      assert t[..|t| - 1] == s[..|s| - 1];
    } else {
      assert t[..|t| - 1] == s[..|s| - 1][i := x];
      TotalAfterReplace(s[..|s| - 1], i, x);
    }
  }

  /** A payment request adds the inserted record's contribution, which is 0
      unless the body itself claims `isComplete: true`. */
  lemma RequestPaymentTotal(data: PayrollRecord, newId: Id, s: seq<PayrollRecord>)
    ensures var t := RequestPayment(data, newId, s).store;
            CompletedSalaryTotal(t) == CompletedSalaryTotal(s) + (if HasKey(s, KeyOf(data)) then 0 else Contribution(data))
  {
    var t := RequestPayment(data, newId, s).store;
    if !HasKey(s, KeyOf(data)) {
      assert t[..|t| - 1] == s;
    }
  }

  /** Completing a record adds its amount to the total paid only when it was
      not already complete: repeated completions are not counted twice. */
  lemma ProcessPaymentTotal(session: Session, req: CompletionRequest, s: seq<PayrollRecord>, i: nat)
    requires session.Verified?
    requires IsFirst(s, KeyFilter(CompletionKey(req)), i)
    ensures CompletedSalaryTotal(ProcessPayment(session, req, s).store)
            == CompletedSalaryTotal(s) + (if Completed(s[i]) then 0 else Amount(s[i]))
  {
    var t := ProcessPayment(session, req, s).store;
    var c := MarkComplete(s[i], req.transactionId);
    assert t == s[i := c];
    TotalAfterReplace(s, i, c);
  }

  // ---------------------------------------------------------------------------
  // Sequences of payroll requests

  /** One payroll request as it reaches the collection. */
  datatype PayrollOp =
    | RequestOp(data: PayrollRecord, newId: Id)
    | IntentOp(session: Session, intent: IntentRequest, reply: GatewayReply)
    | ProcessOp(session: Session, completion: CompletionRequest)

  function Apply(op: PayrollOp, s: seq<PayrollRecord>): seq<PayrollRecord> {
    match op
    case RequestOp(data, newId) => RequestPayment(data, newId, s).store
    case IntentOp(_, _, _) => s
    case ProcessOp(session, completion) => ProcessPayment(session, completion, s).store
  }

  lemma ApplyPreservesUniqueKeys(op: PayrollOp, s: seq<PayrollRecord>)
    requires UniqueKeys(s)
    ensures UniqueKeys(Apply(op, s))
  {
    match op
    case RequestOp(data, newId) => RequestPaymentPreservesUniqueKeys(data, newId, s);
    case IntentOp(_, _, _) =>
    case ProcessOp(session, completion) => ProcessPaymentPreservesUniqueKeys(session, completion, s);
  }

  /** The collection after handling `ops` one after another. */
  function Run(ops: seq<PayrollOp>, s: seq<PayrollRecord>): seq<PayrollRecord>
    decreases |ops|
  {
    if |ops| == 0 then s else Run(ops[1..], Apply(ops[0], s))
  }

  /** Requests handled one at a time never create two records holding the
      same composite key, starting from a collection that had none. */
  lemma {:induction false} RunPreservesUniqueKeys(ops: seq<PayrollOp>, s: seq<PayrollRecord>)
    requires UniqueKeys(s)
    ensures UniqueKeys(Run(ops, s))
    decreases |ops|
  {
    if |ops| > 0 {
      ApplyPreservesUniqueKeys(ops[0], s);
      RunPreservesUniqueKeys(ops[1..], Apply(ops[0], s));
    }
  }

  lemma RunFromEmptyHasUniqueKeys(ops: seq<PayrollOp>)
    ensures UniqueKeys(Run(ops, []))
  {
    RunPreservesUniqueKeys(ops, []);
  }
}
