# TeamLoom payroll lifecycle — a Dafny model

TeamLoom's server is an Express application over three MongoDB collections
(`employee`, `tasks`, `payroll`). This project models the part of it with
behaviour worth stating: the payroll request lifecycle and the single-record
employee handlers around it.

- **Payroll** (`payroll.dfy`): an HR payment request (`POST /payment-req`)
  guarded against a second record with the same composite key
  `(employee_id, month, year)`; the payment-intent bridge
  (`POST /create-payment-intent`), which validates the request before any call
  to the card gateway and asks for the salary in cents; the completion record
  (`PATCH /payment-process`), which marks the first matching record complete
  and never upserts; and the "total salary paid" figure of `GET /admin-stat`.
- **Employees** (`employees.dfy`): the `verifyHR` gate, Google sign-in's
  register-or-return, `/add-user`'s unconditional insert, promotion to HR and
  the verification toggle.
- **Values** (`values.dfy`): scalar JSON field values with JavaScript truthiness and
  the MongoDB equality condition, under which a `null` or `undefined` condition
  matches a null or missing field.
- **Store** (`store.dfy`): a collection is a `seq` of documents; `findOne` and
  `updateOne` address the earliest match, `insertOne` appends.
- **Http** (`http.dfy`): responses, and the session `verifyToken` establishes.

Each handler is a pure function from the request and the collection to the
response and the new collection (`Reply`). The card gateway is not called:
`CreatePaymentIntent` returns the `GatewayCall` it would make, and takes the
gateway's answer as a parameter. Clock readings (`now`) and generated document
ids (`newId`) are parameters too.

Two behaviours of the code are worth knowing before reading the model:

- `/add-user`'s comments (index.js:126, 130) promise a lookup followed by an
  insert only when nothing is found, but the handler always inserts (see
  Findings); only Google sign-in is register-or-return.
- Payment-intent creation checks only that some record holds the key
  (index.js:407), so a completed record still admits a charge, and the amount
  comes from the request body, not from the stored record
  (`Payroll.IntentIgnoresCompletionAndStoredAmount`).

## Model

| member | source | states |
|---|---|---|
| `Values.Not` | index.js:267 | `!user.isVerified` is always a boolean whose truth is the opposite of the flag's truthiness, so a missing flag becomes `true` |
| `Values.Serialized` | index.js:438 | a value the driver writes is never undefined: an undefined transaction id reaches the document as null, and defined values are written as they are |
| `Values.FieldMatchesIsSerializedEquality` | index.js:282-286 | a filter condition matches exactly when the two values are equal once undefined is read as null, so key matching is symmetric and reflexive |
| `Store.FindFirst` | index.js:282-286 | `findOne` answers the earliest document that satisfies the filter, and nothing exactly when no document does |
| `Store.UpdateFirst` | index.js:432-441 | `updateOne` rewrites only the earliest matching document, keeps the collection's length, and changes nothing when none matches (no upsert) |
| `Payroll.RequestPayment` | index.js:277-295 | a body whose key some record already answers gets 400 "Payment Exists" and the store is unchanged; otherwise the store is the old one with exactly the body appended |
| `Payroll.RequestPaymentPreservesUniqueKeys` | index.js:282-294 | a payment request never creates a second record answering an existing record's key query (invariant I1 is preserved) |
| `Payroll.RequestLeavesKeyHeldOnce` | index.js:282-294 | after a payment request on a store satisfying I1, exactly one record answers the requested key, whether the request was refused or inserted |
| `Payroll.RunPreservesUniqueKeys` | index.js:277-302 | any sequence of payment requests, intents and completions, handled one at a time, keeps I1 |
| `Payroll.RunFromEmptyHasUniqueKeys` | index.js:282-294 | starting from an empty payroll collection, sequential requests never produce two records with the same composite key |
| `Payroll.CreatePaymentIntent` | index.js:396-427 | without a valid session the answer is 401 and no gateway call; with one, the gateway is called iff the salary and employee id are truthy and a record holds the key, else 400 "Missing required fields."; the call asks for 100 × salary in "usd", and the answer is the client secret or a 500 with the gateway's error |
| `Payroll.IntentIgnoresCompletionAndStoredAmount` | index.js:400-416 | any record holding the key admits the charge, even one already complete, and the amount is 100 × the request's salary whatever the record stores |
| `Payroll.MarkComplete` | index.js:435-439 | completion sets `isComplete: true`, `status: "Complete"` and the transaction id (undefined stored as null) and keeps the key and every other field |
| `Payroll.ProcessPayment` | index.js:430-444 | without a valid session 401 and no change; otherwise only the first record answering the key is rewritten as above, no other record changes, nothing is inserted when none matches, and the acknowledgement reports 1 modified only if the record changed |
| `Payroll.ProcessPaymentIdempotent` | index.js:432-441 | completing twice with the same arguments leaves the same store as completing once, and the repeat reports 1 matched, 0 modified |
| `Payroll.ProcessPaymentPreservesUniqueKeys` | index.js:432-441 | a completion rewrites no key field, so invariant I1 is kept |
| `Payroll.CompletedSalaryTotal` | index.js:467-475 | the total salary paid is 0 when no record is complete and never negative when no stored amount is |
| `Payroll.MatchCompleted` | index.js:469 | the `$match` stage keeps exactly the completed records of the collection, each as many times as it occurs there (equal as multisets), and no other record, which fixes the sum the `$group` stage computes |
| `Payroll.CompletedSalaryTotalIsPipeline` | index.js:467-475 | summing each record's completed amount gives the same total as matching the completed records and then summing their numeric `payableSalary` |
| `Payroll.TotalAfterReplace` | index.js:469-470 | replacing one record changes the completed-salary sum by exactly the difference of the two records' contributions |
| `Payroll.RequestPaymentTotal` | index.js:288-294 | a refused request leaves the total paid unchanged; an accepted one adds the body's amount only if the body itself claims `isComplete: true` |
| `Payroll.ProcessPaymentTotal` | index.js:432-441 | completing a record adds its numeric amount to the total paid once: a record that was already complete adds nothing |
| `Employees.VerifyHr` | index.js:79-90 | the gate passes iff the first employee answering the caller's email has role exactly "hr"; otherwise 403 "Forbidden Access! HR Only Actions!", including when no employee answers |
| `Employees.VerifyHrWithUniqueEmails` | index.js:83-84 | when no two employees share an email, the gate passes iff some employee with the caller's email has role "hr" |
| `Employees.VerifyHrShadowedByEarlierRecord` | index.js:83-84 | with a duplicated email, an HR record behind an earlier non-HR record with the same email is refused |
| `Employees.Stamped` | index.js:150-153 | the inserted document is the body with the generated id and the insertion time, every other field as sent |
| `Employees.RegisterOrReturn` | index.js:140-155 | Google sign-in answers the first employee with the path's email and writes nothing, or, when there is none, appends exactly the stamped body |
| `Employees.RegisterOrReturnIdempotent` | index.js:144-154 | signing in twice with a body carrying the path's email inserts at most once; the second call finds the stored record and leaves the store as the first left it |
| `Employees.RegisterOrReturnPreservesUniqueEmails` | index.js:144-154 | with a body carrying the path's email, sign-in keeps employee emails unique |
| `Employees.AddUser` | index.js:122-137 | `/add-user` ignores its lookup and always appends the stamped body, keeping every earlier employee |
| `Employees.AddUserTwiceDuplicates` | index.js:126-134 | adding the same user twice stores two records with that email, so emails are no longer unique |
| `Employees.Promote` | index.js:199-205 | promotion sets `makeHR: true` and `role: "hr"` and keeps every other field |
| `Employees.MakeHr` | index.js:196-212 | only the employee with the given id is promoted, nothing is inserted when the id is absent (0 matched), and an already promoted employee reports 0 modified |
| `Employees.MakeHrIdempotent` | index.js:203-209 | promoting twice leaves the same store as promoting once |
| `Employees.MakeHrOpensGate` | index.js:196-212 | a promoted employee who is the first record under their email passes the HR gate afterwards |
| `Employees.ToggleVerified` | index.js:260-274 | the addressed employee's flag becomes the boolean negation of its truthiness, no other field or employee changes, and the acknowledgement always reports 1 modified; an absent id throws before any reply and writes nothing |
| `Employees.ToggleTwice` | index.js:263-271 | two toggles restore a flag that was a boolean, and turn a missing or non-boolean flag into the boolean of its truthiness |

## Findings

| source | as written | input that shows it | evidently intended | confidence | as-written member | corrected member |
|---|---|---|---|---|---|---|
| index.js:126-134 | the lookup by email is made, its result `isExist` is never read, and the body is inserted unconditionally | two `POST /add-user/a@x.io` with body `{ email: "a@x.io" }` store two employee records with that email | insert only when no employee has the email, as the comment above the insert and Google sign-in do | not executed; high | `Employees.AddUserTwiceDuplicates` | `Employees.RegisterOrReturnIdempotent` |

The duplicate the finding produces also matters to the HR gate: only the first
record under an email is consulted (`Employees.VerifyHrShadowedByEarlierRecord`).

## Left out

- Express routing, CORS, request logging, cookie parsing and the `/jwt` and `/logout` cookie handling: HTTP plumbing with nothing to state.
- JWT signature and expiry checking in `verifyToken`: cryptography inside a library; its outcome is the input `Session` (no token, a rejected token, or the decoded email claim).
- `ObjectId` parsing, including `new ObjectId(req.params)` in `/verify/:id` and `/delete-task/:id`: ids are taken as already parsed natural numbers.
- The card gateway client: the request it would receive is the output `GatewayCall`, its answer the parameter `GatewayReply`.
- `Date.now()` and the driver's `_id` generation: they are the parameters `now` and `newId`; a body that brings its own `_id` is not modelled.
- Payroll.RequestPayment: the 500 "An error occurred" answer of its catch block is not modelled, because database failures are not part of this model.
- Payroll.CreatePaymentIntent: `payableSalary` is an integer with 0 standing for every falsy value; JavaScript's coercion of a string or `true` by `* 100`, and fractional amounts, are not modelled.
- Employees.ToggleVerified: what the framework or the process does after the handler throws on an absent id is not modelled; the model records only that no reply is sent and nothing is written.
- Object- and array-valued request fields: every body field is a scalar. A field such as `employee_id: { "$ne": null }` would reach the driver as a query operator, letting `/create-payment-intent` pass its lookup, and `/payment-process` complete the first record of any employee, for the given month and year; those query operators are not modelled.
- MongoDB matching beyond equality on scalar fields (arrays, numeric type bracketing) and the aggregation engine beyond the completed-salary sum.
- Check-then-act races between concurrent requests (duplicate guard, toggle): the model is sequential.
- `verifyAdmin`: it reads an undefined collection and is mounted on no route.
- The other endpoints (`/all-employee`, `/allemployees`, `/employee/:email`, `/employee/id/:id`, `/adjust-salary/:id`, `/role/:email`, `/fire/:id`, `/only-employees`, `/all-payment-request`, `/donepayment/:empid`, the task endpoints, `/employee/role/:email`) and the role counts, working hours and task overview of `/admin-stat`: plain query pass-throughs, with `parseInt` and regular-expression filtering among them.
