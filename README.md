# FastAPI user calculations — a Dafny model of the request logic

The application is a small web backend. Users register and log in, and each
request resolves to a user. That user can then browse, add, read, edit and
delete "calculations": two operands, an operation name and the computed
result. This project models the logic under the HTTP and ORM calls over
in-memory tables, and proves what the handlers promise:

- **Arithmetic dispatch** (`perform_operation`). The name is lower-cased and
  matched against add, subtract, multiply and divide. Division by zero and
  unknown names are defined 400 failures.
- **The calculations table.** This is a class holding `map<int, Calc>` and a
  fresh-id counter, with one method per BREAD handler. Its invariant is that
  every stored `result` equals the evaluation of the stored operation.
  Every by-id handler answers 404 for a row that is absent and for a row
  owned by another user.
- **The users table.** This is a class holding `map<int, User>` and a
  fresh-id counter. It has `register` (emails stay unique), `login`
  (read-only) and `get_current_user`. `get_current_user` takes the token
  path, with a uniform 401, or the no-token fallback, which may create the
  default user.
- **Cross-request properties**, stated as client methods:
  - the fallback is idempotent;
  - registering the same email twice fails the second time;
  - register, then login, then presenting the token resolves to the same user;
  - ownership isolation;
  - create, edit, delete, then read.

Modules: `Common` (Option, Result, the HTTP errors), `Text` (ASCII `lower`,
`str(int)`, `int(str)`), `Security` (the hashing and token collaborators),
`Calculations`, `Users`, `Scenarios`.

The hashing and JWT functions live in app/security.py and python-jose. That
code is not part of this model. These functions are fields of a `Primitives`
value that the user store holds, so every contract holds whatever they
compute. Where a property needs them to behave, the property takes that as a
stated hypothesis: `TokensRoundTrip` (an issued token is non-empty and
decodes to its subject) or `HashVerifies` (a password verifies against its
own hash).

The model follows the code as written; in particular:

- A token whose subject is not an integer makes `int(user_id)` raise
  `ValueError` outside the `try`. That gives a 500 (`InternalServerError`),
  not the uniform 401.
- The no-token fallback calls `.first()` without `order_by`. The model
  returns *some* stored user, chosen nondeterministically, not the one with
  the lowest id.
- Python's `if token:` treats an empty token string as absent, so `""`
  takes the fallback path (`HasToken`).
- app/main.py mounts a `users` router, which is not part of this model. The
  handlers of app/routers/auth.py are modelled as written.

## Model

| member | source | states |
|---|---|---|
| `Text.Lower` | app/routers/calculations.py:24 | lower-casing keeps the length of the name and lower-cases each character in place |
| `Text.LowerChar` | app/routers/calculations.py:24 | upper-case ASCII letters map to their lower-case letter, every other character is kept, and no upper-case letter remains |
| `Text.LowerIdempotent` | app/routers/calculations.py:24 | lower-casing an already lower-cased name changes nothing |
| `Text.LowerKeepsLowercase` | app/routers/calculations.py:25-31 | a name without upper-case letters, such as "add", is its own lower-cased form |
| `Text.LowerIgnoresCase` | app/routers/calculations.py:24 | two names that differ only in letter case lower-case to the same string |
| `Text.NatToString` | app/routers/auth.py:64 | `str(n)` of a non-negative id is a non-empty run of digits with no leading zero |
| `Text.IntToString` | app/routers/auth.py:64 | `str(n)` is non-empty and starts with a digit exactly when `n >= 0` |
| `Text.ParseInt` | app/dependencies.py:44 | `int(s)` succeeds exactly on an optional sign followed by digits; a leading minus gives a value `<= 0`, otherwise `>= 0` |
| `Text.NatToStringValue` | app/routers/auth.py:64 | reading back the digits written for `n` gives `n` |
| `Text.ParseIntToString` | app/dependencies.py:44 | `int(str(n)) == n` for every integer, so the subject written at login parses back to the id |
| `Calculations.ParseOp` | app/routers/calculations.py:24-31 | the name selects operation `op` exactly when its lower-cased form is `op`'s name |
| `Calculations.Eval` | app/routers/calculations.py:25-37 | fails exactly on divide by zero, with 400 "Cannot divide by zero"; otherwise the result is the sum, difference, product, or the quotient `q` with `q * b == a` |
| `Calculations.PerformOperation` | app/routers/calculations.py:19-42 | every failure is a 400; an unknown name fails with the name echoed; success exactly when the name is known and it is not a division by zero |
| `Calculations.ArithmeticNeverFails` | app/routers/calculations.py:25-30 | add, subtract and multiply, in any letter case, return `a+b`, `a-b`, `a*b` and never fail |
| `Calculations.DivideGuard` | app/routers/calculations.py:31-37 | divide by zero fails 400 for every dividend; any other divisor gives `a/b` |
| `Calculations.UnsupportedFails` | app/routers/calculations.py:38-42 | any name that is not one of the four after lower-casing fails 400 "Unsupported operation '<name>'" |
| `Calculations.CaseInsensitive` | app/routers/calculations.py:24 | a name and its lower-cased form select the same operation, succeed together, and give the same value |
| `Calculations.CaseVariantsAgree` | app/routers/calculations.py:24 | "ADD", "Add" and "add" (any case variants) select the same operation, succeed together, and give the same value |
| `Calculations.CalcTable.Browse` | app/routers/calculations.py:45-59 | returns exactly the rows owned by the user, each as stored, in strictly ascending id order |
| `Calculations.CalcTable.Add` | app/routers/calculations.py:62-88 | evaluates first; on failure returns that 400 and the table is unchanged; on success adds exactly one row under a fresh id, owned by the user, with the operation as given (not lower-cased), the computed result and the timestamp; the result-consistency invariant is kept |
| `Calculations.CalcTable.Read` | app/routers/calculations.py:91-106 | succeeds exactly when the row exists and belongs to the user, and returns it; otherwise 404 |
| `Calculations.CalcTable.Edit` | app/routers/calculations.py:109-137 | 404 and no change unless the row is the user's; an evaluation failure returns its 400 and persists nothing; otherwise it replaces operation, operands and a recomputed result, keeping owner and creation time, and changes no other row |
| `Calculations.CalcTable.Delete` | app/routers/calculations.py:140-160 | succeeds exactly when the row is the user's and removes exactly that id; otherwise 404 and no change |
| `Users.ResolveToken` | app/dependencies.py:30-48 | a decode error, a missing subject and an unknown id all give the same 401 "Could not validate credentials"; a non-integer subject gives a 500; success exactly when the subject parses to a stored id, and then the user returned is the one under exactly that id |
| `Users.IssuedTokenResolves` | app/dependencies.py:36-48 | a token issued for `str(id)` of a stored user resolves to that user |
| `Users.InsertKeepsEmailsUnique` | app/routers/auth.py:24-43 | inserting a user whose email is not taken keeps emails unique |
| `Users.UserStore.Register` | app/routers/auth.py:13-43 | a taken email (exact comparison) fails 400 and changes nothing; otherwise exactly one new active user with the hash of the password under a fresh id; emails stay unique |
| `Users.UserStore.Login` | app/routers/auth.py:46-65 | succeeds exactly when a user with that email exists and the password verifies; one 401 for both failures; on success a "bearer" token issued for `str(id)` of that user; never changes the store |
| `Users.UserStore.CurrentUser` | app/dependencies.py:18-62 | with a token it is the token branch and changes nothing; without one it never fails; with users present, some stored user and no change; with none, exactly one default "test@example.com" user is inserted and returned; the result is always a stored user |
| `Scenarios.SampleValues` | app/routers/calculations.py:25-30 | "add" on 2 and 3 gives 5, and "multiply" on 4 and 5 gives 20 |
| `Scenarios.FallbackIsIdempotent` | app/dependencies.py:50-62 | two no-token requests on an empty store resolve to the same user, and the store ends with exactly that one user |
| `Scenarios.RegisterTwice` | app/routers/auth.py:24-43 | the first registration of an email succeeds; the second fails 400 and leaves the store as the first left it |
| `Scenarios.RegisterLoginResolve` | app/routers/auth.py:46-65 | after register and login with the same password, presenting the bearer token resolves to the registered user |
| `Scenarios.OwnershipIsolation` | app/routers/calculations.py:100-155 | a row created for user A, when read, edited and deleted as user B, gives 404 each time and stays exactly as created |
| `Scenarios.CreateEditDeleteRead` | app/routers/calculations.py:62-160 | add 2 + 3 gives 5; editing it to multiply 4, 5 gives 20 under the same id and creation time; delete succeeds; reading it again gives 404 |

## Left out

- Users.UserStore.CurrentUser: the no-token fallback returns an arbitrary stored user. The database's actual choice for `.first()` without ordering is not modelled.
- Concurrency: two simultaneous no-token requests on an empty store could each insert a default user. The model is single-threaded.
- Password hashing, password verification, token creation and JWT decoding (signature, expiry, secret key, algorithm) are uninterpreted `Primitives` fields. `get_password_hash` is a deterministic function in the model; its per-call random salt is not modelled.
- Text.ParseInt: Python's `int()` also accepts surrounding whitespace, `_` between digits and non-ASCII digits. The model treats those strings as non-numeric.
- Text.ParseInt: Python 3.11 and later (and patched 3.10.7 and later) raise `ValueError` on a decimal string of more than 4300 digits, so such a subject would give a 500. The model accepts digit strings of any length, because the Python version the app runs on is not fixed.
- Text.Lower, Text.LowerChar: only ASCII letters are lower-cased. No non-ASCII character lower-cases to one of the four operation names, so the dispatch is unaffected.
- Operands and results are mathematical reals. IEEE-754 rounding, NaN and infinities are not modelled. The divide-by-zero guard is.
- `created_at = datetime.utcnow()` is an opaque `Timestamp` parameter of `Add`.
- Ids come from a counter that starts at 1 and is never reused. How the database chooses ids is not modelled. Sessions, `commit`, `refresh` and rollback are reduced to "a failed request leaves the table unchanged".
- HTTP status codes, headers, response schemas and routing are reduced to the `Error` datatype and the returned values. app/main.py (app wiring and table creation) is not part of this model.
- The foreign key from a calculation to its user is not modelled. Handlers take the resolved user's id.
