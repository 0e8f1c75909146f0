# User registration: validator and check-then-create

This project models the user-registration handler of the service's users router
(`POST /` in `users/router.js`) and proves properties of the model in Dafny.

The handler does two things:

1. **Validation.** Five stages run in a fixed order over the untrusted JSON body.
   The first failing stage produces the only error record the client sees,
   `{code: 422, reason: 'ValidationError', message, location}`. The stages are:
   - required presence of `username`, `email` and `password`;
   - the string-type check;
   - no surrounding whitespace on `username` and `password`;
   - length bounds (username at least 1; password from 6 to 72);
   - defaulting and trimming of `firstName` and `lastName`.
2. **Check-then-create.** The handler counts the stored users that match both
   the username and the email. If there is one, it rejects with "Username already
   taken". Otherwise it hashes the password, creates the user, and answers 201
   with the serialized user plus an `authToken`. Errors whose reason is
   `ValidationError` keep their code; anything else becomes an opaque 500.

Modules, leaf first:

- `Wrappers`: `Option` and `Result`.
- `Json`: the parsed body and the response bodies.
- `Builtins`: the JavaScript built-ins the handler relies on. These are
  `Array.prototype.find` (`FindFirst`), `String.prototype.trim` (`Trim`, over
  the `IsWs` character set) and `${n}` (`NatToString`).
- `Messages`: the message texts.
- `Validation`: the five stages and `Validate`. Each stage is written the way
  the handler writes it, as a `find` over the handler's field list. Its contract
  compares it with a reference written out field by field (`FirstAbsent`,
  `FirstMistyped`, `FirstUntrimmed`, `Acceptable`).
- `UserStore`: the user store is a sequence of records, with the count query
  and `create`.
- `Registration`: the handler. `Admit` covers everything after validation, and
  `Register` covers the whole handler. Both are pure functions that return the
  new store and the response, so lemmas can relate successive registrations.
- `Examples`: the registration of "alice" and the password boundaries.

Some parts of the handler are outside the model and become parameters of
`Register`:

- the bcrypt hash;
- `User.serialize`;
- `createAuthToken`;
- which asynchronous step throws (the `Faults` record).

Three behaviours of `users/router.js` are worth stating plainly:

- The check matches the (username, email) pair, not the username alone
  (lines 96-108). `UsernameReuseAccepted` shows that the handler's check does
  not block a reused username under another email.
- A failure in `serialize` or `createAuthToken` comes after `User.create`
  (lines 114-128), so the client gets a 500 while the user stays stored
  (`LateFailureKeepsRecord`).
- The handler does not translate a duplicate-key error from the store into the
  "already taken" error (lines 130-137). Any rejection by the store on create is
  a `create` fault, answered with the opaque 500.

## Model

| member | source | states |
|---|---|---|
| Builtins.FindFirst | users/router.js:14-15 | `find` returns the first element of the list that satisfies the test, and nothing when no element does |
| Builtins.Trim | users/router.js:43 | `trim` leaves no whitespace at either end, never lengthens the string, and leaves an already-trimmed string unchanged |
| Builtins.TrimRemovesOnlyEnds | users/router.js:43 | the result of `trim` is a slice of the input with only whitespace before and after it |
| Builtins.TrimEmpty | users/router.js:93-94 | `trim` gives "" exactly when the input is all whitespace |
| Builtins.TrimFixedPoint | users/router.js:41-44 | `s.trim() !== s` holds exactly when `s` starts or ends with whitespace |
| Builtins.TrimIdempotent | users/router.js:91-92 | trimming an already-trimmed value changes nothing |
| Messages.SizeMessages | users/router.js:81-85 | the template literals give "Must be at least 1 characters long", "Must be at least 6 characters long" and "Must be at most 72 characters long" |
| Validation.MissingField | users/router.js:14-15 | the field found is the first absent one in the order username, email, password; nothing is found exactly when all three are present |
| Validation.NonStringField | users/router.js:27-30 | the field found is the first present non-string one in the order username, password, firstName, lastName, email; an absent field is never found; nothing is found exactly when all present ones are strings |
| Validation.NonTrimmedField | users/router.js:41-44 | the field found is username if it has surrounding whitespace, else password if it has; nothing is found exactly when both are trimmed |
| Validation.TooSmallField | users/router.js:55-70 | a trimmed username shorter than 1 is found first, then a trimmed password shorter than 6; nothing is found exactly when both meet their minimum |
| Validation.TooLargeField | users/router.js:55-75 | a rule is found exactly when the trimmed password is longer than 72, and it is the password's rule; username has no maximum |
| Validation.SizeError | users/router.js:77-88 | the report names the too-short field when there is one, with its minimum in the message, and otherwise the too-long field with its maximum; it is absent exactly when 1 <= username and 6 <= password <= 72 |
| Validation.Normalize | users/router.js:90-94 | username, email and password are taken unchanged; firstName and lastName are "" when absent and trimmed when present |
| Validation.NormalizeIdempotent | users/router.js:90-94 | normalizing a body that already carries the normalized first and last names gives the same fields again |
| Validation.NormalizedNamesFromInput | users/router.js:93-94 | a stored first or last name has no surrounding whitespace and is the given name with only leading and trailing whitespace removed |
| Validation.ValidateTyped | users/router.js:41-94 | on a body of strings, every failure is a 422 ValidationError and a success carries trimmed, in-bounds credentials and defaulted, trimmed names |
| Validation.Validate | users/router.js:14-94 | every failure is a 422 ValidationError; on success the body has the required strings, username and password are the body's own, trimmed and within bounds, and the names are defaulted and trimmed |
| Validation.MissingFieldReported | users/router.js:14-25 | a missing required field yields "Missing field" at the first absent one, whatever else the body holds |
| Validation.WrongTypeReported | users/router.js:27-39 | with all required fields present, the first mistyped field in declaration order is reported, and it is a present field |
| Validation.WhitespaceReported | users/router.js:41-53 | surrounding whitespace on username (then password) is rejected even when the trimmed value would be valid |
| Validation.LengthBoundsReported | users/router.js:55-88 | on trimmed fields: empty username is too short; password below 6 too short; above 72 too long; too short beats too long; username has no upper bound |
| Validation.AcceptsExactly | users/router.js:14-94 | the validator succeeds exactly on bodies that have all required fields, the right types, a trimmed username and password, and lengths in bounds |
| UserStore.CountMatching | users/router.js:96-97 | the count is positive exactly when some record has both the username and the email |
| UserStore.Create | users/router.js:114-120 | create appends one record holding the given fields, with an identifier no existing record has, and keeps identifiers distinct |
| Registration.Catch | users/router.js:130-137 | an error whose reason is ValidationError keeps its own code and body; anything else becomes 500 with only `{code: 500, message: 'Internal server error'}`, so no other error detail reaches the client |
| Registration.Admit | users/router.js:96-137 | a taken pair is rejected as "Username already taken" at username with the store unchanged; a failing count query, or a failing hash or create on a free pair, is answered with the opaque 500 and stores nothing; a record is added only for a free pair and holds the hashed password; with no fault a free pair is stored and answered 201 with the serialized user plus `authToken`; a 500 carries no details |
| Registration.Register | users/router.js:13-139 | a rejected body is answered 422 with its record and changes nothing; the store only ever gains one record at its end, and only for a valid body; statuses are 201, 422 or 500 |
| Registration.UsernameReuseAccepted | users/router.js:96-108 | the handler's check does not block a username already stored under another email; with no fault the registration appends a second record with that username |
| Registration.RetryRejected | users/router.js:96-121 | repeating a registration that stored a user is rejected as taken and leaves the store as it was |
| Registration.PreservesDistinctPairs | users/router.js:96-121 | registration never creates two records with the same username and email |
| Registration.LateFailureKeepsRecord | users/router.js:114-137 | when the response step fails after create, the client gets the opaque 500 but the record stays stored |
| Registration.EarlyFailureKeepsStore | users/router.js:96-137 | a failure of the count, the hash or the create leaves the store unchanged, and for a valid body not rejected as taken the answer is the opaque 500 |
| Examples.PasswordBoundaries | users/router.js:55-88 | passwords of length 5 and 73 are rejected with the right messages; lengths 6 and 72 are accepted |
| Examples.AliceRegisters | users/router.js:13-139 | {alice, a@x.com, secret1} is stored with empty names and a hashed password and answered 201; repeating it gives 422 "Username already taken" at username |

## Left out

- The GET `/:username` and `/:username/courses` handlers (users/router.js:146-169) are left out. They are database lookups with ORM population and carry no rules of their own.
- `lesson/models.js` is left out. It is a schema declaration, and its `serialize` depends on ORM population.
- Express routing, `body-parser` and Passport JWT authentication are framework plumbing and are not modelled. A body that is absent or is an array behaves like an object without the required keys, which the model covers with an empty map.
- bcrypt, `User.serialize` and `createAuthToken` are function parameters. The model claims nothing about salting, collisions or the serialized fields; it only says that `authToken` is added. `models.js` for users is not part of this model.
- Promise sequencing and concurrent registrations are left out. The handler's count-then-create is not atomic.
- The user schema is not part of this model, so neither is any unique index it may declare. A storage-level rejection of `create` is modelled as a `create` fault, answered with the opaque 500.
- Console logging is left out, including the unreachable `console.log` after the first `return`.
- JSON numbers are modelled as integers. The handler never reads a number from the body; it only checks whether a value is a string.
- Builtins.IsWs: uses the ECMAScript WhiteSpace and LineTerminator set for one Unicode version, and lengths count characters rather than UTF-16 code units.
- JavaScript's `in` also sees inherited properties. None of the handler's field names is an `Object.prototype` property, so the model uses plain map membership.
- UserStore.CountMatching: states only that the count is positive exactly when a matching record exists and that it is at most the store size. It does not state the exact number, because the handler only compares the count with zero.
- Builtins.NatToString: states only that the result is non-empty decimal digits with no leading zero. The three values the handler renders are fixed by `Messages.SizeMessages`.
