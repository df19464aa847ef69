# Authentication server: credential registry model

A Dafny model of the gRPC authentication server in `cmd/server/main.go`. The
server keeps an in-memory credential registry in three fields: `users`
(username to bcrypt hash), `userIds` (username to user id) and `nextUserId`
(the id the next registration hands out). It serves three requests:

- **Register** refuses a known username. Otherwise it hashes the password,
  stores the hash and the current `nextUserId`, returns that id, and sets
  `nextUserId` to the literal placeholder `"new UUID"`.
- **Login** fails with "user not found" or "invalid password". Otherwise it
  signs a token and returns it, or fails with "failed to create token" when
  signing fails. The token's subject is the user's id as
  `fmt.Sprintf("%d", id)` prints a string: `%!d(string=<id>)`, never the id
  itself. Its expiry is five minutes after the login, cut down to whole
  seconds.
- **Validate** never returns an error. A token that does not parse, or is not
  valid, gives `IsValid = false`.

Layout:

- `outcomes.dfy`, module `Outcomes`: `Option` and `Result`.
- `collaborators.dfy`, module `Collaborators`: the library calls the server
  delegates to. bcrypt generation and comparison, and JWT signing and parsing,
  are oracles: function-valued fields that can succeed or fail. The module
  also models Go's nanosecond clock arithmetic, `jwt.NewNumericDate`'s
  truncation to whole seconds, and what `fmt.Sprintf("%d", s)` prints for a
  string `s`.
- `handlers.dfy`, module `Handlers`: the registry as a value (`Registry`) and
  the three handlers as functions of it. This is the specification.
- `server.dfy`, module `AuthServer`: class `Server` with the source's fields.
  `Register` updates the maps and the id field in place. `Login` and
  `Validate` only read them. Each method is proved equal to its function in
  `Handlers`.
- `traces.dfy`, module `Traces`: registrations handled one after another,
  and what holds over any such sequence. Login and Validate change nothing,
  so registrations alone determine the state.

The model keeps the source's behaviour as written, including its defects:

- Every id after the first is the placeholder `"new UUID"`, so ids collide
  from the second successful registration on. `Traces.RunIdsAfterFirst`,
  `Traces.IdsCollide` and `Traces.ThreeUsersTwoShareId` state this. Nothing
  in the model claims ids are unique.
- The token subject is `fmt.Sprintf("%d", id)` where `id` is a string. Go
  renders that as `%!d(string=<id>)`, not as the id itself.
  `Collaborators.SprintfD` models this rendering, and
  `Collaborators.SprintfDInjective` shows the subject still determines the id.
- Login reports "user not found" and "invalid password" as distinct errors.
- No empty username or password is rejected.

The code does not make ids unique, does not merge the two login errors into
one, and does not reject an empty username or password; the model follows
the code.

Inputs the source takes from its environment are parameters:

- `time.Now()` is `now`, an instant in nanoseconds.
- bcrypt's random salt is `salt`.
- What `fmt.Scanf` leaves in its output variable is `scanned`.

## Model

| member | source | states |
|---|---|---|
| Collaborators.NumericDate | cmd/server/main.go:86 | the expiry instant is whole seconds, at most one second below the exact instant and never above it |
| Collaborators.SprintfD | cmd/server/main.go:85 | Go's %d of a string is the fixed prefix `%!d(string=`, the operand unchanged and `)`, one character longer than prefix plus operand |
| Collaborators.SprintfDInjective | cmd/server/main.go:85 | different ids give different subjects, so the subject still identifies the id |
| Collaborators.SprintfDIsNotOperand | cmd/server/main.go:85 | the subject is never the id itself |
| Handlers.Register | cmd/server/main.go:50-69 | a known username gives UserExists and no change. A hash failure gives HashFailed and no change. Success happens exactly when the username is new and hashing succeeds. It stores the hash and the pre-call nextUserId, returns that id, sets nextUserId to "new UUID" and adds exactly one username. Every other username keeps its entries, and aligned key sets stay aligned |
| Handlers.LoginClaims | cmd/server/main.go:83-87 | the subject is the %d rendering of the stored id (the empty string for a missing key). Expiry is within the second before now + 5 minutes |
| Handlers.Login | cmd/server/main.go:71-98 | an unknown username gives UserNotFound. A hash that rejects the password gives InvalidPassword. A known user with a matching password whose signing fails gets TokenCreationFailed, and that error occurs only then. It succeeds exactly when the user exists, the password matches and signing succeeds, and then returns the token signed over the login claims |
| Handlers.Validate | cmd/server/main.go:100-124 | valid exactly when the parser accepts the token and flags it valid. An invalid reply carries the empty id. A valid reply carries what Scanf left, not the subject |
| Handlers.LoginAfterRegister | cmd/server/main.go:55-63 | right after a successful Register, if bcrypt accepts its own hashes, Login with the same password fails neither with UserNotFound nor with InvalidPassword, and its subject names the id Register returned |
| Handlers.LoginTokenExpiry | cmd/server/main.go:83-116 | if the JWT library honours `exp`, a Login token passes Validate exactly before its expiry. It passes up to one second short of 5 minutes after issue, and from 5 minutes on it gives the zero response |
| AuthServer.Server.constructor | cmd/server/main.go:34-39 | empty maps, the given first id, the built-in key "my_key", and so both maps have the same (empty) key set |
| AuthServer.Server.Register | cmd/server/main.go:50-69 | the new fields and the reply are exactly Handlers.Register of the old fields, and maps with one key set keep one key set |
| AuthServer.Server.Login | cmd/server/main.go:71-98 | the reply is Handlers.Login of the current fields and key. The method has no modifies clause, so the state cannot change |
| AuthServer.Server.Validate | cmd/server/main.go:100-124 | the reply is Handlers.Validate with the server's key. The state cannot change |
| Traces.Run | cmd/server/main.go:50-69 | a sequence of registrations yields exactly one reply per request |
| Traces.RunKeepsAligned | cmd/server/main.go:18-19 | over any sequence of registrations, users and userIds keep the same key set |
| Traces.RunKeepsEntries | cmd/server/main.go:51-63 | a registered user's hash, and its id if one is stored, are never changed or removed by later registrations. With aligned key sets that covers every stored id |
| Traces.RunRefusesKnown | cmd/server/main.go:51-53 | a request for a username already registered when the sequence starts is refused with UserExists |
| Traces.RunRegistersOnce | cmd/server/main.go:51-53 | once a username has registered successfully, every later request for it fails with UserExists |
| Traces.RunFromPlaceholder | cmd/server/main.go:61-64 | once nextUserId is the placeholder, every successful registration is handed the placeholder |
| Traces.RunIdsAfterFirst | cmd/server/main.go:61-64 | every successful registration after another successful one in the same sequence gets "new UUID" |
| Traces.IdsCollide | cmd/server/main.go:64 | of any three successful registrations, the second and third get the same id, so ids are not unique |
| Traces.ThreeUsersTwoShareId | cmd/server/main.go:61-64 | on a fresh server, alice, bob and carol get firstId, "new UUID" and "new UUID", and bob and carol share a stored id |
| Traces.LoginAfterTrace | cmd/server/main.go:72-85 | after a successful registration and any later registrations, if bcrypt accepts its own hashes, Login with the same password fails neither with UserNotFound nor with InvalidPassword, and its subject names the id first returned |

## Left out

- Process bootstrap, the TCP listener and gRPC registration (main.go:26-48) are transport plumbing. The struct literal at lines 34-39 is the class constructor.
- The constructor takes the first id as a parameter. Line 37 assigns the integer 1 to a string field, so the source as written does not compile; "1" is the evident intent.
- All log output (lines 43, 66, 95, 109, 114, 121) is a side effect only.
- bcrypt internals are oracles (`Bcrypt.generate`, `Bcrypt.compare`). That includes its cost, its salt encoding and its 72-byte password limit. Passwords are strings, not byte slices.
- JWT signing and parsing are oracles (`Jwt.sign`, `Jwt.parse`). That includes ES256 signing (section 3.4 of RFC 7518) and the library's own `exp` check (section 4.1.4 of RFC 7519). The library rejects ES256 signing with a `[]byte` key, which in practice makes every Login fail with TokenCreationFailed. Validate is different: its key function (lines 103-105) hands back the `[]byte` key whatever algorithm the token's header names, and no allowed-methods option is set. So a token signed with HS256 and the built-in "my_key" parses and is valid. Anyone can forge such a token, and one without an `exp` claim never expires. The `parse` oracle can model this, but these are library behaviours the model cannot check.
- Handlers.LoginTokenExpiry: this and Handlers.LoginAfterRegister / Traces.LoginAfterTrace hold only under the stated library premises (`HonoursExpiry`, `AcceptsOwnHashes`). These premises are not proved of the real libraries.
- The `fmt.Scanf` call at line 119 reads standard input, with the subject as its format. Its result is the parameter `scanned`, so the model does not claim the reply's id comes from the token. As written, its first operand is the string `"%d"`, not a pointer, so scanning stops before it reaches `&userUUID`. The reply's id is then in fact always empty; the free parameter covers that case too.
- Concurrency: the handlers run as sequential calls. The source's maps have no lock, and nothing here claims atomicity under parallel requests.
- The `context.Context` argument and the embedded `UnimplementedAuthServiceServer` play no part in the handlers.
