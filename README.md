# Task manager and library: a Dafny model

This project models the decision logic of a series of Go (Gin) services from a learning repository.

**Console library (Task_3).** A library holds two maps, books and members. It supports add, remove, borrow, return, a list of the available books and a list of a member's borrowed books.

**In-memory task store (Task_4).** A slice of tasks supports:
- lookup of the first task with an id;
- an update that copies only the non-empty fields of the request;
- a delete of the first task with an id;
- an append.

**User accounts and authorization (Task_6, Task_6-Auth, Task_7, Task_8).** This part covers:
- registration validation, including the rule that only the first user may be an ADMIN;
- the register, login and promote flows, run against a user collection;
- bearer-header parsing;
- the claims of the issued JSON Web Tokens, including the expiry arithmetic;
- the middleware decisions that map a verification outcome to a 401 message;
- reading the role from the request context, and the ADMIN gate.

Each iteration differs in its messages, claim keys and check order, and each is stated as it is written.

**Stateful parts.** The Go code that works in place is modelled as classes:
- `Library.Library` has the book and member maps as fields.
- `TaskData.TaskCollection` holds the slice of tasks as a field.
- `Directory.UserDirectory` is the user collection.
- `Gin.Context` stands for the request context: its keys, the responses written, and the abort and next flags.

Handlers are methods on these classes. Each method is specified by a function of the old state. Lemmas state the properties of those functions.

**Foreign pieces.**
- jwt-go is `Jwt.Parse`, defined on a decoded view of the token string (`Jwt.TokenString`) and a key callback.
- Signing is an abstract `Jwt.Codec` that reads back what it wrote (`Jwt.Faithful`).
- bcrypt is an injective `PasswordHash.Hash` with `Matches`.
- The clock is an integer `now`, in seconds.
- Each store call's error is a parameter (`Directory.Faults`, `usersExist`, `storeError`, `lookup`).
- A request body that fails to bind is an `Option` that is `None`.

## Model

| member | source | states |
|---|---|---|
| Library.Library.constructor | Task_3-Console_Based_Library_Management_System/services/library_service.go:24-29 | `NewLibrary` starts with no books and no members. |
| Library.Library.AddBook | Task_3-Console_Based_Library_Management_System/services/library_service.go:33-35 | The book is stored under its id, replacing any earlier entry; other books and all members are unchanged. |
| Library.AvailableAfterAdd | Task_3-Console_Based_Library_Management_System/services/library_service.go:33-35 | After adding, the available set is the old one with the id added or removed according to the new status. |
| Library.Library.RemoveBook | Task_3-Console_Based_Library_Management_System/services/library_service.go:38-40 | The id is no longer present and every other entry is unchanged; an absent id is a no-op. |
| Library.AvailableAfterRemove | Task_3-Console_Based_Library_Management_System/services/library_service.go:38-40 | Removing a book removes exactly its id from the available set. |
| Library.Library.BorrowBook | Task_3-Console_Based_Library_Management_System/services/library_service.go:48-73 | Checks, in order: book missing, status "borrowed", member missing. It succeeds exactly when none applies. The library is left unchanged because the writes go to copies (see Findings). |
| Library.Library.ReturnBook | Task_3-Console_Based_Library_Management_System/services/library_service.go:83-116 | Checks, in order: book missing, status exactly "available", member missing. Then it succeeds exactly when the member's list holds a book with that id, and otherwise answers "this member hasn't borrowed ". The library is left unchanged. |
| Library.Library.ListAvailableBooks | Task_3-Console_Based_Library_Management_System/services/library_service.go:122-133 | It returns every book whose status is exactly "Available", each once, in any order, and modifies nothing. The loop invariants tie the result to the set of entries still to visit. |
| Library.ReturnedBookNotListed | Task_3-Console_Based_Library_Management_System/services/library_service.go:91-93 | A status written by a return ("available") is never listed, because the listing compares case-sensitively with "Available". |
| Library.Library.ListBorrowedBooks | Task_3-Console_Based_Library_Management_System/services/library_service.go:137-140 | It gives the member's list, or the empty list for an unknown member. |
| Library.AsWrittenBorrowThenReturnFails | Task_3-Console_Based_Library_Management_System/services/library_service.go:69-72 | With the code as written, a successful borrow is followed by a return that fails. |
| Library.BorrowThenReturn | Task_3-Console_Based_Library_Management_System/services/library_service.go:69-72 | With the write-back, a return after a borrow succeeds. It restores every member's list and leaves the book "available". |
| Library.Library.BorrowBookStored | Task_3-Console_Based_Library_Management_System/services/library_service.go:44-47 | Borrowing with the write-back stores the state `Borrowed` describes. |
| Library.Library.ReturnBookStored | Task_3-Console_Based_Library_Management_System/services/library_service.go:76-82 | Returning with the write-back stores the state `Returned` describes. |
| Library.RemoveFirstAt | Task_3-Console_Based_Library_Management_System/services/library_service.go:104-111 | Removing the first entry with the id is the list minus that position. |
| TaskData.TaskCollection.constructor | Task_4-Task_Management_REST_API/data/task_service.go:26-34 | `NewTaskCollection` seeds the three tasks of `SeedTasks`. |
| TaskData.SeedTasks | Task_4-Task_Management_REST_API/data/task_service.go:26-34 | Exactly 3 tasks, with ids "1", "2", "3", statuses Pending, In Progress, Completed, and the three due dates in order. |
| TaskData.SeedLookup | Task_4-Task_Management_REST_API/data/task_service.go:26-34 | Each seeded id is found at its own position, and any other id is not found. |
| TaskData.FindTask | Task_4-Task_Management_REST_API/data/task_service.go:38-45 | It gives the index of the first task with the id, or none exactly when no task has that id. |
| TaskData.TaskCollection.GetTaskById | Task_4-Task_Management_REST_API/data/task_service.go:38-45 | The index loop returns the first matching index, or "task not found" exactly when nothing matches. It changes nothing. The same code is at Task_4-Task_Management_REST_API/controllers/task_controller.go:20-27. |
| TaskData.TaskCollection.WriteAt | Task_4-Task_Management_REST_API/data/task_service.go:41 | A write through the returned reference changes that element only. |
| TaskController.GetAllTasks | Task_4-Task_Management_REST_API/controllers/task_controller.go:13-15 | It answers 200 with the whole slice. |
| TaskController.GetTask | Task_4-Task_Management_REST_API/controllers/task_controller.go:31-39 | A found task is answered with 200. A missing one writes 404 "task not found" and then a 200 with a nil task, so the client sees 404. |
| TaskController.UpdateTask | Task_4-Task_Management_REST_API/controllers/task_controller.go:44-75 | The lookup comes first: an unknown id answers 404 and changes nothing. Then a bind failure answers 400 and changes nothing. Otherwise the four field writes leave the slice equal to `Updated`, and the answer is 200. |
| TaskController.MergeFields | Task_4-Task_Management_REST_API/controllers/task_controller.go:61-73 | Each of title, description, due date and status is overwritten exactly when the incoming field is non-empty. The id never changes. |
| TaskController.UpdatedOnlyTarget | Task_4-Task_Management_REST_API/controllers/task_controller.go:61-73 | Only the first match changes, and no id changes. |
| TaskController.UpdatedIdempotent | Task_4-Task_Management_REST_API/controllers/task_controller.go:61-73 | Applying the same update twice equals applying it once. |
| TaskController.DeleteTask | Task_4-Task_Management_REST_API/controllers/task_controller.go:80-91 | The loop leaves the slice equal to `Deleted`. The answer is 200 "task deleted successfully", or 404 "task not found". |
| TaskController.DeletedSpec | Task_4-Task_Management_REST_API/controllers/task_controller.go:83-90 | Exactly the first match is removed, the length drops by 1, the order of the rest is kept, and so is their multiset. An unknown id changes nothing. |
| TaskController.CreateTask | Task_4-Task_Management_REST_API/controllers/task_controller.go:96-107 | The new task is appended at the end. A bind failure answers 400 and changes nothing. |
| TaskController.DeleteUndoesCreate | Task_4-Task_Management_REST_API/controllers/task_controller.go:96-107 | Deleting the id of a task just created with a fresh id gives back the old slice. |
| TaskController.DuplicateCreateShadowed | Task_4-Task_Management_REST_API/controllers/task_controller.go:96-107 | No duplicate check is made: after a create with an existing id, lookups still find the older task. |
| Users.LocalChecks | Task_6-Task_Management_REST_API_With_MongoDB/controllers/task_controller.go:23-35 | Password under 6 bytes, then a role other than exactly ADMIN/USER, then an empty name. It accepts exactly when none of these applies. |
| Users.ShortPasswordAlwaysRejected | Task_6-Task_Management_REST_API_With_MongoDB/controllers/task_controller.go:24-26 | An ASCII password of fewer than 6 characters is rejected whatever the other fields are. |
| Users.MultiByteShortPasswordAccepted | Task_6-Task_Management_REST_API_With_MongoDB/controllers/task_controller.go:24 | Go's `len` counts bytes, so three two-byte characters pass the length check. |
| Task6Controller.ValidateUserInfo | Task_6-Task_Management_REST_API_With_MongoDB/controllers/task_controller.go:23-35 | It accepts exactly when the three local checks pass, with no bootstrap rule. |
| Task6Controller.AdminRegistersAnyTime | Task_6-Task_Management_REST_API_With_MongoDB/controllers/task_controller.go:81-125 | A valid ADMIN request with a new email is registered however many users exist. |
| Users.ValidateUserInfo | Task_6-Task_Management_REST_API_With_MongoDB_Auth_Included/controllers/task_controller.go:33-57 | The local checks come first, then the count's error as it is, then the bootstrap rule. It accepts exactly when all pass. The same code is at Task_7-Clean_Architecture_Task_Management_REST_API/delivery/controller/user_controller.go:26-48. |
| Users.LocalChecksFirst | Task_6-Task_Management_REST_API_With_MongoDB_Auth_Included/controllers/task_controller.go:34-47 | A request that fails a local check gets the same answer whatever the count returns. The count does not matter. |
| Users.OnlyFirstAdmin | Task_6-Task_Management_REST_API_With_MongoDB_Auth_Included/controllers/task_controller.go:51-56 | ADMIN is refused with the bootstrap message exactly when users exist. USER is never refused by this rule. |
| Task7UserController.CountErrorRefuses | Task_7-Clean_Architecture_Task_Management_REST_API/delivery/controller/user_controller.go:37-40 | An error from `AreThereAnyUsers` answers 406 with that error and stores nothing. |
| Accounts.HandleRegister | Task_6-Task_Management_REST_API_With_MongoDB/controllers/task_controller.go:81-125 | A bind failure answers 400 "invalid request". Validation failure answers 406. After that comes `Registered`, and the reply and the collection are stated exactly. The same code is at Task_6-Task_Management_REST_API_With_MongoDB_Auth_Included/controllers/task_controller.go:126-170; Task_7-Clean_Architecture_Task_Management_REST_API/delivery/controller/user_controller.go:56-100. |
| Accounts.RegisterNewUser | Task_6-Task_Management_REST_API_With_MongoDB_Auth_Included/controllers/task_controller.go:143-169 | Email lookup error gives 500. A duplicate gives 406 "user already exists". A hash error gives 500. An insert error gives 500. Otherwise the hashed record is appended. |
| Accounts.RegisterOnlyValidated | Task_7-Clean_Architecture_Task_Management_REST_API/delivery/controller/user_controller.go:66-99 | The collection changes exactly on a 200, which needs a request that passed validation. Then exactly the hashed record is appended, and emails stay unique. |
| Accounts.RegisteredStoresHash | Task_6-Task_Management_REST_API_With_MongoDB/controllers/task_controller.go:110-118 | On success exactly one record is appended. It holds the hash, which differs from the password. |
| Accounts.RegisteredDuplicate | Task_6-Task_Management_REST_API_With_MongoDB/controllers/task_controller.go:99-106 | An email already stored answers 406 "user already exists" and inserts nothing. |
| Accounts.RegisteredKeepsEmailsUnique | Task_7-Clean_Architecture_Task_Management_REST_API/delivery/controller/user_controller.go:74-82 | Registration keeps emails unique. |
| Accounts.HandleLogin | Task_6-Task_Management_REST_API_With_MongoDB/controllers/task_controller.go:127-163 | A bind failure answers 400. After that comes `LoggedIn`: 500 on a lookup error, 406 for an unknown email, 401 on a password mismatch, 500 on a signing error, otherwise 200 with the token. The same code is at Task_6-Task_Management_REST_API_With_MongoDB_Auth_Included/controllers/task_controller.go:177-213; Task_7-Clean_Architecture_Task_Management_REST_API/delivery/controller/user_controller.go:108-148. |
| Accounts.LogIn | Task_6-Task_Management_REST_API_With_MongoDB/controllers/task_controller.go:137-162 | The login steps after the bind write exactly the one response `LoggedIn` gives, and change nothing else. |
| Accounts.LoginWrongPassword | Task_6-Task_Management_REST_API_With_MongoDB/controllers/task_controller.go:147-153 | A password other than the registered one answers 401 and issues no token. |
| Accounts.LoginTokenFromStoredRecord | Task_6-Task_Management_REST_API_With_MongoDB_Auth_Included/controllers/task_controller.go:193-212 | A token is issued only for the stored record, after its password matched. |
| Accounts.RegisterThenLogin | Task_6-Task_Management_REST_API_With_MongoDB_Auth_Included/controllers/task_controller.go:126-213 | Logging in with the credentials just registered answers with the token for the new record. |
| Accounts.Promote | Task_7-Clean_Architecture_Task_Management_REST_API/delivery/controller/user_controller.go:158-187 | A lookup error gives 500. No user gives 404. An ADMIN gives 200 "already an admin" with no update. Otherwise the record with role ADMIN is written back, and the answer is 500 on an update error or 200. |
| Accounts.PromotedAnyLookup | Task_7-Clean_Architecture_Task_Management_REST_API/delivery/controller/user_controller.go:176-180 | Whatever the lookup returned, only the document with that id can change, and it becomes that record with role ADMIN. |
| Accounts.PromotedOnlyRole | Task_6-Task_Management_REST_API_With_MongoDB_Auth_Included/controllers/task_controller.go:239-254 | Only the role of the found record changes, to ADMIN. An ADMIN is left as it is. |
| Accounts.PromotedIdempotent | Task_6-Task_Management_REST_API_With_MongoDB/controllers/task_controller.go:198-213 | A second promotion finds an ADMIN and changes nothing. |
| Accounts.PromoteByHex | Task_6-Task_Management_REST_API_With_MongoDB_Auth_Included/controllers/task_controller.go:221-256 | The hex conversion comes first. An invalid id writes 400 and falls through with the nil id. Then come the lookup and `Promoted`. |
| Accounts.InvalidIdAnsweredTwice | Task_6-Task_Management_REST_API_With_MongoDB_Auth_Included/controllers/task_controller.go:224-237 | An invalid id is answered 400 (what the client sees) and then 404 for the nil id. |
| Accounts.PromotionId | Task_6-Task_Management_REST_API_With_MongoDB/controllers/task_controller.go:181-186 | A valid hex string gives its id. An invalid one gives the nil id and a 400 carrying the conversion's error text. |
| Users.ObjectIdFromHex | Task_6-Task_Management_REST_API_With_MongoDB_Auth_Included/data/task_service.go:85-94 | `ConvertToObjectID`, that is `primitive.ObjectIDFromHex`. It succeeds exactly for 24 hex digits, giving the lower-cased id. Any other byte length gives "the provided hex string is not a valid ObjectID". Otherwise it gives `hex.InvalidByteError`'s text for the lead byte of the first non-hex character. |
| Users.InvalidLetterMessage | Task_6-Task_Management_REST_API_With_MongoDB/controllers/task_controller.go:183-186 | The 400 body for a "g" among hex digits reads "encoding/hex: invalid byte: U+0067 'g'". |
| Users.InvalidControlMessage | Task_6-Task_Management_REST_API_With_MongoDB/controllers/task_controller.go:183-186 | A newline among hex digits is reported as "U+000A", with no quoted character. |
| Users.InvalidMultiByteMessage | Task_6-Task_Management_REST_API_With_MongoDB/controllers/task_controller.go:183-186 | A two-byte "é" is reported by its lead byte 0xC3, as "U+00C3 'Ã'". |
| Users.HexRoundTrip | Task_6-Task_Management_REST_API_With_MongoDB_Auth_Included/controllers/task_controller.go:224 | Converting an id's hex string gives back the id. |
| PasswordHash.MatchesExactly | Task_6-Task_Management_REST_API_With_MongoDB/controllers/task_controller.go:42-44 | A stored hash accepts exactly the password it was made from. |
| Task6Controller.TokenClaims | Task_6-Task_Management_REST_API_With_MongoDB/controllers/task_controller.go:48-52 | Exactly the keys user_id, email and user_role, with no expiry. |
| Task6Controller.GenerateSignedToken | Task_6-Task_Management_REST_API_With_MongoDB/controllers/task_controller.go:46-56 | It fails exactly on a signing error. Otherwise it gives the encoding of an HS256 token over those claims. |
| Task6Controller.SignedTokenNeverExpires | Task_6-Task_Management_REST_API_With_MongoDB/controllers/task_controller.go:46-56 | Read back with the secret, the token is valid at every time, and the role lookup gives its role. |
| Task6Controller.LoginToken | Task_6-Task_Management_REST_API_With_MongoDB/controllers/task_controller.go:155-162 | A successful login's token carries the stored user's `ObjectID("<hex>")` id, email and role. |
| Task6AuthController.TokenClaims | Task_6-Task_Management_REST_API_With_MongoDB_Auth_Included/controllers/task_controller.go:83-88 | Exactly user_id, email, user_role and "expiration". |
| Task6AuthController.GenerateSignedToken | Task_6-Task_Management_REST_API_With_MongoDB_Auth_Included/controllers/task_controller.go:78-92 | An HS256 token whose "expiration" is now + 86400. It fails exactly on a signing error. |
| Task6AuthController.ParseIgnoresExpiration | Task_6-Task_Management_REST_API_With_MongoDB_Auth_Included/controllers/task_controller.go:83-88 | There is no standard "exp" claim, so `jwt.Parse` never rejects these tokens for their age. |
| Task6AuthController.BootstrapOnlyFirst | Task_6-Task_Management_REST_API_With_MongoDB_Auth_Included/controllers/task_controller.go:137-169 | The first user may be an ADMIN. Once users exist, an ADMIN request answers 406 with the bootstrap message. |
| Task6AuthController.LoginToken | Task_6-Task_Management_REST_API_With_MongoDB_Auth_Included/controllers/task_controller.go:205-212 | The login token decodes to the stored user's id, email and role, expiring a day after `now`. |
| BearerAuth.RoleFromKeys | Task_6-Task_Management_REST_API_With_MongoDB/controllers/task_controller.go:58-79 | No "claims" gives "no claims found". A value that is not MapClaims gives "claims are not valid". A missing or non-string role gives "no user_role found in claims". Otherwise it gives the role. The role key is "user_role" in Task_6 and "role" in Task_7 and Task_8. The same code is at Task_6-Task_Management_REST_API_With_MongoDB_Auth_Included/controllers/task_controller.go:97-118; Task_6-Task_Management_REST_API_With_MongoDB_Auth_Included/middleware/auth_middleware.go:106-127; Task_7-Clean_Architecture_Task_Management_REST_API/infrastructure/auth_middleware.go:12-33; Task_8-Testing_Task_Management_REST_API/infrastructure/jwt_service.go:81-102. |
| BearerAuth.AdminGate | Task_6-Task_Management_REST_API_With_MongoDB/controllers/task_controller.go:167-179 | A lookup error answers 500 with its text. A role other than exactly "ADMIN" answers 401 "unauthorized user". Both abort. Otherwise nothing is written. The `AuthenticateAdmin` middlewares run the same gate, and on Task_8 an allowed request sees nothing written, so it gets status 200. The same code is at Task_6-Task_Management_REST_API_With_MongoDB_Auth_Included/middleware/auth_middleware.go:87-104; Task_7-Clean_Architecture_Task_Management_REST_API/infrastructure/auth_middleware.go:90-107; Task_8-Testing_Task_Management_REST_API/infrastructure/admin_middleware.go:12-29. |
| Task6Controller.HandleUserPromotion | Task_6-Task_Management_REST_API_With_MongoDB/controllers/task_controller.go:165-215 | A lookup error answers 500 with its text, and a role other than "ADMIN" answers 401 "unauthorized user". Both abort and leave the collection unchanged. Behind the gate, it runs the same promotion by hex id as Task_6-Auth. |
| Task6Controller.CreateTask | Task_6-Task_Management_REST_API_With_MongoDB/controllers/task_controller.go:309-340 | A lookup error answers 500 with its text, and a role other than "ADMIN" answers 401 "unauthorized user". Both abort, without calling the store. Behind the gate, the store is called only after a successful bind. An error answers 406, otherwise 200 "task added successfully". |
| Task6Controller.UpdateTask | Task_6-Task_Management_REST_API_With_MongoDB/controllers/task_controller.go:240-272 | A lookup error answers 500 with its text, and a role other than "ADMIN" answers 401 "unauthorized user". Both abort, without calling the store. Behind the gate, a bind failure answers 400 twice. A store error answers 404, otherwise 200 "task updated successfully". |
| Task6Controller.DeleteTask | Task_6-Task_Management_REST_API_With_MongoDB/controllers/task_controller.go:277-303 | A lookup error answers 500 with its text, and a role other than "ADMIN" answers 401 "unauthorized user". Both abort, without calling the store. Behind the gate, a store error answers 404, otherwise 200 "task deleted successfully". |
| Task8AuthMiddleware.AdminComparisonExact | Task_8-Testing_Task_Management_REST_API/infrastructure/admin_middleware.go:23 | The comparison is exact: "admin" is refused and "ADMIN" passes. |
| BearerAuth.BearerTokenCorrect | Task_6-Task_Management_REST_API_With_MongoDB_Auth_Included/middleware/auth_middleware.go:42-47 | The split-based parse accepts exactly a space-free scheme reading "bearer" in any case, one space, and a space-free token, and it returns that token. |
| BearerAuth.BearerToken | Task_6-Task_Management_REST_API_With_MongoDB_Auth_Included/middleware/auth_middleware.go:42-47 | `strings.Split(header, " ")` and the "bearer" check. A header without exactly one space is refused, and an accepted token holds no space. The same code is at Task_7-Clean_Architecture_Task_Management_REST_API/infrastructure/auth_middleware.go:48-53; Task_8-Testing_Task_Management_REST_API/infrastructure/authenticate_middleware.go:24-29. |
| BearerAuth.BearerTokenOfParts | Task_7-Clean_Architecture_Task_Management_REST_API/infrastructure/auth_middleware.go:48-53 | "<scheme> <token>" is accepted exactly when the lower-cased scheme is "bearer". |
| BearerAuth.TwoSpacesRejected | Task_8-Testing_Task_Management_REST_API/infrastructure/authenticate_middleware.go:24-29 | Any header with two spaces is rejected. |
| BearerAuth.ApplyDecision | Task_6-Task_Management_REST_API_With_MongoDB_Auth_Included/middleware/auth_middleware.go:54-83 | A rejection answers 401 with its message and aborts. An acceptance stores the claims under "claims" and calls `Next`. Nothing else changes. |
| Jwt.HmacOnly | Task_6-Task_Management_REST_API_With_MongoDB_Auth_Included/middleware/auth_middleware.go:19-27 | `TokenParser` hands out the secret exactly for HMAC methods, and otherwise rejects with "unexpected signing method: <alg>". |
| Task6AuthMiddleware.Authenticate | Task_6-Task_Management_REST_API_With_MongoDB_Auth_Included/middleware/auth_middleware.go:30-85 | An empty header, then a bad header, then a parse failure or invalid token ("invalid JWT"), then an "expiration" that is missing, not a number or earlier than now ("JWT is expired"). Acceptance is stated as an iff and carries the token's claims. |
| Task6AuthMiddleware.AuthenticateUser | Task_6-Task_Management_REST_API_With_MongoDB_Auth_Included/middleware/auth_middleware.go:30-85 | The decision is carried out. Only acceptance sets "claims". |
| Task6AuthMiddleware.IssuedTokenAccepted | Task_6-Task_Management_REST_API_With_MongoDB_Auth_Included/middleware/auth_middleware.go:53-83 | A login token as "Bearer <token>" is accepted up to and including second issuedAt + 86400, and then gets "JWT is expired". The role then reads back. |
| Task6AuthMiddleware.NoExpirationRejected | Task_6-Task_Management_REST_API_With_MongoDB_Auth_Included/middleware/auth_middleware.go:61-69 | A token with no "expiration" number is always "JWT is expired". |
| Task6AuthMiddleware.ForeignTokenRejected | Task_6-Task_Management_REST_API_With_MongoDB_Auth_Included/middleware/auth_middleware.go:53-58 | A token with another key or a non-HMAC method gets "invalid JWT". |
| AccessTokens.Wrap64 | Task_7-Clean_Architecture_Task_Management_REST_API/infrastructure/jwt_service.go:15 | An int64 result is the exact value modulo 2^64, in range, and unchanged when it fits. |
| AccessTokens.ExpiresAtExact | Task_7-Clean_Architecture_Task_Management_REST_API/infrastructure/jwt_service.go:15 | Up to 2562047 hours either way, the expiry is exactly now + expiry*3600: the expiry counts hours, not the seconds the comment says. |
| AccessTokens.ExpiresAt | Task_7-Clean_Architecture_Task_Management_REST_API/infrastructure/jwt_service.go:15 | `time.Now().Add(time.Hour * time.Duration(expiry)).Unix()`: whatever the expiry, the wrapped duration puts the result within about 292 years of now. The same code is at Task_8-Testing_Task_Management_REST_API/infrastructure/jwt_service.go:17. |
| AccessTokens.ExpiryOverflow | Task_7-Clean_Architecture_Task_Management_REST_API/infrastructure/jwt_service.go:15 | At 2562048 hours the duration overflows, and the expiry falls before now. |
| AccessTokens.NonPositiveExpiryRefused | Task_8-Testing_Task_Management_REST_API/infrastructure/jwt_service.go:17 | A non-positive expiry (in range) is refused from the next second on. |
| AccessTokens.ExpiresAtSign | Task_8-Testing_Task_Management_REST_API/infrastructure/jwt_service.go:17 | In range, the expiry is after now exactly when the expiry is positive. |
| AccessTokens.AccessClaims | Task_7-Clean_Architecture_Task_Management_REST_API/infrastructure/jwt_service.go:17-24 | Exactly name, id and role, plus "exp" only when it is not 0 (omitempty). |
| AccessTokens.AccessClaimsValid | Task_7-Clean_Architecture_Task_Management_REST_API/infrastructure/jwt_service.go:17-24 | The claims are valid exactly while now <= exp, or always when "exp" is 0. |
| AccessTokens.CreateAccessToken | Task_7-Clean_Architecture_Task_Management_REST_API/infrastructure/jwt_service.go:14-33 | It fails exactly on a signing error, returning that error. Otherwise it gives the encoding of the HS256 token with the user's name, `Hex()` id and role. The same code is at Task_8-Testing_Task_Management_REST_API/infrastructure/jwt_service.go:16-36. |
| AccessTokens.Authorize | Task_8-Testing_Task_Management_REST_API/infrastructure/jwt_service.go:40-49 | Task_8's `IsAuthorized` gives `jwt.Parse`'s outcome. It is valid exactly for an HMAC token with the secret and valid claims. A non-HMAC method is an error. |
| AccessTokens.IsAuthorized | Task_7-Clean_Architecture_Task_Management_REST_API/infrastructure/jwt_service.go:37-50 | It gives (true, nil) exactly for a valid parse, and otherwise false with the parse error. |
| AccessTokens.ExtractInfoFromToken | Task_7-Clean_Architecture_Task_Management_REST_API/infrastructure/jwt_service.go:55-74 | A parse error is returned. Otherwise id and role come from string claims, and a missing or non-string claim panics (id checked first). The same code is at Task_8-Testing_Task_Management_REST_API/infrastructure/jwt_service.go:55-74. |
| AccessTokens.IssuedTokenExtracts | Task_7-Clean_Architecture_Task_Management_REST_API/infrastructure/jwt_service.go:14-74 | An issued token read back with its secret yields the hex id and role until it expires, and an error afterwards. It never panics. |
| AccessTokens.OtherSecretRefused | Task_7-Clean_Architecture_Task_Management_REST_API/infrastructure/jwt_service.go:37-74 | With another secret, an issued token is refused whatever the time. |
| Task7UserController.LoginTokenExtracts | Task_7-Clean_Architecture_Task_Management_REST_API/delivery/controller/user_controller.go:137-147 | The login token yields the stored user's hex id and role until `AccessTokenExpiryHour` hours after now. |
| Task7AuthMiddleware.Authenticate | Task_7-Clean_Architecture_Task_Management_REST_API/infrastructure/auth_middleware.go:39-85 | An empty header, then a bad header. Every token failure, including a non-HMAC method and expiry, gets the one answer "unauthorized user". Acceptance is stated as an iff. |
| Task7AuthMiddleware.JWTAuthMiddleware | Task_7-Clean_Architecture_Task_Management_REST_API/infrastructure/auth_middleware.go:39-85 | The decision is carried out. Only acceptance sets "claims" and calls `Next`. |
| Task7AuthMiddleware.IssuedTokenAccepted | Task_7-Clean_Architecture_Task_Management_REST_API/infrastructure/auth_middleware.go:55-83 | An access token is accepted until it expires and then gets "unauthorized user". The "role" lookup then gives the user's role. |
| Task8AuthMiddleware.Authenticate | Task_8-Testing_Task_Management_REST_API/infrastructure/authenticate_middleware.go:15-52 | "authorization header is required", then a bad header. A token that was returned but is invalid gets "token has expired", whatever the cause. An unsplittable token gets "unauthorized user". A valid one is accepted with its claims. |
| Task8AuthMiddleware.JWTAuthMiddleware | Task_8-Testing_Task_Management_REST_API/infrastructure/authenticate_middleware.go:15-52 | The decision is carried out. |
| Task8AuthMiddleware.FreshTokenAccepted | Task_8-Testing_Task_Management_REST_API/infrastructure/authenticate_middleware.go:47-50 | A token with a positive expiry is accepted when sent in the second it was issued. |
| Task8AuthMiddleware.NegativeExpiryReportedExpired | Task_8-Testing_Task_Management_REST_API/infrastructure/authenticate_middleware.go:35-39 | A token made with expiry -1 gets "token has expired" at once. |
| Task8AuthMiddleware.OtherSecretReportedExpired | Task_8-Testing_Task_Management_REST_API/infrastructure/authenticate_middleware.go:35-39 | Because of the check order, a token signed with another secret also gets "token has expired". |
| Task8AuthMiddleware.TruncatedTokenUnauthorized | Task_8-Testing_Task_Management_REST_API/infrastructure/authenticate_middleware.go:40-44 | A token that does not split into three segments gets "unauthorized user". |
| Task8AuthMiddleware.WrongSchemeRejected | Task_8-Testing_Task_Management_REST_API/infrastructure/authenticate_middleware.go:24-29 | Any header of two space-free parts whose scheme is not "bearer" in any case, such as "invalid token", gets "invalid authorization header". |

## Left out

- Cryptography and base64 of JWT signing, and the HMAC check itself, are not modelled. A signature is valid exactly when the key the callback hands out equals the key the token was made with.
- bcrypt cost, salt and the 72-byte limit are not modelled. `Hash` is injective and `Matches(h, p)` holds exactly when `h == Hash(p)`.
- The MongoDB driver, the use-case layers and their timeouts are not part of this model. Neither are the data and repository files, except `ConvertToObjectID` (`Users.ObjectIdFromHex`). The results of the rest are parameters: `AreThereAnyUsers` gives the `usersExist` result, and Task_7 `GetByID` gives the `lookup` result.
- The Gin plumbing is not modelled: routers, `main.go`, environment loading and JSON encoding. A failed `BindJSON` is modelled as a 400 status write plus an abort. A body of literal `null` bound into a pointer leaves it nil, and Go then panics; the model treats a body as bound or not bound.
- Task_3 console controller (stdin loops) is not part of this model.
- The `data.Tasks` declaration is not part of this model. Task_4 handlers use the seeded `TaskData.TaskCollection` in its place.
- Go slice aliasing is not modelled: `ReturnBook`'s `append(arr[:idx], arr[idx+1:]...)` shifts the shared backing array. Map entries are treated as values, and the removal goes to a copy.
- Task6AuthMiddleware.Authenticate: the `float64` "expiration" claim is an integer, and `int64(exp)` truncation is not modelled. Sub-second clock readings are not modelled either, because `now` is whole seconds.
- GoStrings.ToLower: only ASCII letters are lowered; Unicode case mapping is not modelled.
- Branches that cannot be taken are not modelled as separate cases: `jwt.Parse` always yields MapClaims. These are the "invalid JWT" branch at Task_6-Auth `auth_middleware.go:70-75` and the "invalid token" branch at `jwt_service.go:69-71`.
- Concurrency between requests and the Gin recovery from a panic are not modelled. `AccessTokens.ExtractInfoFromToken` reports a panic as a result.
- Task_6 task handlers do not model the store behind the gate. Only whether it is called and its error are visible.

## Findings

| source | as written | input that shows it | evidently intended | confidence | as-written member | corrected member |
|---|---|---|---|---|---|---|
| Task_3-Console_Based_Library_Management_System/services/library_service.go:69-72 | `BorrowBook` sets the status and appends the book on copies of the map values, so neither map changes. `ReturnBook`'s writes at 104-112 also go to copies, except the in-place shift through the shared backing array (see the slice-aliasing line under Left out). | books {1: Book(1, "Go", "Pike", "Available")}, members {7: Member(7, "Abebe", [])}: borrow 1 by 7 succeeds, then return 1 by 7 answers "this member hasn't borrowed ". | The doc-comments describe the status and list changes as stored in the maps. | not executed | Library.AsWrittenBorrowThenReturnFails | Library.BorrowThenReturn |
