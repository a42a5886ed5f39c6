# pass-keeper server core in Dafny

This project models the server side of pass-keeper, a gRPC password vault written in Go, and proves properties of that model. It covers:

- **The vault service** (`internal/service/backend/server.go`). It resolves the owner's login, then:
  - encrypts the sensitive fields of login/password, text and card records in place before storing them;
  - decrypts them on the way back;
  - passes list results through untouched;
  - cuts a binary's body into numbered, encrypted chunks.
- **The cipher envelope** (`internal/lib/crypt/crypt.go`). Stored values are lower-case hex of `nonce ‖ AES-GCM seal`.
- **The token authority** (`internal/lib/token/token.go`).
- **The access gate** (`internal/transport/interceptor/auth.go`).
- **The gRPC error-to-status mapping** (`internal/transport/grpchandler/handler.go`).
- **The PostgreSQL store** (`internal/transport/storage/storage.go`), as in-memory tables.
- **The earlier service snapshot** (`internal/service/server/server.go`).

Modules follow the program's packages:

| module | models |
|---|---|
| `Errors` | Go error values, `fmt.Errorf("…: %w")` and `errors.Is`, with one enum member per package-level sentinel. `server.ErrAlreadyExists` and `entity.ErrAlreadyExists` are distinct values. |
| `Hex` | Base 16 encoding as in section 8 of RFC 4648. |
| `Crypt` | `crypt.New`, `Encrypt` and `Decrypt` over an abstract AEAD (`Aead`) whose laws are the predicate `Lawful`. |
| `Random` | `crypto/rand.Reader` as a finite pool of bytes. |
| `Token` | `token.New`, `BuildNewJWTToken` and `ParseJWTToken` over an abstract JWT library with laws. |
| `Grpc`, `Interceptor`, `Handler` | The transport layer. |
| `Tables`, `Storage` | The store, a class whose table fields its methods update. |
| `Chunking`, `Vault` | What the service does with the cipher and the chunk loop, as functions of the random bytes it draws. |
| `Backend` | The vault service, a class over the store and the random reader. |
| `Server` | The earlier snapshot. |
| `Scenario` | Request sequences across service, store and handler. |

The service's methods are imperative, as in Go. Each record is an object whose fields are overwritten by `Encrypt`/`Decrypt`, and the `AddDataBinary` byte loop keeps `cnt`, `chunkNum` and the `chunk` buffer with loop invariants. Every method is specified by functions of the old state:

- `Vault.SealAll` gives the fields, the pool left and the first failure of a record's encryption;
- `Vault.OpenAll` does the same for its decryption;
- `Vault.Writes` and `Vault.FirstError` give the chunk rows and the error of an upload.

Lemmas about those functions carry the source's promises:

- encryption round trips;
- all-or-nothing Add and Get;
- gapless chunk numbering;
- reassembly of the body.

A driver failure is modelled by the set `Storage.Storage.failing` of query positions that the database rejects. Randomness is the reader's pool. The current time is a parameter.

Two observations follow from the proofs:

- **Sentinels from the wrong package.** The handler tests errors against the `server` package's sentinels, but the backend service and store return the `entity` package's. Suppose the handler is given the backend service's errors unchanged. Then a duplicate registration (`Scenario.RegisterTaken`) and a wrong password (`Scenario.WrongPassword`) both reach the client as Internal, not as AlreadyExists or PermissionDenied. As written, `*backend.Service` cannot itself be the handler's service:
  - the handler's interface (internal/transport/grpchandler/handler.go:19-23) wants `AddDataLoginPass(ctx, string, server.Data) error`;
  - the backend's method (internal/service/backend/server.go:50) takes a `*entity.DataLoginPass` and returns `(int32, error)`.
  
  The object the application wires in is not part of this model.
- **A foreign signing method is Internal.** A token signed with a method other than HS256 is reported as Internal at the gate, not as InvalidArgument (`Interceptor.ForeignMethodIsInternal`).

## Model

| member | source | states |
|---|---|---|
| Errors.Wrap | internal/service/backend/server.go:26 | A `%w`-wrapped error matches exactly the sentinels its cause matches. |
| Errors.SentinelIdentity | internal/service/entity/error.go:6-13 | A sentinel is matched only by itself, so identically worded sentinels of `entity` and `server` never match each other. |
| Hex.Encode | internal/lib/crypt/crypt.go:45 | `%x` output is twice as long as its input and uses only the digits 0-9a-f. |
| Hex.Decode | internal/lib/crypt/crypt.go:49-52 | A successful decode is half as long as its input. |
| Hex.DecodeEncode | internal/lib/crypt/crypt.go:45-49 | Decoding what `%x` printed gives the bytes back. |
| Hex.EncodeDecode | internal/lib/crypt/crypt.go:49 | Encoding a decoded lower-case string gives the string back. |
| Hex.DecodeSucceedsIff | internal/lib/crypt/crypt.go:49-52 | `hex.DecodeString` succeeds exactly on an even length with every byte a hex digit. |
| Crypt.New | internal/lib/crypt/crypt.go:15-21 | Fails with `ErrSecretKeyLen` exactly when the key is not 32 bytes; otherwise it keeps the key, which is a valid AES key size. |
| Crypt.Encrypt | internal/lib/crypt/crypt.go:27-46 | Fails exactly when the cipher cannot be built or the nonce read fails. |
| Crypt.DecryptAsWritten | internal/lib/crypt/crypt.go:48-73 | As written, Decrypt panics exactly when the input is valid hex, the key is a valid AES size and the decoded bytes are shorter than the nonce; a plaintext it returns is what `Open` gives for the input's own nonce and ciphertext. |
| Crypt.Decrypt | internal/lib/crypt/crypt.go:48-73 | Wherever the code as written returns, the corrected Decrypt returns the same; it succeeds exactly when the input is hex, the key is valid, the decoded bytes hold a nonce and `Open` accepts the rest. |
| Crypt.EncryptFormat | internal/lib/crypt/crypt.go:38-45 | The output is lower-case hex of `nonce ‖ Seal(nonce, p)`, of length 2·(NonceSize + \|p\| + TagSize). |
| Crypt.RoundTrip | internal/lib/crypt/crypt.go:27-73 | `Decrypt(Encrypt(p)) == p` for every plaintext and every nonce drawn, both as written and as corrected. |
| Crypt.DecryptRejectsBadHex | internal/lib/crypt/crypt.go:49-52 | Odd-length or non-hex input returns an error, not a panic. |
| Crypt.DecryptRejectsUnopened | internal/lib/crypt/crypt.go:67-70 | When `Open` fails, Decrypt returns an error and no plaintext. |
| Crypt.DecryptIsAuthentic | internal/lib/crypt/crypt.go:64-72 | A plaintext Decrypt returns is exactly what some nonce sealed into the input. |
| Crypt.ShortInputPanics | internal/lib/crypt/crypt.go:64-65 | As written, decoded input shorter than the nonce, such as the empty string, panics at the slice. |
| Crypt.DecryptShortFails | internal/lib/crypt/crypt.go:64-65 | The corrected Decrypt reports such input as an error. |
| Random.Reader.ReadFull | internal/lib/crypt/crypt.go:38-41 | `io.ReadFull` delivers exactly n bytes from the front of the stream, or fails when fewer remain. |
| Token.New | internal/lib/token/token.go:28-38 | An empty secret fails with `ErrEmptySecretKey`; lifetime 0 means the 60-hour default, and any other lifetime is kept. |
| Token.IssuedClaims | internal/lib/token/token.go:47-52 | Claims carry the login, and `exp` is now + lifetime truncated to seconds. |
| Token.BuildNewJWTToken | internal/lib/token/token.go:46-60 | The token is the library's HS256 signature of the issued claims under the secret, or fails exactly when signing fails. |
| Token.Key | internal/lib/token/token.go:65-71 | The key function returns the secret exactly for HS256 and otherwise an error matching no sentinel. |
| Token.Classify | internal/lib/token/token.go:72-84 | Library `ErrTokenExpired` gives `ErrTokenExpired`; no error and not Valid gives `ErrInvalidToken`; any other error is wrapped and matches neither; otherwise the claims are returned. |
| Token.ParseJWTToken | internal/lib/token/token.go:63-85 | Succeeds exactly when the library reports no error and a valid token, and then returns the library's claims; any error is `ErrTokenExpired`, `ErrInvalidToken` or a wrapped error. |
| Token.ConfiguredLifetime | internal/app/backend/config.go:27 | With the configured 10-minute lifetime, a token is accepted up to a second before ten minutes after issue and has expired at ten minutes. |
| Token.ParseErrors | internal/lib/token/token.go:63-85 | Every parse error is one of the two token sentinels or a wrapped error matching no sentinel. |
| Token.IssuedTokenParses | internal/lib/token/token.go:80-84 | A token issued for a login and checked before expiry parses to the issued claims, with that login. |
| Token.IssuedTokenExpires | internal/lib/token/token.go:76-78 | The same token checked at or after expiry gives `ErrTokenExpired`. |
| Token.ForeignMethodRefused | internal/lib/token/token.go:66-74 | A token naming another signing method is a wrapped "failed to parse jwt" error, not `ErrInvalidToken`. |
| Grpc.Named | internal/transport/grpchandler/handler.go:42 | `status.Error(c, c.String())` has code c and message the code's name. |
| Grpc.AppendToOutgoing | internal/transport/interceptor/auth.go:68 | The value becomes the key's last outgoing value; every other key and the incoming metadata are untouched. |
| Interceptor.IsOpenMethod | internal/transport/interceptor/auth.go:29 | A method needs no token exactly when "RegisterUser" or "AuthUser" occurs somewhere in its full name. |
| Strings.ContainsIff | internal/transport/interceptor/auth.go:29 | `strings.Contains(s, sub)` holds exactly when `sub` is a prefix of some suffix of `s`. |
| Interceptor.AuthToken | internal/transport/interceptor/auth.go:42-47 | Only the first `auth_token` value is read. |
| Interceptor.Admit | internal/transport/interceptor/auth.go:47-69 | Parse errors map to InvalidArgument with the sentinel's message, or to Internal; an empty login is Unauthenticated; otherwise the call is forwarded with `User-Login` appended, and forwarded only then. |
| Interceptor.CheckAccess | internal/transport/interceptor/auth.go:28-70 | Bypass exactly for RegisterUser/AuthUser methods; no metadata gives InvalidArgument "missing metadata"; no `auth_token` gives PermissionDenied; a forward carries the parsed login. |
| Interceptor.IssuedTokenAdmitted | internal/transport/interceptor/auth.go:47-69 | A valid unexpired token for a non-empty login reaches the handler with that login attached. |
| Interceptor.ExpiredTokenRejected | internal/transport/interceptor/auth.go:52-53 | The same call after expiry is refused with InvalidArgument "token expired". |
| Interceptor.EmptyLoginRejected | internal/transport/interceptor/auth.go:60-62 | A valid token for the empty login is refused as Unauthenticated. |
| Interceptor.ForeignMethodIsInternal | internal/transport/interceptor/auth.go:54-57 | A token signed with a method other than HS256 is refused as Internal. |
| Handler.RegisterUser | internal/transport/grpchandler/handler.go:37-52 | Success exactly when the service succeeds; `server.ErrAlreadyExists` gives AlreadyExists; anything else gives Internal. |
| Handler.AuthUser | internal/transport/grpchandler/handler.go:54-69 | The token is passed through unchanged; password mismatch gives PermissionDenied, then NotFound, then Internal. |
| Handler.OutgoingMetaData | internal/transport/grpchandler/handler.go:121-133 | Fails exactly without outgoing metadata or without a value for the key; otherwise returns all values, and its errors match no sentinel. |
| Handler.UserLogin | internal/transport/grpchandler/handler.go:110-119 | The first outgoing `User-Login` value, and an error exactly when there is none. |
| Handler.ServiceCall | internal/transport/grpchandler/handler.go:71-94 | No login gives InvalidArgument; a marshal failure gives Internal; otherwise the service gets the owner and the title unchanged with the JSON payload. |
| Handler.AddDataLoginPass | internal/transport/grpchandler/handler.go:71-108 | Success exactly when the service succeeds; `server.ErrUserNotFound` gives PermissionDenied; other errors give Internal; every status message is its code's name. |
| Handler.MissingLoginSkipsService | internal/transport/grpchandler/handler.go:72-75 | Without a `User-Login` value the answer is InvalidArgument whatever the service would do. |
| Handler.StatusMessagesAreCodeNames | internal/transport/grpchandler/handler.go:42-64 | Every status RegisterUser and AuthUser answer with carries the code's own name. |
| Handler.IssuedLoginReachesHandler | internal/transport/grpchandler/handler.go:110-119 | A call the gate admits reaches the handler, where `userLogin` yields the token's login. |
| Tables.Select | internal/transport/storage/storage.go:111-125 | A by-id lookup returns a row with both that id and that owner, or none when no row has both. |
| Tables.SelectSerial | internal/transport/storage/storage.go:115 | On a serial table the lookup finds the row at index id - 1, and only when its owner matches. |
| Tables.AppendSerial | internal/transport/storage/storage.go:74 | An insert with the next id keeps the table serial. |
| Tables.SelectInserted | internal/transport/storage/storage.go:70-125 | After `Add(owner, r)` returned id, `ByID(owner, id)` gives r back and `ByID(other, id)` gives nothing. |
| Tables.SelectOlder | internal/transport/storage/storage.go:70-80 | An insert changes no older id's lookup. |
| Tables.ListingMembers | internal/transport/storage/storage.go:82-109 | A list holds the id/title form of each of the owner's rows and nothing else; an owner with no rows gets the empty list. |
| Tables.Scan | internal/transport/storage/storage.go:94-102 | The `rows.Next()` loop builds exactly the listing. |
| Storage.FindUser | internal/transport/storage/storage.go:49-68 | The user with that login, or none when no user has it. |
| Storage.UserLookup | internal/transport/storage/storage.go:49-68 | A fault gives the wrapped query error; an unknown login gives `ErrUserNotFound`; success exactly when the login exists, returning that user. |
| Storage.Fault | internal/transport/storage/storage.go:76 | A wrapped driver error matches no sentinel. |
| Storage.Storage.constructor | internal/transport/storage/storage.go:15-19 | A new store has empty tables and is consistent. |
| Storage.Storage.RegisterUser | internal/transport/storage/storage.go:31-47 | A taken login gives `ErrAlreadyExists` with users unchanged; otherwise the user is appended under the next id; logins stay unique. |
| Storage.Storage.UserByLogin | internal/transport/storage/storage.go:49-68 | Answers `UserLookup` of the users table; nothing else changes. |
| Storage.Storage.AddLoginPass | internal/transport/storage/storage.go:70-80 | Title, login and password are stored verbatim under the owner and the next id, which is returned. |
| Storage.Storage.LoginPassList | internal/transport/storage/storage.go:82-109 | Id and title of the owner's rows only. |
| Storage.Storage.LoginPassByID | internal/transport/storage/storage.go:111-125 | A fresh record equal to the row with that id and owner, or `ErrNoData`. |
| Storage.Storage.AddText | internal/transport/storage/storage.go:127-137 | The text is stored verbatim under the owner and the next id. |
| Storage.Storage.TextList | internal/transport/storage/storage.go:139-166 | Id and title of the owner's texts only. |
| Storage.Storage.TextByID | internal/transport/storage/storage.go:168-182 | The owner's text with that id, or `ErrNoData`. |
| Storage.Storage.AddCard | internal/transport/storage/storage.go:184-195 | The four card fields are stored verbatim under the owner and the next id. |
| Storage.Storage.CardList | internal/transport/storage/storage.go:197-224 | Id and title of the owner's cards only. |
| Storage.Storage.CardByID | internal/transport/storage/storage.go:226-240 | The owner's card with that id, or `ErrNoData`. |
| Storage.Storage.AddBinary | internal/service/backend/server.go:277-280 | The binary's row (title, file name) is stored under the owner and the next id. |
| Storage.Storage.AddBinaryChunk | internal/service/backend/server.go:306-309 | The chunk is stored under (binary id, order number) exactly when the query runs and the binary exists; a failure leaves the chunks untouched. |
| Storage.Storage.BinaryByID | internal/service/backend/server.go:350-353 | The owner's binary with that id, or `ErrNoData`. |
| Storage.Storage.UpdateBinary | internal/service/backend/server.go:355-357 | Only the title of the row with the binary's id changes; the table keeps its length. |
| Chunking.SplitConcat | internal/service/backend/server.go:282-335 | Joining the chunks in order-number order gives the body back. |
| Chunking.SplitCount | internal/service/backend/server.go:292-318 | There are exactly ⌈N / S⌉ chunks, numbered 1 .. ⌈N / S⌉, and none for an empty body. |
| Chunking.SplitBounds | internal/service/backend/server.go:292-318 | K chunks of at most S bytes cover N bytes, and K - 1 full ones do not. |
| Chunking.SplitAt | internal/service/backend/server.go:289-298 | Chunk k holds body bytes k·S up to (k+1)·S, or up to the end. |
| Chunking.SplitSizes | internal/service/backend/server.go:292-320 | Every chunk but the last has S bytes; the last has N mod S bytes when that is non-zero; none is empty. |
| Chunking.GatherByte | internal/service/backend/server.go:289-298 | One byte more: the buffer reaching S bytes is exactly the next chunk, and it empties. |
| Chunking.GatheredAll | internal/service/backend/server.go:317-320 | At the end of the body a non-empty buffer is the last chunk, and an empty one means every chunk was flushed. |
| Chunking.FullChunk | internal/service/backend/server.go:292-298 | A chunk flushed when the counter reaches S is body bytes n·S up to (n+1)·S. |
| Chunking.TrailingChunk | internal/service/backend/server.go:317-320 | The remainder flushed after the loop is the last chunk. |
| Chunking.ExactChunks | internal/service/backend/server.go:317 | A body of exactly n·S bytes leaves no trailing chunk. |
| Chunking.SplitUnbounded | internal/service/backend/server.go:292 | With chunk size 0 the counter never matches, and a non-empty body is one chunk. |
| Chunking.DefaultSizeExample | internal/app/backend/config.go:29 | At the default size 1024, 2500 bytes give chunks of 1024, 1024 and 452 bytes. |
| Vault.NthNonce | internal/lib/crypt/crypt.go:38-41 | Draw k gets NonceSize bytes exactly when the pool still holds them. |
| Vault.DrawnAll | internal/lib/crypt/crypt.go:39 | A draw succeeds only when every earlier one did. |
| Vault.SealFrom | internal/service/backend/server.go:56-64 | Encrypting fields k.. in order keeps the field count, and a failure lies at or after k. |
| Vault.SealStep | internal/service/backend/server.go:56-59 | A field's own encryption either fails, leaving "" in that field and stopping, or overwrites the field and goes on. |
| Vault.Seal | internal/service/backend/server.go:56 | One `Encrypt` draws one nonce from the reader and returns the envelope, or "" and the error. |
| Vault.SealNext | internal/service/backend/server.go:56-64 | Encrypting field k continues the record's sealing, or ends it with that field's error. |
| Vault.SealAll | internal/service/backend/server.go:214-238 | A record's whole sealing keeps its field count. |
| Vault.SealFromOutcome | internal/service/backend/server.go:50-72 | A sealing completes exactly when no nonce draw from k on fails; otherwise it fails at the first failing draw. |
| Vault.SealFromFields | internal/service/backend/server.go:214-238 | Fields before a failure are encrypted, the failing one is "", and later ones are untouched. |
| Vault.OpenFrom | internal/service/backend/server.go:99-107 | Decrypting fields k.. keeps the field count, and a failure lies at or after k. |
| Vault.OpenStep | internal/service/backend/server.go:99-102 | A field's own decryption either fails, leaving "" and stopping, or overwrites the field and goes on. |
| Vault.OpenAll | internal/service/backend/server.go:240-264 | A record's whole decryption keeps its field count. |
| Vault.OpenFromOutcome | internal/service/backend/server.go:240-264 | An opening fails exactly when some field fails to decrypt, and then at the first such field. |
| Vault.OpenFromFields | internal/service/backend/server.go:240-264 | Fields before a failure are decrypted, the failing one is "", and later ones are untouched. |
| Vault.OpenSealed | internal/service/backend/server.go:88-110 | Under the AEAD laws, with nonces for every field, decrypting a sealed record gives every field back. |
| Vault.ChunkError | internal/service/backend/server.go:300-311 | A chunk's worker fails exactly when its nonce draw fails or its insert is rejected, with an error matching no sentinel. |
| Vault.FirstError | internal/service/backend/server.go:337-339 | `g.Wait()` reports no error exactly when every chunk landed. |
| Vault.FirstErrorIsFirst | internal/service/backend/server.go:337-339 | The error reported is that of the lowest-numbered chunk that did not land. |
| Vault.NoneFed | internal/service/backend/server.go:272-275 | Before any worker no draw, row or error exists. |
| Vault.WritesStep | internal/service/backend/server.go:306-309 | A landed chunk adds exactly its row; a failed one adds none. |
| Vault.ChunkStored | internal/service/backend/server.go:300-311 | Running chunk n's worker moves the pool, query count, rows and error from n - 1 chunks to n. |
| Vault.WritesExactly | internal/service/backend/server.go:306 | The chunk rows are exactly those of landed chunks, each under the binary's id and its order number, holding its ciphertext. |
| Vault.RowOfChunk | internal/service/backend/server.go:306 | A landed chunk's row holds its ciphertext, whatever other rows the table held. |
| Vault.CiphertextOpens | internal/service/backend/server.go:301 | A chunk's stored ciphertext decrypts to the chunk. |
| Vault.LandedRowsOpen | internal/service/backend/server.go:282-335 | When every chunk landed, rows 1 .. n exist and decrypt to the chunks. |
| Vault.LandedRowOpens | internal/service/backend/server.go:300-306 | Row j of a fully landed upload exists and decrypts to chunk j - 1. |
| Vault.ReassembleOpens | internal/service/backend/server.go:282-335 | Reading rows 1 .. n that decrypt to the chunks gives their concatenation. |
| Vault.UploadReassembles | internal/service/backend/server.go:282-335 | A fully landed upload reads back as its chunks joined. |
| Vault.BodyReadsBack | internal/service/backend/server.go:266-342 | A binary whose chunks all landed reads back, in order-number order, as exactly its body, and its rows are keyed 1 .. ⌈N / S⌉ with no gap. |
| Backend.Service.constructor | internal/service/backend/server.go:13-20 | The service holds its chunk size, store, hasher, token authority and cipher, and is consistent exactly when its store is and its key is a valid AES size. |
| Backend.Service.RegisterUser | internal/service/backend/server.go:23-30 | The store gets `Hash(password)`, never the password; a storage error comes back wrapped, so it still matches the storage sentinel. |
| Backend.Service.AuthUser | internal/service/backend/server.go:32-48 | A lookup error returns first; a hash mismatch gives `ErrUsersPasswordNotMatch` with no token; a match gives `BuildNewJWTToken(login)`. |
| Backend.Service.AddDataLoginPass | internal/service/backend/server.go:50-72 | The owner is looked up first; login then password are encrypted in place; storage is reached only when both are, gets the owner's id, and gets the title unchanged. |
| Backend.Service.EncryptLoginPass | internal/service/backend/server.go:56-64 | The record's login and password end as `SealAll` leaves them, and the error is the first field's failure under its context. |
| Backend.Service.DataLoginPassList | internal/service/backend/server.go:74-86 | After the owner lookup, the store's id/title listing comes back unchanged and not decrypted. |
| Backend.Service.DataLoginPass | internal/service/backend/server.go:88-110 | The owner's row with that id, either fully decrypted (a fresh record) or failing as a whole with the first field's error; `ErrNoData` for another owner's id. |
| Backend.Service.DecryptLoginPass | internal/service/backend/server.go:99-107 | The record ends as `OpenAll` leaves it, and the error is the first failing field's. |
| Backend.Service.AddDataText | internal/service/backend/server.go:112-129 | The owner is looked up first; the text is encrypted in place, then stored; on any failure storage is unchanged. |
| Backend.Service.DataTextList | internal/service/backend/server.go:131-143 | The owner's id/title listing of texts, unchanged. |
| Backend.Service.DataText | internal/service/backend/server.go:145-162 | The owner's text decrypted, or the first failure. |
| Backend.Service.EncryptCardData | internal/service/backend/server.go:214-238 | Number, owner, expiry date and CVC are encrypted in place in order, stopping at the first failure, which leaves the earlier ones encrypted. |
| Backend.Service.DecryptCardData | internal/service/backend/server.go:240-264 | The four card fields are decrypted in order, stopping at the first failure. |
| Backend.Service.AddDataCard | internal/service/backend/server.go:164-180 | All four fields are encrypted before the store is reached; a failure is wrapped twice and leaves storage unchanged. |
| Backend.Service.DataCardList | internal/service/backend/server.go:182-194 | The owner's id/title listing of cards, unchanged. |
| Backend.Service.DataCard | internal/service/backend/server.go:196-212 | The owner's card fully decrypted, or failing as a whole. |
| Backend.Service.StoreChunk | internal/service/backend/server.go:300-311 | One worker encrypts its chunk with the next nonce, then inserts it under (binary id, order number), or fails without a row. |
| Backend.Service.Flush | internal/service/backend/server.go:296-313 | Handing chunk n to its worker extends the rows, draws and first error from n - 1 chunks to n. |
| Backend.Service.Take | internal/service/backend/server.go:289-314 | One byte of the loop keeps its invariant: the counter is the buffer's length, the buffer is the current chunk's prefix, and chunks 1 .. chunkNum are stored as the upload says. |
| Backend.Service.FlushTail | internal/service/backend/server.go:317-335 | The non-empty remainder becomes the last chunk, after which every chunk has been handed out. |
| Backend.Service.FeedChunks | internal/service/backend/server.go:282-339 | The loop stores exactly the rows `Writes` gives for `Split(body, S)`, and returns the first chunk error in order-number order. |
| Backend.Service.AddDataBinary | internal/service/backend/server.go:266-342 | The binary's row is created before any byte is read, and its id tags every chunk row; the chunk rows are those of the split body; any chunk error fails the call after every chunk was tried, leaving the rows already written. |
| Backend.Service.AddDataBinaryTitle | internal/service/backend/server.go:344-360 | A binary the owner does not have is never updated; otherwise the title is updated and the stored id is returned. |
| Server.Storage.constructor | internal/service/server/interface.go:5-9 | The storage interface answers with the given functions and starts with an empty call log. |
| Server.Storage.RegisterUser | internal/service/server/interface.go:6 | The answer is given, and the call is logged. |
| Server.Storage.UserByLogin | internal/service/server/interface.go:7 | The answer is given, and the call is logged. |
| Server.Storage.AddLoginPass | internal/service/server/server.go:74 | The answer is given, and the call and its record are logged. |
| Server.Storage.LoginPassList | internal/service/server/server.go:92 | The answer is given, and the call is logged. |
| Server.LookupError | internal/service/server/server.go:54-62 | A not-found cause becomes exactly `ErrUserNotFound`; any other cause becomes a new error that matches no sentinel. |
| Server.LookupErrorMatches | internal/service/server/server.go:82-90 | The translated error matches `ErrUserNotFound` exactly when the cause was not-found, and no other sentinel. |
| Server.Service.constructor | internal/service/server/server.go:11-16 | The service holds its storage, hasher, token authority and cipher, and is valid exactly when its key is a valid AES size. |
| Server.Service.RegisterUser | internal/service/server/server.go:19-26 | Storage gets `Hash(password)`; its id or its wrapped error comes back. |
| Server.Service.AuthUser | internal/service/server/server.go:28-44 | A hash mismatch gives `ErrUsersPasswordNotMatch` with no token; a match gives `BuildNewJWTToken(login)`. |
| Server.Service.AddDataLoginPass | internal/service/server/server.go:53-79 | Login then password are encrypted in a copy; either failure returns before `AddLoginPass`; storage gets `u.ID` and both ciphertexts with ID and title unchanged; the caller's value is untouched. |
| Server.Service.DataLoginPassList | internal/service/server/server.go:81-98 | The storage list unchanged, or its wrapped error. |
| Scenario.AddThenGetLoginPass | internal/service/backend/server.go:50-110 | A record added with enough randomness is selected by its owner, not by another user, and decrypts to what was added. |
| Scenario.AddThenGet | internal/service/backend/server.go:50-110 | `AddDataLoginPass`, then `DataLoginPass` with the returned id, gives back the plaintext record under its new id. |
| Scenario.AddLoginPass | internal/service/backend/server.go:50-72 | With no rejected insert, the sealed record is stored under the next id. |
| Scenario.GetLoginPass | internal/service/backend/server.go:88-110 | A row the owner selects and whose fields all decrypt is read back decrypted. |
| Scenario.AddThenGetText | internal/service/backend/server.go:112-162 | A text added with a nonce to spare is selected by its owner, not by another user, and its stored text decrypts to the text that was added. |
| Scenario.TextRoundTrip | internal/service/backend/server.go:112-162 | `AddDataText`, then `DataText` with the returned id, gives back the plaintext text under its new id. |
| Scenario.AddText | internal/service/backend/server.go:112-129 | With no rejected insert, the sealed text is stored under the next id. |
| Scenario.GetText | internal/service/backend/server.go:145-162 | A text row the owner selects and whose text decrypts is read back decrypted. |
| Scenario.AddThenGetCard | internal/service/backend/server.go:164-212 | A card added with nonces for all four fields is selected by its owner, not by another user, and decrypts to the card that was added. |
| Scenario.CardRoundTrip | internal/service/backend/server.go:164-212 | `AddDataCard`, then `DataCard` with the returned id, gives back the plaintext card under its new id. |
| Scenario.AddCard | internal/service/backend/server.go:164-180 | With no rejected insert, the sealed card is stored under the next id. |
| Scenario.GetCard | internal/service/backend/server.go:196-212 | A card row the owner selects and whose four fields all decrypt is read back decrypted. |
| Scenario.RegisterTaken | internal/transport/grpchandler/handler.go:37-46 | A second registration of a taken login, through service and handler, answers Internal, not AlreadyExists. |
| Scenario.WrongPassword | internal/transport/grpchandler/handler.go:54-65 | A wrong password, through service and handler, answers Internal, not PermissionDenied. |

## Left out

- Concurrency in `AddDataBinary`. The errgroup workers run one after the other, in order-number order, each to completion. The `ctx.Done()` early return (internal/service/backend/server.go:283-287) is not modelled. Neither is the cancellation of the errgroup's context after a worker fails. So every chunk is tried, and `g.Wait()` reports the lowest-numbered failure rather than the one that happened first in time.
- The chunk worker's error text carries the order number (`%d`). The model wraps with the fixed contexts `Vault.EncryptChunk` and `Vault.AddChunk`.
- `binary.Body` is a channel of bytes; the model reads it as a byte sequence.
- A negative `BinaryChunkSize` makes `make` panic. The chunk size is a `nat`.
- AES-GCM, SHA-256 password hashing, the JWT library's parsing and signing, and `json.Marshal` are foreign code. They are function values constrained only by the stated laws (`Crypt.Lawful`, `Token.Laws`).
- The clock (`time.Now`) is the parameter `now`. `crypto/rand` is the finite pool of `Random.Reader`.
- SQL text, the driver and the network are replaced by in-memory tables. A rejected query is a position in `Storage.Storage.failing`.
- Store faults that are not modelled:
  - `rows.Scan` and `rows.Close` failures;
  - the `sql.ErrNoRows` test after `QueryContext` in the list queries;
  - a unique violation on any table but users.
- Ids are unbounded integers, not `int32` and not the users table's string ids. Lists come back in insertion order, whereas the SQL has no `ORDER BY` and so promises none.
- `AddBinary`, `AddBinaryChunk`, `BinaryByID` and `UpdateBinary` are called by the service, but they are declared neither in the backend's `Storage` interface (internal/service/backend/interface.go:9-24) nor in internal/transport/storage/storage.go. They are modelled as a binaries table and a chunk table keyed by (binary id, order number):
  - `AddBinaryChunk` fails when the binary row is missing, as a foreign key would;
  - `UpdateBinary` changes only the title.
- The old snapshot's storage is a given interface with a call log. Its package declares `RegisterUser`, `UserByLogin` and `AddData`, yet the service calls `AddLoginPass` and `LoginPassList`. Its `User` and `Crypt` types are declared nowhere in the package, so that package as written does not compile.
- Some straight-line code of the service is proved in separate steps, none of which the source declares as a function:
  - `Backend.Service.EncryptLoginPass` and `Backend.Service.DecryptLoginPass`;
  - the chunk loop as `Backend.Service.FeedChunks`, `Backend.Service.Take`, `Backend.Service.FlushTail`, `Backend.Service.Flush` and `Backend.Service.StoreChunk`;
  - a single `Encrypt` call as `Vault.Seal` and `Vault.SealNext`.
- Logging (zerolog), `CheckAccessStream`, the generated protobuf code, process wiring and configuration loading, the CLI client and the gRPC client are not part of this model. The only constants taken from configuration are the 1024-byte chunk size and the 10-minute token lifetime.
- Interceptor.CheckAccess requires `WellFormed`, so it does not model an `auth_token` key whose value list is empty. On such a context `authToken[0]` (internal/transport/interceptor/auth.go:47) panics. The gRPC transport delivers no metadata key without a value, so the model excludes that input instead of modelling the panic.
- Interceptor.AuthToken requires `WellFormed` for the same reason: it reads the first value, which an empty list does not have.
- Handler.Data stands for the `server.Data{Title, Payload}` the handler builds (internal/transport/grpchandler/handler.go:91-94). The server package's `Data` (internal/service/server/server.go:46-51) declares no `Payload` field, so this type is declared by no source file shown.
- Interceptor.CheckAccess: its own contract states the forwarding case in one direction only. Each parse-error verdict is stated by `Interceptor.Admit`, to which it hands the parse result.

## Findings

| source | as written | input that shows it | evidently intended | confidence | as-written member | corrected member |
|---|---|---|---|---|---|---|
| internal/lib/crypt/crypt.go:64-65 | `enc[:nonceSize]` is sliced without checking `len(enc)`, so a stored value that decodes to fewer than 12 bytes panics the server | `Decrypt("")`, or any even-length hex string shorter than 24 characters | such input is one more decryption error | not executed | Crypt.ShortInputPanics | Crypt.DecryptShortFails |

`Crypt.DecryptAsWritten` models the code as written, with a panic outcome. `Crypt.Decrypt` is the corrected function that the rest of the model uses.
