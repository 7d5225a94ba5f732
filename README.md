# s3photoalbum request logic, modelled in Dafny

The s3photoalbum server is a small Go web application. It shows photo albums kept in an
S3-compatible object store, and only signed-in users may see them. This project models the
decision logic of its HTTP handlers and proves what each one does:

- **Media resolution** (`imageHandler`). It reads the `thumbnail` query flag and picks the
  object to presign. With the flag set, it first probes the thumbnail bucket for
  `<album>/<image>.jpg`. It falls back to the original `<album>/<image>` in the media bucket
  only when the probe reports `NoSuchKey`. Any other probe error is fatal. Every presigned URL
  lives for one hour, and the handler answers with a 303 redirect to it.
- **Prefix listing** (`listObjectsByPrefix`). A loop reads the listing stream of the media
  bucket and strips one trailing `/` from each key. It stops at the first error and returns
  what it gathered up to that point.
- **Session gating**. The `verifyToken` middleware checks the `token` cookie and stores the
  identity in the request context. `getSession` reads that identity back.
- **Login and user info**. `login` looks up the user, checks the password and issues the
  session cookie. `getUserInfo` returns the signed-in user's record.
- **`incolumn`**. This template helper spreads pictures over four columns.

The object store, token validation and generation, the user store and bcrypt are all
collaborators. They are passed in as function-valued fields (`Store.ObjectStore`,
`Handler.Accounts`, the `validate` parameter of `VerifyToken`). The image handler and `login`
return the calls they made on these collaborators along with their response. That way the
contracts can say which calls happen, and in which order. For example, no probe is made
without the flag, and no password check is made for an unknown user.

Files: `wrappers.dfy` (Option), `http.dfy` (status codes, user record, JSON replies),
`store.dfy` (bucket configuration and the object-store oracles), `media.dfy`, `listing.dfy`,
`session.dfy` and `templates.dfy` (cmd/server/main.go), and `handler.dfy`
(cmd/server/handler.go).

Two facts about the code shape the model:
- `imageHandler` never probes the media bucket when no thumbnail is asked for. It presigns the
  original straight away (cmd/server/main.go:215-223).
- A probe error other than `NoSuchKey` goes to `log.Fatal`, which ends the whole process
  (cmd/server/main.go:197-200). The model records it as the distinct outcome `Fatal(code)`.

## Model

| member | source | states |
|---|---|---|
| Media.ParseBool | cmd/server/main.go:167 | true exactly for "1", "t", "T", "TRUE", "true", "True"; false exactly for "0", "f", "F", "FALSE", "false", "False"; an error for every other string |
| Media.ThumbnailFlag | cmd/server/main.go:166-170 | a missing parameter reads as false (the "false" default); the flag is set exactly when the parameter is present and spelt as a true value, so unparsable values read as false |
| Media.ImageHandler | cmd/server/main.go:164-226 | without the flag, the only call is a presign of (media bucket, album/image) and there is no probe; with the flag, the first call is the single thumbnail probe of (thumbnail bucket, album/image.jpg); if it exists, the thumbnail is presigned; on NoSuchKey, the original is presigned; the original is presigned for a thumbnail request only if the probe said NoSuchKey; any other probe error gives Fatal with that code and no presign; otherwise exactly one presign is made, last, with a 3600 s TTL, and the answer is a 303 to its URL, or no response if it failed |
| Media.ThumbPath | cmd/server/main.go:182 | the thumbnail key always differs from the original's key, so a presign of the original can never be mistaken for one of the thumbnail, even when both buckets have the same name |
| Listing.TrimSlash | cmd/server/main.go:245 | a key ending in `/` loses exactly that one slash; any other key is unchanged |
| Listing.ListedKeys | cmd/server/main.go:239-247 | the listing is never longer than the stream |
| Listing.FirstError | cmd/server/main.go:240-244 | the position where the loop stops: every item before it is a key, and the item at it (if any) is an error |
| Listing.ListedKeysAreEntriesBeforeFirstError | cmd/server/main.go:239-247 | the listing holds the trimmed keys of exactly the items before the first error, in stream order (so an empty stream lists nothing) |
| Listing.ErrorTruncates | cmd/server/main.go:241-244 | nothing after an error item ever reaches the result |
| Listing.ListingOfPrefix | cmd/server/main.go:239-247 | the listing of a stream cut short is a prefix of the full listing, so a short list is a partial one |
| Listing.ListingConcatenates | cmd/server/main.go:240-246 | an error-free stream lists piece by piece: the listing of a + b is the listing of a followed by that of b |
| Listing.ListObjectsByPrefix | cmd/server/main.go:228-248 | the loop returns the listing of the media bucket's stream for the prefix: as many keys as come before the first error, each the trimmed key of its stream item |
| Session.Context.Set | cmd/server/main.go:52-53 | stores one value under a key and changes nothing else |
| Session.Context.AbortWithStatusJSON | cmd/server/main.go:42 | aborts the chain with the given status and an empty JSON object; keys untouched |
| Session.Context.Next | cmd/server/main.go:54 | passes the request on; nothing else changes |
| Session.VerifyToken | cmd/server/main.go:38-55 | a missing or invalid token gives 401, aborts and stores nothing; a valid one stores exactly "id" and "username" from the token and continues, after which getSession returns that identity with ok |
| Session.GetSession | cmd/server/main.go:57-69 | returns (0, "", false) unless both keys are present; ok exactly when both hold a uint and a string, and then returns them; panics when both are present with another type |
| Templates.InColumn | cmd/server/main.go:125 | with Go's truncating `%`: for index >= 0, true exactly for columns 0..3 congruent to the index mod 4; for a negative index, only columns -3..0 congruent to it |
| Templates.EachIndexInOneColumn | cmd/server/main.go:125 | every non-negative index is in exactly one column, index mod 4 |
| Handler.Login | cmd/server/handler.go:9-40 | the user lookup always comes first; an unknown user, a wrong password and a failed token generation all give the same "Authentication failed" login page and no cookie; the password is checked only for a found user, and a token is generated only after a match; a cookie is set exactly when all three steps succeed, and it is `token`=token, maxAge 3600, path "/", domain "localhost", secure, not httpOnly, followed by a 303 to "/", and then the calls were exactly the lookup, the password check and the token generation, in that order |
| Handler.GetUserInfo | cmd/server/handler.go:42-54 | no session gives 401 with an empty object; a session whose user lookup fails gives 500; 200 exactly when the session's user is found, and then with that user's full record; a panic in getSession propagates |

## Left out

- `main()` bootstrap: environment variables, the SQLite/gorm setup, the seeded test users (with `hashAndSalt` and `insertUser`, which appear nowhere in the model), the minio client construction, route registration and template loading. It has no decision logic; the bucket names become `Store.Config`.
- `albumHandler`, `indexHandler`, the GET `/login` page and all HTML rendering and printing. They are presentation only. The listing they use is `ListObjectsByPrefix`.
- The minio client, `validateToken`, `generateToken`, `findUserByUsername`, `findUserByID` and bcrypt. They are not part of this model and appear as uninterpreted oracles. For this reason the token format, signing and expiry are not modelled.
- `log.Fatal` ending the process: recorded as the `Fatal` outcome.
- gin's recovery of panics: recorded as the `Panicked` outcome of `GetUserInfo`.
- Cancelling the listing context, request concurrency and wall-clock time.
- gin's URL escaping of cookie values on `SetCookie` and unescaping on `Cookie`: the model passes the token value through unchanged.
- Repeated query parameters: the query map holds the first value of each parameter, which is the one `DefaultQuery` returns.
- Repeated cookies: `c.Cookie` returns the first of several `token` cookies; `Context.cookies` holds one value per name, which stands for that first one.
- Session.VerifyToken: assumes that `validateToken` (not part of this model) returns the id as a Go `uint`. The model types that id as `nat` and stores it as `UintValue`, so `GetSession` then succeeds. If `validateToken` returned another type, the `id.(uint)` assertion at cmd/server/main.go:68 would panic.
- Go's fixed-width `uint` for ids and ages: modelled as unbounded naturals. The ids are only passed through.
- gorm's `CreatedAt`, `UpdatedAt` and `DeletedAt` fields of `User`.
- `Session.Context` covers only the keys, the abort flag, the JSON reply and whether `Next` was called. Running the rest of the handler chain is not modelled.
