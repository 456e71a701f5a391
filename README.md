# MERN-Social backend core in Dafny

This project models the three pieces of logic in the MERN-Social backend:

- **The authorization guard** (`verifyToken`). It reads the `Authorization` header. It strips an optional case-insensitive `bearer` prefix by dropping 7 characters and trimming. Then it hands the token to the JWT library, and either attaches the decoded claims to `req.user` and calls `next`, or answers 400 or 500. The header parser is the pure function `AuthMiddleware.ParseAuthorization`. The decision is the function `AuthMiddleware.Guard`. The middleware itself is the method `AuthMiddleware.VerifyToken`, over `Request`, `Response` and `NextCallback` objects. The header form is loosely that of section 2.1 of RFC 6750.
- **The posts controller.** `likePost` toggles one user's entry in a post's liked-map and writes the map back. `getUserPosts` lists one user's posts. `createPost` always fails. The post collection is the class `Posts.PostStore` over a `seq<Post>` in insertion order. The toggle is the function `Posts.Toggle` on `map<UserId, bool>`.
- **The auth controller.** `login` runs an ordered chain: user lookup, password compare, token signing, password redaction. `register` as written always throws before saving. The users collection is the class `AuthController.UserStore`. The decision is the function `AuthController.LoginOutcome`; the handler is the method `UserStore.Login`.

The library calls are function-typed parameters returning "returned" or "threw" results (module `Jwt`, `AuthController.CompareResult`, `AuthController.HashResult`): `jwt.verify`, `jwt.sign`, `bcrypt.compare`, and `bcrypt.genSalt` followed by `bcrypt.hash`. A throwing call stands for the handler's `catch` path. The signing secret and the token lifetime are opaque string parameters. The two `Math.random` counters and the server-assigned user id are parameters too.

Modules: `Common` (Option, error reply, first-match lookup), `Jwt` (token library interface), `JsString` (`trim`, `slice`, lower-casing), `AuthMiddleware`, `Posts`, `AuthController`.

Where the code and its evident intent disagree, the model follows the code:
- A token that fails verification is answered 500 with the library's message, not as a client error.
- The like toggle tests truthiness, so a stored `false` entry is set to `true`. Only a `true` entry is deleted.
- `register` never answers 201: see Findings.
- `createPost` never creates a post. It calls `User.findById` (backend/src/controllers/posts.js:6), but the file never imports `User`, so every call answers 409. The model keeps that behaviour and does not invent a working path.

## Model

| member | source | states |
|---|---|---|
| Common.FirstMatch | backend/src/controllers/auth.js:53 | the lookup returns the first stored document that matches, or none when no document matches |
| JsString.TrimStart | backend/middlewares/auth.js:10 | the result is a suffix of the input that does not start with whitespace |
| JsString.TrimEnd | backend/middlewares/auth.js:10 | the result is a prefix of the input that does not end with whitespace |
| JsString.TrimStartDropsWhitespace | backend/middlewares/auth.js:10 | everything the leading trim drops is whitespace |
| JsString.TrimEndDropsWhitespace | backend/middlewares/auth.js:10 | everything the trailing trim drops is whitespace |
| JsString.Trim | backend/middlewares/auth.js:10 | `trim` leaves no whitespace at either end |
| JsString.TrimDecompose | backend/middlewares/auth.js:10 | the input is whitespace, then the trimmed text, then whitespace |
| JsString.TrimEmptyIff | backend/middlewares/auth.js:10-11 | `trim` gives the empty string exactly when the input is all whitespace |
| JsString.TrimStartSkipsWhitespace | backend/middlewares/auth.js:10 | leading whitespace does not change where the trimmed start begins |
| JsString.TrimOfTrimmed | backend/middlewares/auth.js:10 | a string with no whitespace at either end is its own `trim` |
| JsString.TrimAfterWhitespace | backend/middlewares/auth.js:10 | leading whitespace before a trimmed text is exactly what `trim` removes |
| JsString.TrimIdempotent | backend/middlewares/auth.js:10 | trimming twice is trimming once |
| JsString.Slice | backend/middlewares/auth.js:10 | `slice(7)` on a string: the characters from position 7 on, or the empty string for a shorter input (definition, no contract) |
| JsString.StartsWithBearer | backend/middlewares/auth.js:9 | `toLowerCase().startsWith("bearer")`: at least six characters whose ASCII lower-case forms spell `bearer` (definition, no contract) |
| AuthMiddleware.ParseAuthorization | backend/middlewares/auth.js:5-14 | a token handed to `jwt.verify` is never empty |
| AuthMiddleware.ParseMissingIff | backend/middlewares/auth.js:5-7 | "No token provided" arises exactly for an absent or empty header |
| AuthMiddleware.ParseBearerRoundTrip | backend/middlewares/auth.js:9-10 | any case spelling of "bearer", one arbitrary character, whitespace and a trimmed token yield that token |
| AuthMiddleware.ParseBearerHeader | backend/middlewares/auth.js:9-10 | a header "Bearer " + b64token (section 2.1 of RFC 6750: token characters, with `=` only in a trailing run) yields exactly that token |
| AuthMiddleware.ParseEmptyBearerIff | backend/middlewares/auth.js:9-11 | "Invalid Bearer Token" arises exactly when the prefix is present and everything after the 7th character is whitespace |
| AuthMiddleware.ParsePrefixedShape | backend/middlewares/auth.js:10 | on the prefixed path the token is what follows the first 7 characters, minus surrounding whitespace |
| AuthMiddleware.ParseBareUnchanged | backend/middlewares/auth.js:9-14 | a non-empty header without the prefix reaches `jwt.verify` unchanged and untrimmed |
| AuthMiddleware.ParseExampleBearer | backend/middlewares/auth.js:9-10 | "Bearer abc" yields "abc" |
| AuthMiddleware.ParseExampleUpperCase | backend/middlewares/auth.js:9 | "BEARER abc" yields "abc": the prefix test ignores case |
| AuthMiddleware.ParseExampleNoSeparator | backend/middlewares/auth.js:9-10 | "bearerxyz" takes the prefixed path and yields "yz" |
| AuthMiddleware.ParseExampleBarePrefix | backend/middlewares/auth.js:9-11 | the header "Bearer" is malformed |
| AuthMiddleware.ParseExampleSpacesOnly | backend/middlewares/auth.js:9-11 | the header "Bearer   " is malformed |
| AuthMiddleware.ParseExampleLeadingSpace | backend/middlewares/auth.js:9-14 | " Bearer abc" misses the prefix test and goes to the library as it is |
| AuthMiddleware.Guard | backend/middlewares/auth.js:5-21 | the middleware's decision: 400 for a missing or malformed header, 500 with the library's message when `jwt.verify` throws, otherwise proceed with the decoded claims (definition; the Guard lemmas below state its properties) |
| AuthMiddleware.GuardMissingHeader | backend/middlewares/auth.js:7 | an absent or empty header is answered 400 "No token provided" whatever the library would do |
| AuthMiddleware.GuardEmptyBearer | backend/middlewares/auth.js:10-11 | a prefix followed by whitespace only is answered 400 "Invalid Bearer Token" whatever the library would do |
| AuthMiddleware.GuardIgnoresVerifier | backend/middlewares/auth.js:7-11 | when no token is extracted, the decision does not depend on `jwt.verify` at all |
| AuthMiddleware.GuardConsultsTokenOnly | backend/middlewares/auth.js:14 | the decision depends on `jwt.verify` only through its answer for the extracted token and the secret |
| AuthMiddleware.GuardProceedIff | backend/middlewares/auth.js:14-16 | the request proceeds exactly when a token is extracted and verifies, and it carries the decoded claims |
| AuthMiddleware.GuardServerFaultIff | backend/middlewares/auth.js:17-21 | status 500 arises exactly when `jwt.verify` throws, and then the reply carries the library's message; every other rejection is 400 |
| AuthMiddleware.VerifyToken | backend/middlewares/auth.js:3-22 | either the reply is sent and `next` is not called and `req.user` is unchanged, or `req.user` holds the claims, `next` is called once and no reply is sent |
| AuthMiddleware.BearerRequestProceeds | backend/middlewares/auth.js:9-16 | a fresh request with an RFC 6750 header whose token verifies reaches `next` once with the claims attached and no reply |
| Posts.IsLiked | backend/src/controllers/posts.js:64-66 | `post.likes.get(userId)` is truthy: the user has an entry and it is `true` (definition, no contract) |
| Posts.Toggle | backend/src/controllers/posts.js:64-70 | the liked-map after the toggle: a truthy entry is deleted, otherwise the entry is set to `true` (definition; the Toggle lemmas below state its properties) |
| Posts.ToggleUnlikes | backend/src/controllers/posts.js:64-67 | a truthy entry for the user is deleted |
| Posts.ToggleLikes | backend/src/controllers/posts.js:64-69 | an absent or false entry becomes `true` |
| Posts.ToggleFlips | backend/src/controllers/posts.js:64-70 | the toggle flips whether the user likes the post |
| Posts.ToggleFrame | backend/src/controllers/posts.js:64-70 | every other user's entry keeps its presence and value |
| Posts.ToggleKeepsAllTrue | backend/src/controllers/posts.js:66-70 | an all-true map stays all-true, and its size changes by exactly one |
| Posts.ToggleTwice | backend/src/controllers/posts.js:64-70 | under the all-true invariant two toggles by one user restore the map |
| Posts.ToggleTwiceNeedsAllTrue | backend/src/controllers/posts.js:64-70 | two toggles by a user whose own entry is `false` delete that entry instead of restoring it |
| Posts.IsMapKey | backend/src/controllers/posts.js:69 | the keys Mongoose's map `set` accepts: no leading `$`, no `.`, not a reserved property name (definition, no contract) |
| Posts.MapKeyMessage | backend/src/controllers/posts.js:69 | the message of the error `set` throws for a refused key, which the catch at lines 82-85 returns with the 404: the leading `$` is reported first, then a `.`, then a reserved name (definition, no contract) |
| Posts.DottedKeyRefused | backend/src/controllers/posts.js:69 | a user id that contains `.` and does not start with `$` is refused by `set`, and the message names the dot |
| Posts.UserPosts | backend/src/controllers/posts.js:47-51 | `Post.find({ userId })`: the listing is never longer than the store |
| Posts.UserPostsExact | backend/src/controllers/posts.js:47-51 | the listing holds exactly the stored posts of the user, as a subsequence of the store |
| Posts.UserPostsAppend | backend/src/controllers/posts.js:48 | the listing of a concatenated store is the concatenation of the listings, so store order is kept |
| Posts.FindPost | backend/src/controllers/posts.js:63 | `Post.findById(id)`: the position of the first stored post with the id, or none (definition over Common.FirstMatch, whose contract states this) |
| Posts.FindPostUnique | backend/src/controllers/posts.js:63 | with unique ids, the post found is the one stored post that has the id |
| Posts.FindPostSameIds | backend/src/controllers/posts.js:63 | the post found for an id depends only on the stored ids |
| Posts.WriteBackKeepsValid | backend/src/controllers/posts.js:72-76 | writing back a liked-map with accepted keys keeps ids unique, keeps every stored key valid, and changes no id |
| Posts.PostStore.LikePost | backend/src/controllers/posts.js:59-87 | a missing post gives 404 with the null-read message, and a user id the map's `set` refuses gives 404 with Mongoose's message, both with the store unchanged; otherwise exactly that post's liked-map is toggled and written back and the updated post is returned; unique ids, valid map keys and the all-true invariant are kept |
| Posts.PostStore.CreatePost | backend/src/controllers/posts.js:3-30 | the handler always answers 409 "User is not defined" and saves nothing |
| Posts.LikeTwiceRestores | backend/src/controllers/posts.js:59-87 | when every stored liked-map is all-true, two like requests by one user on one post leave the store as it was; both fail exactly when the post is missing or the user id is a refused key, and otherwise both succeed |
| AuthController.FindByEmail | backend/src/controllers/auth.js:53 | `User.findOne({ email })`: the position of the first stored user with the email, or none (definition over Common.FirstMatch, whose contract states this) |
| AuthController.LoginOutcome | backend/src/controllers/auth.js:49-76 | the login decision: lookup, then compare, then sign, each failure answered in that order, success with the signed token and the redacted user (definition; the Login lemmas below state its properties) |
| AuthController.LoginUnknownEmail | backend/src/controllers/auth.js:53-54 | an unknown email is answered 400 "User does not exist" whatever compare and sign would do |
| AuthController.LoginWrongPassword | backend/src/controllers/auth.js:56-58 | a mismatching password is answered 400 "Invalid credentials" whatever sign would do |
| AuthController.LoginTokenIff | backend/src/controllers/auth.js:53-70 | a token is returned exactly when the user exists, the password matches and signing succeeds; it is the token signed for the user's id, with "Login successfully" |
| AuthController.LoginRedactsPassword | backend/src/controllers/auth.js:64-69 | the returned user has the requested email and no password, and every other field is as stored |
| AuthController.LoginServerFaultIff | backend/src/controllers/auth.js:71-75 | status 500 arises exactly when compare throws, or compare matches and sign throws, and then the reply carries that call's message |
| AuthController.FindByEmailUnique | backend/src/controllers/auth.js:53 | with unique emails, the user found is the one stored user that has the email |
| AuthController.FindAppended | backend/src/controllers/auth.js:53 | a user saved with a fresh email is the one found for that email |
| AuthController.LoginAfterRegister | backend/src/controllers/auth.js:49-76 | after a saved registration, login with a matching password returns the new user, redacted, with the signed token |
| AuthController.UserStore.Login | backend/src/controllers/auth.js:49-76 | the handler's reply is the one the ordered check chain determines |
| AuthController.UserStore.Register | backend/src/controllers/auth.js:5-47 | every request is answered 500, with the hasher's message or "Assignment to constant variable.", and no user is saved |
| AuthController.UserStore.RegisterCorrected | backend/src/controllers/auth.js:20-41 | a hash failure or a taken email gives 500 with the store unchanged; otherwise the store gains exactly the new user with the hashed password, returned with "User created successfully" |
| AuthController.RegisterExample | backend/src/controllers/auth.js:7-41 | for one example request the handler as written answers 500 and the corrected handler creates the user with the hashed password |

## Left out

- `getFeedPosts` (backend/src/controllers/posts.js:32-43): it passes `Post.find()` straight through and has no logic of its own.
- backend/src/index.js and frontend/src/App.jsx: middleware wiring, the database connection, file uploads, static files, `listen` and the page routing table. This is framework configuration with no logic.
- Storage faults. A failing `find`, `findOne`, `findById` or `save` would reach the handlers' `catch` paths. The stores are in-memory sequences that never fail. For `likePost`, a malformed id that fails to cast gives 404 with another message. The model treats an unknown id only as not found.
- Posts.PostStore.LikePost: does not model concurrent requests or the lost update between them. The model toggles sequentially.
- Posts.MapKeyMessage: the refused-key texts are those of Mongoose's map key check (`checkValidKey`) in current releases. The Mongoose version is not pinned in the files modelled. A non-string `userId` would raise a TypeError there instead; request fields are strings here.
- Password hashing, token signing, and verification with expiry are foreign library calls. The model does not cover their cryptographic correctness or the clock.
- The request body fields are strings. An absent field (`undefined`) is not modelled, apart from what the library oracles do with it.
- `next` is assumed not to throw. A handler error reached from `next` belongs to the framework's own error handling.
- JsString.StartsWithBearer: lowercases A–Z only. No other character's lower-case form starts with one of the letters b, e, a, r, so the prefix test agrees. Strings are sequences of Unicode code points, not UTF-16 code units.
- Posts.UserPostsExact: membership and the subsequence relation do not fix how often a repeated identical post appears. In a store with unique ids no post repeats. Posts.UserPostsAppend pins down the order.
- The `User` and `Post` model files are not part of this model. AuthController.UserStore.RegisterCorrected assumes a unique index on `email`; the `User` model file that would declare it is not available. DuplicateEmailMessage abbreviates the store's duplicate-key error text.

## Findings

| source | as written | input that shows it | evidently intended | confidence | as-written member | corrected member |
|---|---|---|---|---|---|---|
| backend/src/controllers/auth.js:22 | `password = passwordHash` assigns to a binding declared `const` at line 7-18, which throws a TypeError before `save` at line 36 | any request whose password hashes, e.g. `{email: "a@x.com", password: "secret"}` | store the hash in a mutable binding so the user is saved and answered 201 | high, not executed | AuthController.UserStore.Register | AuthController.UserStore.RegisterCorrected |
