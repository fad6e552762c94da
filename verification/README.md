# Veris: API route and UI helper model

Veris is a Next.js application for real-estate agents. Users sign up with
an email and password, sign in through NextAuth, reset a forgotten password
with a one-hour link, save CRM records, and generate a marketing
"intelligence pack" for a property through one chat-completion call. This
project models the part of the application that makes decisions:

- **The API routes, over an abstract store.** The database is the class
  `Store.Db`. It has three fields:
  - users, keyed by email;
  - verification tokens, keyed by token;
  - CRM records, in insertion order.

  `Db.Valid()` states the table constraints: unique keys, unique ids, and
  every record owned by an existing user. Each route is a method that works
  through its checks in the source's order. Every error response leaves the
  store unchanged. A success changes it as follows:
  - signup inserts a user;
  - crm/save appends a record;
  - request-reset inserts a token for a known email, and changes nothing
    for an unknown one;
  - reset-password updates a hash and then deletes the token, two changes
    in that order.

  The generation route is a pure function of the API key, the parsed body,
  the provider call and `JSON.parse`.
- **NextAuth's credentials check and callbacks** (`Auth`). `authorize` is
  a function over the users table. The `jwt` and `session` callbacks are
  methods that write the `id` field of a token object and of a session-user
  object.
- **String helpers in the UI.** These are:
  - the nav "is active" rule and the avatar initials of the app shell;
  - the account page's initials and display defaults;
  - the dashboard's first-name greeting.

  They sit on a small model of JavaScript strings (`Text`):
  - `trim`, over the full JavaScript whitespace set;
  - `split(/\s+/)`;
  - `split(c)[0]`;
  - `slice(0, n)`;
  - upper-casing.

`Flows` states properties that span several routes by calling them in
sequence:
- signup followed by login;
- a reset token is single-use;
- a reset link is honoured up to and including one hour;
- the user id is carried from sign-in into the session.

Hashing, comparison, the clock, the random bytes and fresh database ids
are parameters. bcrypt's guarantees are the predicate `Flows.BcryptLaws`: a hash is never
empty, and a password matches its own hash.

## Model

| member | source | states |
|---|---|---|
| SignupRoute.Post | src/app/api/auth/signup/route.ts:8-54 | The result is 400 "Email and password are required." exactly when the email or password is missing or empty. It is 400 "too short" exactly when both are present and the password has fewer than 8 characters. It is 409 exactly when the email is already registered. It is 201 otherwise. Only those three error responses, with statuses 400 and 409, can occur, and the users table is unchanged on each of them. On 201, exactly one user is added under that email, with the fresh id, the name defaulting to "" only when absent, and the hash of the password. The response carries the new id. The table constraints are preserved. |
| CrmSaveRoute.Post | src/app/api/crm/save/route.ts:10-59 | The result is 401 when the session has no email, before the body is looked at. It is 400 exactly when signed in and `processed` is missing or empty; an unparseable body counts as `{}`. It is 404 exactly when signed in with `processed` set and no user has the session email. It is 200 otherwise. On 200, exactly one record is appended, with the owner's id and the submitted `processed`; `raw` defaults to "" and `type` to "general", but only when absent. The response carries that record. Records are unchanged on every error, and every record still belongs to an existing user. |
| RequestResetRoute.Post | src/app/api/auth/request-reset/route.ts:8-45 | An unparseable body gives 500. The result is 400 exactly when the email is missing or empty. An unknown email gets the same success response as a known one, and no token is issued. For a known email, one token is added: the hex of the 32 random bytes, 64 characters long, with the email as identifier and expiry now + 3,600,000 ms. It is 500 if that token already exists. Tokens are unchanged on every response other than success. The users table is never written (its frame is only the tokens). |
| ResetPasswordRoute.Post | src/app/api/auth/reset-password/route.ts:8-46 | The result is 400 "required" exactly when the token or password is missing or empty. There is no minimum length. It is 400 "invalid or expired" exactly when the token is unknown or its expiry is strictly before now, so a token that expires at exactly now is accepted. Success happens exactly when the token is valid and its identifier is a registered email. Then that user's hash is replaced, nothing else about the user changes, and the token is deleted. A missing user gives 500 with the token kept, because the update comes before the delete. Users and tokens are unchanged on every error. |
| Hex.Encode | src/app/api/auth/request-reset/route.ts:24 | `toString("hex")` gives two characters per byte, each a lower-case hexadecimal digit, so 32 bytes give a 64-character token. |
| Hex.DecodeEncode | src/app/api/auth/request-reset/route.ts:24 | Decoding the hex string of any byte sequence gives the bytes back, so `toString("hex")` loses nothing. |
| Hex.EncodeInjective | src/app/api/auth/request-reset/route.ts:24 | Distinct random byte strings give distinct reset tokens. |
| Auth.Authorize | src/lib/auth.ts:30-49 | It fails with "Missing email or password" exactly when the credentials, email or password are missing or empty. Every other failure is "Invalid login": unknown email, no stored hash and wrong password are indistinguishable. It succeeds exactly when the email is registered, has a hash, and the password matches it. On success it returns that user's row. |
| Auth.JwtCallback | src/lib/auth.ts:53-58 | It returns the same token object. The token's id becomes the user's id when a user is given, and stays as it was otherwise. |
| Auth.SessionCallback | src/lib/auth.ts:59-64 | It returns the same session object. The session user's id takes the token's id only when that id is non-empty and the session has a user. Otherwise the id is unchanged; the name and email never change. |
| GenerateIntelligence.Generate | src/app/api/generate-intelligence/route.ts:10-118 | A falsy API key gives 500 before the body is read or the provider called. The result is 400 "propertyText is required" exactly when the key is set, the body parses, and `propertyText` is not a non-empty string; no provider call is made then. The provider gets exactly one user message, the trimmed template, exactly when all checks pass. A pack is returned exactly when the provider answers with non-empty content that parses, and it is the parsed value, unvalidated. Empty or absent content gives 500 "No content returned from OpenAI". Every other failure is 500. |
| GenerateIntelligence.UserPrompt | src/app/api/generate-intelligence/route.ts:76-80 | The user message is the header, a blank line and `propertyText` with trailing whitespace removed. Leading whitespace is kept, and a blank `propertyText` leaves the header alone. |
| GenerateIntelligence.TemplateShape | src/app/api/generate-intelligence/route.ts:76-80 | Trimming the template literal gives the header alone when `propertyText` is blank, and otherwise the header, a blank line and `propertyText` up to its last non-whitespace character. |
| GenerateIntelligence.BlankTextReachesProvider | src/app/api/generate-intelligence/route.ts:22 | A whitespace-only `propertyText` passes the server's check and sends the bare header to the provider. Only the client rejects blank text (src/app/page.tsx:23), and it still sends the untrimmed text. |
| Text.SplitInterleave | src/components/AppShell.tsx:36 | `split(/\s+/)` of words joined by whitespace gaps gives back exactly those words. |
| Text.SplitTrimmedWords | src/app/account/page.tsx:20-21 | Splitting a non-empty trimmed string on whitespace yields only non-empty pieces free of whitespace. |
| Text.TrimStart | src/app/account/page.tsx:18 | The first half of `trim()`: it leaves a suffix of its input that does not begin with whitespace, and everything it removed is whitespace. |
| Text.TrimEnd | src/app/account/page.tsx:18 | The second half of `trim()`: it leaves a prefix of its input that does not end with whitespace, and everything it removed is whitespace. |
| Text.Trim | src/app/account/page.tsx:18 | `trim()` leaves a string with no whitespace at either end that is never longer than its input. |
| Text.TrimSlice | src/app/account/page.tsx:18 | `trim()` removes only whitespace, and only at the ends: the input is the result with whitespace before and after it. |
| Text.SplitWs | src/components/AppShell.tsx:36 | `split(/\s+/)` always yields at least one piece, and no piece contains whitespace. |
| Text.BeforeFirst | src/app/dashboard/page.tsx:38-39 | `split(c)[0]` is a prefix of its input that does not contain `c`, and that stops just before the first `c` when there is one. |
| Text.Take | src/components/AppShell.tsx:38 | `slice(0, n)` is the first min(n, \|s\|) characters of its input: a prefix of exactly that length. |
| Text.Upper | src/components/AppShell.tsx:38-40 | `toUpperCase()`, for ASCII letters only: same length, each character mapped by the one-character upper-casing, and no lower-case ASCII letter left. |
| Text.TrimAround | src/components/AppShell.tsx:36 | Trimming whitespace padding around a core with no whitespace at either end yields exactly the core. |
| AppShell.IsActive | src/components/AppShell.tsx:26-29 | The root link is active exactly on "/". Any other link is active exactly when the path is its href followed by anything, not only a sub-path. |
| AppShell.AvatarSource | src/components/AppShell.tsx:33 | The avatar text is the name when it is truthy, else the email when that is truthy. It is "" exactly when neither is truthy. |
| AppShell.RootActiveOnlyAtRoot | src/components/AppShell.tsx:26-27 | The root link is active exactly when the path is "/". |
| AppShell.ActiveOnLongerPaths | src/components/AppShell.tsx:28 | A non-root link stays active on every extension of an active path, including non-sub-paths: "/dashboardX" activates "/dashboard". |
| AppShell.AtMostOneNavItemActive | src/components/AppShell.tsx:15-18 | No path activates both nav links. |
| AppShell.Initials | src/components/AppShell.tsx:32-41 | The initials are at most two characters, none a lower-case ASCII letter. They are "V" when neither name nor email is truthy. A whitespace-only `name \|\| email` gives "", including a whitespace-only name that wins over the email and a falsy name with a whitespace-only email. |
| AppShell.SourceInitials | src/components/AppShell.tsx:36-40 | The initials of a non-empty `name \|\| email` are at most two characters, none a lower-case ASCII letter, and "" when that text is whitespace only. |
| AppShell.PieceInitials | src/components/AppShell.tsx:37-40 | The rule applied to the pieces of the split text gives at most two characters, none a lower-case ASCII letter. |
| AppShell.InitialsOfWords | src/components/AppShell.tsx:36-40 | For `name \|\| email` made of words, whitespace gaps and padding, the initials are computed from exactly those words. A single word gives its first two characters upper-cased; otherwise the result is the first characters of the first and last words. |
| AccountPage.Initials | src/app/account/page.tsx:17-27 | For a name that is non-blank after trimming, the initials have one character per word. Otherwise, with a truthy email, they are the upper-cased first character of the email. Otherwise, including a whitespace-only name with no email, they are "V". No character is a lower-case ASCII letter. |
| AccountPage.Firsts | src/app/account/page.tsx:22-23 | Mapping each word to its first character and joining gives one character per word: the k-th character is the first character of the k-th word. |
| AccountPage.InitialsOfWords | src/app/account/page.tsx:18-24 | For a name made of words, whitespace gaps and padding, the initials are the first characters of those words, in order, upper-cased. |
| AccountPage.Page | src/app/account/page.tsx:10-30 | The page redirects to /login exactly when there is no session user, and shows the profile exactly when there is one. The profile has the initials, the name or "Your account" when the name is falsy, and the email or "". |
| DashboardPage.FirstName | src/app/dashboard/page.tsx:37-40 | With a name (even ""), the greeting is the longest prefix of the name before the first space. Without a name but with an email, it is the prefix before the first "@", or the whole email. With neither, it is "there". |
| DashboardPage.EmptyNameGreetsNobody | src/app/dashboard/page.tsx:38 | An empty name gives "" whatever the email, because `??` skips only null and undefined. |
| DashboardPage.Page | src/app/dashboard/page.tsx:15-40 | The effect pushes /login exactly when the status is unauthenticated. While loading, the loading screen shows. Without a session, nothing renders. Otherwise the greeting uses the first name. |
| Flows.SignupThenLogin | src/app/api/auth/signup/route.ts:41-54 | After a successful signup, `authorize` with the same email and password returns exactly the row signup created. |
| Flows.ResetTwice | src/app/api/auth/reset-password/route.ts:35-37 | A valid token resets once. Using the same token again gives "invalid or expired", and the token is gone. |
| Flows.RedeemLink | src/app/api/auth/reset-password/route.ts:17-37 | A stored link for a registered email resets the password exactly when it is used no later than its expiry instant, and is refused as invalid or expired otherwise. After the reset, the new password logs in as that email. |
| Flows.RequestThenReset | src/app/api/auth/request-reset/route.ts:24-33 | A link issued at `now` resets the password exactly when used at most one hour later, and is refused otherwise. After the reset, the new password logs in as that email. |
| Flows.SignInCarriesId | src/lib/auth.ts:53-64 | Signing in puts the user's id into the token, and the session built from that token carries the same id. |

## Left out

- Database failures other than the ones named here are not modelled. Neither are the 500 responses they would cause. The modelled ones are:
  - the reset-password update of a missing user;
  - the token-key collision in request-reset.
- A JSON body whose field has a non-string type is not modelled. In signup, crm/save and the reset routes, a body that parses to `null` or a non-object is also not modelled. Typed fields are modelled as optional strings. The generation route does model a non-string `propertyText`.
- Lengths and indices count UTF-16 code units in the source. In the model they count `char`s, which differ for characters outside the Basic Multilingual Plane.
- `Text.Upper` upper-cases ASCII letters only. The real `toUpperCase` can lengthen a string ("ß" becomes "SS"). So `AppShell.Initials`' two-character bound holds for the model, not for every Unicode name.
- `split(/\s+/)` and `trim` use the JavaScript whitespace set as listed in `Text.Whitespace`. Unicode category details beyond that set are not modelled.
- bcrypt salts make `hash` nondeterministic. The model passes `hash` as a function, so it cannot express two different hashes of the same password.
- Nothing about a reset token's unpredictability is modelled; the random bytes are a parameter.
- The system prompt, the model name, the `response_format` option and the system message are not modelled. Only the user message is.
- The shape of the returned intelligence pack is not checked. The route only casts `JSON.parse`'s result, so the model returns whatever `parse` yields.
- Console logging is not modelled. That includes the reset URL that request-reset logs in place of sending an email.
- The Google provider, the Prisma adapter, the JWT secret and JWT signing (src/lib/auth.ts) are not modelled; they are library configuration.
- The JWT is modelled only by the `id` field the callbacks write. The session user is modelled by its `id`, `name` and `email`; the rest of the session object is not modelled.
- Timestamps and other columns the database fills in are not modelled: `createdAt`, `emailVerified`, and the record's own defaults beyond those the route sets.
- AppShell's dropdown menu, outside-click handling and sign-out are not modelled; they are DOM event handling.
- The following are not part of this model; they are `fetch` wrappers and React page state:
  - src/lib/crm.ts and src/lib/intelligence.ts;
  - the intelligence page;
  - the login, signup, forgot-password and reset-password pages;
  - the home page, except its client-side `trim` check cited above.
