# Flux image-generation app: a Dafny model of its core

This project models the core of a web application that generates images with FLUX and
chats with a language model. It has a NestJS back end and a React front end, and it is
modelled in Dafny as follows.

- **Authentication.** `auth.service`, `auth.controller` and `jwt.strategy`:
  - credential checks;
  - access tokens, and refresh tokens rotated with at most one record per user, seven-day
    expiry and revocation;
  - the two session cookies;
  - which token a request carries (the `access_token` cookie first, then an
    `Authorization: Bearer` header).
- **Users.** `users.service` and `users.controller`: the in-memory user table with its
  default administrator, and the password-free projections the controller answers with.
- **Roles.** `roles.service`: the in-memory role table.
- **Chat.** `chat.service`, `chat-settings.service` and `chat-settings.dto`:
  - the messages sent to the model, the stored history and conversation titles;
  - one settings row per user, created on first use;
  - the numeric ranges the settings DTOs enforce.
- **Images.** `images.service` and `generate-image.dto`: the image gallery and the
  generation request's defaults and checks.
- **Upstream errors.** `handleError` in `flux.service`: how an upstream error becomes an
  HTTP error.
- **Front end.** `Chat.tsx` (`formatResponse`, `generateConversationTitle`,
  `groupConversationsByDate`) and the registration form's checks in `RegisterPage.tsx`.

The model is built on these conventions:

- Each source file is a Dafny module.
- Each service or controller that updates its state is a `class`:
  - its tables are `seq` fields;
  - its methods state the new table as a function of the old one;
  - the properties are proved about those functions.
- Pure code is functions and lemmas.
- Loops in the source are `while` or `for` loops with invariants.

What the model takes as parameters instead of computing:

- **Randomness and ids.** `crypto.randomBytes(64)` is a 64-byte parameter. uuids are
  parameters, and database-generated keys are a counter.
- **Time.** The clock is an integer number of milliseconds, and calendar dates are
  (year, month, day) triples.
- **bcrypt.** It is a symbolic digest: `compare(p, d)` holds exactly when `d` was made from `p`.
- **JWT.** `jwt.sign` is a parameter, and checking a signature is a `decode` parameter that
  yields the payload, the signing key and `exp`.
- **The chat model.** Its completion of a message list is a parameter.
- **Local days.** The local calendar day of a time, which the browser derives from the
  time zone, is a parameter `localDay`.

Where the code and its comments disagree, the model follows the code. In
`generateConversationTitle`, the comment promises the first six words and at most 30
characters, but the code takes words 10 to 19 and cuts at 100 characters. The model does
what the code does; see `ChatPage.GenerateConversationTitle`.

Where the code looks wrong, the services and controllers still do what the code does, and
the corrected behaviour sits beside it as a separate member (see "## Findings"). So
`UsersService.Update` stores a supplied password unhashed, through `ApplyUpdateAsWritten`,
and `UsersController.Update` answers 500 when the caller's own record has gone. The
corrected `ApplyUpdate` and `UpdateResponse` are proved against the intended behaviour.

## Model

| member | source | states |
|---|---|---|
| Auth.RefreshTokenOf | BACKEND/src/auth/auth.service.ts:58-59 | the refresh token is the hex rendering of the random bytes, two characters per byte |
| Auth.RefreshTokenInjective | BACKEND/src/auth/auth.service.ts:58-59 | different random bytes always give different refresh tokens |
| Text.Hex | BACKEND/src/auth/auth.service.ts:59 | `toString('hex')` writes two lower-case hexadecimal digits per byte |
| Text.ParseHexOfHex | BACKEND/src/auth/auth.service.ts:59 | the hex rendering can be read back to the same bytes |
| Text.HexInjective | BACKEND/src/auth/auth.service.ts:59 | two byte strings with the same hex rendering are equal |
| Auth.Saved | BACKEND/src/auth/auth.service.ts:70-85 | after `saveRefreshToken`, the user has exactly one record: the new token, unrevoked, expiring seven days later. Every other user's records are unchanged |
| Auth.SavedKeepsAtMostOne | BACKEND/src/auth/auth.service.ts:70-85 | issuing a refresh token keeps the invariant that no user has two records |
| Auth.DeleteKeepsAtMostOne | BACKEND/src/auth/auth.service.ts:101-104 | deleting a record by its primary key keeps the invariant that no user has two records |
| Auth.Lookup | BACKEND/src/auth/auth.service.ts:91-98 | the lookup finds an unrevoked record with exactly that token, and finds nothing exactly when no such record exists |
| Auth.AfterValidation | BACKEND/src/auth/auth.service.ts:90-107 | validating a token deletes the matching record when it has expired. Every other row stays. In all other cases the table is unchanged |
| Auth.ValidatedUser | BACKEND/src/auth/auth.service.ts:90-107 | validation answers with the owner of a live, unexpired matching record. It answers nothing exactly when there is no match, the match has expired, or the owner is gone |
| Auth.ExpiryBoundary | BACKEND/src/auth/auth.service.ts:101 | `Expired` is `now > expiresAt`: a token is still accepted at the instant it expires and refused, and its record deleted, one millisecond later |
| Auth.RotatedTokenRefused | BACKEND/src/auth/auth.service.ts:70-85 | once a user is issued a new refresh token, the old one no longer validates |
| Auth.SecondRefreshRefused | BACKEND/src/auth/auth.controller.ts:66-76 | a refresh token that was accepted once and then rotated is refused the second time, at any later moment. Assumed: no two records share a token (`DistinctTokens`), and the new token differs from the old |
| Auth.OldTokenDeadAfterRotation | BACKEND/src/auth/auth.service.ts:70-85 | after rotation, the lookup never finds the old token among the user's records; if only the user held it, it finds it nowhere |
| Auth.Revoked | BACKEND/src/auth/auth.service.ts:112-117 | revocation keeps the number of rows, and each row is the old one, flagged when it belongs to the user |
| Auth.RevokedSpec | BACKEND/src/auth/auth.service.ts:112-117 | after revocation every record of the user is revoked, and every other record is unchanged |
| Auth.RevokeIdempotent | BACKEND/src/auth/auth.service.ts:112-117 | revoking twice gives the same table as revoking once |
| Auth.RevokedHasNoLiveToken | BACKEND/src/auth/auth.service.ts:91-98 | after revocation, no token of the user passes validation's lookup |
| Auth.RevokedKeepsCounts | BACKEND/src/auth/auth.service.ts:112-117 | revocation does not change how many records any user has |
| Auth.RevokedKeepsAtMostOne | BACKEND/src/auth/auth.service.ts:112-117 | revocation keeps the invariant that no user has two records |
| Auth.AuthService.constructor | BACKEND/src/auth/auth.service.ts:12-17 | the service starts with an empty token table, bound to the users service |
| Auth.AuthService.ValidateUser | BACKEND/src/auth/auth.service.ts:19-27 | answers the user minus the password exactly when a user has that email and the password matches its digest |
| Auth.AuthService.SaveRefreshToken | BACKEND/src/auth/auth.service.ts:70-85 | the new table is `Saved` of the old one, under the next primary key, and the invariants hold |
| Auth.AuthService.GenerateTokens | BACKEND/src/auth/auth.service.ts:52-65 | the access token signs `{ email, sub }`. The refresh token is a 128-character hex string, and it is saved |
| Auth.AuthService.Login | BACKEND/src/auth/auth.service.ts:29-47 | stamps the last login, issues and saves both tokens, and answers the six public fields |
| Auth.AuthService.ValidateRefreshToken | BACKEND/src/auth/auth.service.ts:90-107 | answers `ValidatedUser`, and the table becomes `AfterValidation` |
| Auth.AuthService.RevokeRefreshTokens | BACKEND/src/auth/auth.service.ts:112-117 | the table becomes `Revoked` of the old table |
| AuthController.SessionCookies | BACKEND/src/auth/auth.controller.ts:34-46 | two cookies, `access_token` (15 minutes) and `refresh_token` (7 days), both http-only, not secure, `lax` |
| AuthController.RefreshCookie | BACKEND/src/auth/auth.controller.ts:57 | the refresh cookie counts only when it is present and not empty |
| AuthController.AuthController.constructor | BACKEND/src/auth/auth.controller.ts:12-15 | binds the controller to the two shared services |
| AuthController.AuthController.Register | BACKEND/src/auth/auth.controller.ts:16-25 | a used email gives 409 and no change. Otherwise 201 with the created user minus the password |
| AuthController.AuthController.Login | BACKEND/src/auth/auth.controller.ts:27-53 | sets both cookies to the issued tokens, stamps the last login, and answers the summary |
| AuthController.AuthController.Refresh | BACKEND/src/auth/auth.controller.ts:55-104 | no cookie gives 401 and no change. An invalid or expired token gives 401. Otherwise the token is rotated, both cookies are set, and 200 is returned with the stored user's six fields |
| AuthController.AuthController.Logout | BACKEND/src/auth/auth.controller.ts:106-126 | always clears both cookies. A valid token also revokes its owner's records |
| AuthController.RefreshTwice | BACKEND/src/auth/auth.controller.ts:55-104 | replaying a refresh cookie that was accepted once gets 401, at any later moment. Assumed: no two records share a token (`DistinctTokens`), and the reissued token differs from the cookie's |
| JwtStrategy.ResolveSecret | BACKEND/src/auth/strategies/jwt.strategy.ts:15 | the secret is the configured one when it is non-empty, and the fallback otherwise |
| JwtStrategy.FromExtractors | BACKEND/src/auth/strategies/jwt.strategy.ts:21-34 | the token is the first truthy extractor result. There is none exactly when every extractor gives a falsy result |
| JwtStrategy.ParseAuthHeader | BACKEND/src/auth/strategies/jwt.strategy.ts:29-33 | the scheme and value parsed from the header are both non-empty words without white space |
| JwtStrategy.ParseAuthHeaderOf | BACKEND/src/auth/strategies/jwt.strategy.ts:29-33 | parsing gives exactly the header's first two words, whatever white space surrounds them |
| JwtStrategy.ParseAuthHeaderNoneIff | BACKEND/src/auth/strategies/jwt.strategy.ts:29-33 | parsing fails exactly when the header has fewer than two words, i.e. no non-space character followed later by white space and later again by a non-space character |
| JwtStrategy.ParsedWordsOfHeader | BACKEND/src/auth/strategies/jwt.strategy.ts:29-33 | when parsing succeeds, the header is white space, the scheme, white space, the value, and then its end or white space: the two results are the header's first two words |
| JwtStrategy.BearerToken | BACKEND/src/auth/strategies/jwt.strategy.ts:29-33 | there is a token exactly when an `Authorization` header parses and its scheme is `bearer` in any case; the token is then the parsed value, one word |
| JwtStrategy.BearerHeaderYieldsToken | BACKEND/src/auth/strategies/jwt.strategy.ts:29-33 | `Bearer <token>` gives the token |
| JwtStrategy.JwtFromRequest | BACKEND/src/auth/strategies/jwt.strategy.ts:21-34 | a non-empty `access_token` cookie is the token. Without one, the token is the bearer header's, or there is none |
| JwtStrategy.CookieWins | BACKEND/src/auth/strategies/jwt.strategy.ts:23-27 | once a non-empty `access_token` cookie is present, changing the headers does not change the token |
| JwtStrategy.Validate | BACKEND/src/auth/strategies/jwt.strategy.ts:40-43 | `req.user` is the payload's `sub` and `email` |
| JwtStrategy.Authenticate | BACKEND/src/auth/strategies/jwt.strategy.ts:21-43 | an authenticated request carries a token that decodes, was signed with the secret and has not expired. Its claims are that token's `sub` and `email` |
| JwtStrategy.NoTokenUnauthenticated | BACKEND/src/auth/strategies/jwt.strategy.ts:21-34 | a request with no non-empty `access_token` cookie and no `Authorization` header of two words is refused |
| JwtStrategy.OtherSchemeUnauthenticated | BACKEND/src/auth/strategies/jwt.strategy.ts:21-34 | without a usable cookie, a header whose scheme is not `bearer` is refused |
| JwtStrategy.ExpiredRejected | BACKEND/src/auth/strategies/jwt.strategy.ts:35 | with `ignoreExpiration: false`, a token is refused once its `exp` second has come |
| JwtStrategy.LoginTokenAuthenticates | BACKEND/src/auth/strategies/jwt.strategy.ts:40-43 | the access token issued at login authenticates as that user |
| Passwords.Hash | BACKEND/src/users/users.service.ts:62 | the stored digest uses 10 salt rounds and matches its own plaintext |
| Passwords.CompareHashIff | BACKEND/src/users/users.service.ts:62 | a digest matches exactly the plaintext it was made from |
| Passwords.CompareRejectsUnhashed | BACKEND/src/users/users.service.ts:121-150 | a value that was stored without hashing matches no password |
| Calendar.CalculateAge | BACKEND/src/users/users.service.ts:87-99 | the age is the number of birthdays passed: the age-th anniversary is on or before today, and the next one is after it |
| Calendar.AgeIsUnique | FRONTEND/src/pages/RegisterPage.tsx:28-39 | the front end's identical age computation has one answer: the number of anniversaries passed |
| Calendar.AdultIffEighteenthBirthdayPassed | BACKEND/src/users/users.service.ts:67 | adulthood (age at least 18) holds exactly when the eighteenth birthday is on or before today |
| Users.StripLosesOnlyPassword | BACKEND/src/users/users.controller.ts:13-20 | removing the password loses nothing else: the user can be rebuilt from the projection and its password |
| Users.NewUser | BACKEND/src/users/users.service.ts:55-83 | a new user has the given id, names, e-mail, birthdate and policy date, a digest that matches the password, role USER, both timestamps `now`, no last login, adulthood from the birthdate, and the supplied content filter unless it is absent or empty, `safe` then |
| Users.ApplyUpdateAsWritten | BACKEND/src/users/users.service.ts:121-150 | `update` as written: the supplied fields win, and a supplied password is stored as given, unhashed. A supplied birthdate recomputes adulthood. The id, role, creation time and last login stay |
| Users.ApplyUpdate | BACKEND/src/users/users.service.ts:121-150 | `update` corrected: the same as written, except that a supplied password is hashed |
| Users.AsWrittenDiffersOnlyInPassword | BACKEND/src/users/users.service.ts:125-132 | the as-written and the corrected update agree on every field but the password |
| Users.AsWrittenPasswordChangeLocksOut | BACKEND/src/users/users.service.ts:125-132 | as written, a password change stores a value that no login attempt matches |
| Users.AppendFreshEmailKeepsDistinct | BACKEND/src/users/users.service.ts:55-83 | `create`'s email check keeps emails unique |
| Users.UpdateCanDuplicateEmail | BACKEND/src/users/users.service.ts:121-150 | `update` does not check emails, so two users can end up sharing one |
| Users.StampLastLogin | BACKEND/src/users/users.service.ts:162-168 | `updateLastLogin` stamps the first user with that id and leaves every other row as it was |
| Users.UsersService.constructor | BACKEND/src/users/users.service.ts:20-52 | the table starts as the default administrator alone |
| Users.UsersService.FindByEmail | BACKEND/src/users/users.service.ts:107-109 | finds the first user with that email; finds none exactly when there is no such user |
| Users.UsersService.FindOne | BACKEND/src/users/users.service.ts:112-114 | finds the first user with that id; finds none exactly when there is no such user |
| Users.UsersService.FindAll | BACKEND/src/users/users.service.ts:116-118 | answers the stored table itself, entities with their digests |
| Users.UsersService.Create | BACKEND/src/users/users.service.ts:55-83 | a used email is a conflict and nothing changes. Otherwise the new user is appended. Email uniqueness is kept |
| Users.UsersService.Update | BACKEND/src/users/users.service.ts:121-150 | an unknown id gives nothing and no change. Otherwise the first user with that id is replaced by `ApplyUpdateAsWritten`, a supplied password stored unhashed, and the other rows stay |
| Users.UsersService.Remove | BACKEND/src/users/users.service.ts:153-159 | an unknown id gives false and no change. Otherwise the first user with that id is spliced out |
| Users.UsersService.UpdateLastLogin | BACKEND/src/users/users.service.ts:162-168 | the table becomes `StampLastLogin` of the old one |
| UsersController.UpdateResponseAsWritten | BACKEND/src/users/users.controller.ts:57-60 | as written, an update answers the user minus the password, and fails when the user is gone |
| UsersController.AsWrittenUpdateOfMissingUserFails500 | BACKEND/src/users/users.controller.ts:57-60 | as written, an update by a caller whose account is gone ends in a 500 |
| UsersController.UpdateResponse | BACKEND/src/users/users.controller.ts:50-61 | corrected: a vanished user gives 404, as in `getProfile` |
| UsersController.UsersController.constructor | BACKEND/src/users/users.controller.ts:8 | binds the controller to the users service |
| UsersController.UsersController.FindAll | BACKEND/src/users/users.controller.ts:13-20 | one entry per stored user, in order. Each is the user minus only its password |
| UsersController.UsersController.FindOne | BACKEND/src/users/users.controller.ts:25-33 | 404 naming the id exactly when no user has it, otherwise that user minus the password |
| UsersController.UsersController.GetProfile | BACKEND/src/users/users.controller.ts:38-45 | the caller's own record minus the password, or 404 "User not found" |
| UsersController.UsersController.Update | BACKEND/src/users/users.controller.ts:50-61 | another user's id gives 404 and no change. A caller whose own record has gone gets 500 and no change. Otherwise the service update applies, as written, and the answer is the updated user minus the password |
| UsersController.UsersController.Remove | BACKEND/src/users/users.controller.ts:66-75 | another user's id gives 404 and no change. Otherwise the row is spliced out and the answer is always the success message |
| Roles.ApplyRoleUpdate | BACKEND/src/roles/roles.service.ts:57-68 | supplied fields win, the id and creation time stay, and the update time is now |
| Roles.RolesService.constructor | BACKEND/src/roles/roles.service.ts:16-31 | the table starts with the USER role and the ADMIN role, in that order |
| Roles.RolesService.Create | BACKEND/src/roles/roles.service.ts:33-43 | appends the role built from the dto |
| Roles.RolesService.FindAll | BACKEND/src/roles/roles.service.ts:45-47 | answers the stored table itself |
| Roles.DefaultRolesAreFound | BACKEND/src/roles/roles.service.ts:16-31 | right after construction, `findByName` finds the USER role "Utilisateur standard" and the ADMIN role "Administrateur", with their given ids and times |
| Roles.RolesService.FindOne | BACKEND/src/roles/roles.service.ts:49-51 | finds a role with that id; finds none exactly when there is no such role |
| Roles.RolesService.FindByName | BACKEND/src/roles/roles.service.ts:53-55 | finds a role with that name; finds none exactly when there is no such role |
| Roles.RolesService.Update | BACKEND/src/roles/roles.service.ts:57-68 | an unknown id gives nothing and no change. Otherwise the first matching role is updated in place |
| Roles.RolesService.Remove | BACKEND/src/roles/roles.service.ts:70-76 | an unknown id gives false and no change. Otherwise the first matching role is spliced out |
| Seqs.FindIndex | BACKEND/src/roles/roles.service.ts:58 | `findIndex` gives the first index whose element matches, or -1 when none does |
| Seqs.Find | BACKEND/src/roles/roles.service.ts:50 | `find` gives the first matching element; gives none exactly when nothing matches |
| Seqs.FilterMembers | FRONTEND/src/pages/Chat.tsx:32 | `filter` keeps exactly the elements that pass the test |
| Seqs.KeptIndices | FRONTEND/src/pages/Chat.tsx:32 | the positions `filter` keeps: the result is the input read at these strictly increasing positions, and they include every position of an element that passes |
| Seqs.FilterInOrder | FRONTEND/src/pages/Chat.tsx:32 | `filter` keeps the passing elements in their order, each occurrence once and no failing one |
| Seqs.RemoveAt | BACKEND/src/roles/roles.service.ts:74 | `splice(i, 1)` drops exactly the element at `i` and keeps the rest in order |
| Chat.MessagesFor | BACKEND/src/chat/chat.service.ts:33-37 | the user's message comes last. The system prompt is first exactly when it is non-empty |
| Chat.BuildMessages | BACKEND/src/chat/chat.service.ts:33-37 | builds the message list `MessagesFor` describes |
| Chat.FirstWords | BACKEND/src/chat/chat.service.ts:122-123 | the title text is a prefix of the message and splits into the message's first six words |
| Chat.ConversationTitle | BACKEND/src/chat/chat.service.ts:118-126 | the title has at most 40 characters. It is "Nouvelle conversation" without a first message, and the words are cut when longer |
| Chat.TitleIsFirstSixWords | BACKEND/src/chat/chat.service.ts:122-123 | a title that is not cut is the prefix of the first message that holds its first six words |
| Chat.History | BACKEND/src/chat/chat.service.ts:73-85 | the history is exactly the user's rows (of the conversation, when one is given), oldest first |
| Chat.HistoryCounts | BACKEND/src/chat/chat.service.ts:73-85 | each matching row appears in the history as often as in the table |
| Chat.FirstMessageIn | BACKEND/src/chat/chat.service.ts:109-115 | there is no first message exactly when the conversation has no rows. Otherwise it is the message of one of its rows with the least time |
| Chat.ChatService.constructor | BACKEND/src/chat/chat.service.ts:12-19 | starts with no rows, bound to the settings service |
| Chat.ChatService.SendMessage | BACKEND/src/chat/chat.service.ts:20-71 | existing settings are used and left as they are; without them one row of default settings is added and used. The model is asked with those settings and messages, and exactly one row with the reply is appended, under the conversation or "default" |
| Chat.ChatService.GetUserChatHistory | BACKEND/src/chat/chat.service.ts:73-85 | answers `History` of the current rows |
| Chat.ChatService.FirstMessage | BACKEND/src/chat/chat.service.ts:109-115 | answers `FirstMessageIn` of the current rows |
| Chat.ChatService.TitleOf | BACKEND/src/chat/chat.service.ts:109-128 | the title made from the conversation's first message, at most 40 characters, and "Nouvelle conversation" for a conversation without rows |
| Chat.ChatService.DeleteConversation | BACKEND/src/chat/chat.service.ts:143-152 | removes exactly that user's rows of that conversation |
| ChatSettings.NewSettings | BACKEND/src/chat/chat-settings.service.ts:14-17 | supplied fields win. Otherwise the column defaults apply (model "openai/gpt-oss-20b", temperature 0.7, max tokens 4096, 0 for the rest) |
| ChatSettings.DefaultSettingsValues | BACKEND/src/chat/entities/chat-settings.entity.ts:9-31 | an empty dto gives exactly the column defaults |
| ChatSettings.ApplyPatch | BACKEND/src/chat/chat-settings.service.ts:39-40 | `Object.assign`: supplied fields win, a `null` system prompt included, and the id, owner and creation time stay |
| ChatSettings.NullClearsSystemPrompt | BACKEND/src/chat/chat-settings.service.ts:33-41 | an update of `"systemPrompt": null` is accepted and removes the prompt, changing nothing else but the update time |
| ChatSettings.EmptyPatchChangesNothing | BACKEND/src/chat/chat-settings.service.ts:39-40 | an empty patch changes only the update time |
| ChatSettings.NewSettingsInRange | BACKEND/src/chat/dto/chat-settings.dto.ts:12-46 | a validated create dto gives settings inside every range |
| ChatSettings.ApplyPatchInRange | BACKEND/src/chat/dto/chat-settings.dto.ts:52-96 | a validated patch keeps settings inside every range |
| ChatSettings.ChatSettingsService.constructor | BACKEND/src/chat/chat-settings.service.ts:8-12 | starts with no rows |
| ChatSettings.ChatSettingsService.Create | BACKEND/src/chat/chat-settings.service.ts:14-17 | appends `NewSettings` of the dto and keeps every row in range |
| ChatSettings.ChatSettingsService.FindByUserId | BACKEND/src/chat/chat-settings.service.ts:19-23 | finds a row of that user; finds none exactly when the user has none |
| ChatSettings.ChatSettingsService.FindOrCreateByUserId | BACKEND/src/chat/chat-settings.service.ts:25-31 | returns the existing row unchanged, or creates the default row. Afterwards the user's row is found |
| ChatSettings.ChatSettingsService.Update | BACKEND/src/chat/chat-settings.service.ts:33-41 | a user without settings gets 404 and no change. Otherwise the first row is patched, and rows stay in range |
| ChatSettings.ChatSettingsService.Delete | BACKEND/src/chat/chat-settings.service.ts:43-48 | deletes exactly the user's rows. It is a 404 with no change exactly when there were none |
| ChatSettings.FindOrCreateTwice | BACKEND/src/chat/chat-settings.service.ts:25-31 | two calls in a row return the same row and add at most one |
| ChatSettingsDto.ValidateUpdate | BACKEND/src/chat/dto/chat-settings.dto.ts:52-96 | a body is accepted exactly when every field is known and is `null` or well typed and in range. Otherwise 400 |
| ChatSettingsDto.NullableStringAt | BACKEND/src/chat/dto/chat-settings.dto.ts:8-10 | the patch tells an absent `systemPrompt` from a `null` one and from a string |
| ChatSettingsDto.NullSystemPromptAccepted | BACKEND/src/chat/dto/chat-settings.dto.ts:58-60 | `"systemPrompt": null` passes `@IsOptional` and is carried as a `null` |
| ChatSettingsDto.ValidateCreate | BACKEND/src/chat/dto/chat-settings.dto.ts:3-50 | as for update, plus a `userId` that must be a uuid; otherwise 400 |
| ChatSettingsDto.NumericFieldAcceptedIff | BACKEND/src/chat/dto/chat-settings.dto.ts:61-95 | one numeric field alone is accepted exactly when it lies in its field's range |
| ChatSettingsDto.AbsentFieldsAccepted | BACKEND/src/chat/dto/chat-settings.dto.ts:48-49 | an empty update body is the empty patch, and an empty create body is refused for lack of `userId` |
| ChatSettingsDto.UnknownPropertyRejected | BACKEND/src/main.ts:20-24 | with `forbidNonWhitelisted`, any property outside the DTO, `userId` included for updates, is refused |
| Images.Gallery | BACKEND/src/images/images.service.ts:25-32 | exactly the user's images, selected fields only, newest first |
| Images.GalleryCounts | BACKEND/src/images/images.service.ts:25-32 | each of the user's images appears in the gallery as often as in the table |
| Images.DeleteByIdRemovesOne | BACKEND/src/images/images.service.ts:42 | with unique keys, deleting by id removes exactly that one row |
| Images.ImagesService.constructor | BACKEND/src/images/images.service.ts:9-12 | starts with no images |
| Images.ImagesService.SaveImage | BACKEND/src/images/images.service.ts:14-23 | appends the image with its fields |
| Images.ImagesService.GetUserImages | BACKEND/src/images/images.service.ts:25-32 | answers `Gallery` of the current table |
| Images.ImagesService.DeleteUserImage | BACKEND/src/images/images.service.ts:34-43 | a missing image, or another user's, is an error with no change. Otherwise no row with that id remains, and with unique keys only that row is removed |
| GenerateImageDto.Validate | BACKEND/src/flux/dto/generate-image.dto.ts:3-23 | a body is accepted exactly when it meets every decorator's rule, and is otherwise a 400. An accepted request has the body's non-empty prompt; an absent size or n is the default (1024x1024, 1), a `null` one is none, and a given one is the body's, a listed size and n from 1 to 10; the theme is the body's string or none |
| GenerateImageDto.DefaultsApply | BACKEND/src/flux/dto/generate-image.dto.ts:12-18 | a body with only a prompt gets size 1024x1024 and one image |
| GenerateImageDto.PromptRequired | BACKEND/src/flux/dto/generate-image.dto.ts:4-6 | a missing or empty prompt is refused |
| GenerateImageDto.CountAcceptedIff | BACKEND/src/flux/dto/generate-image.dto.ts:14-18 | n is accepted exactly when it is an integer from 1 to 10 |
| GenerateImageDto.SizeAcceptedIff | BACKEND/src/flux/dto/generate-image.dto.ts:8-12 | a size is accepted exactly when it is one of the three listed |
| Flux.HandleError | BACKEND/src/flux/flux.service.ts:135-177 | upstream 401, 404 and 429, and only they, map to the same statuses, with the invalid-key, not-found and rate-limit messages. Anything else with a response is 500 carrying the detail. No response is 500 with the generic message |
| Text.Trim | FRONTEND/src/pages/Chat.tsx:32 | `trim()` leaves no white space at either end |
| Text.TrimEmptyIffAllSpace | FRONTEND/src/pages/Chat.tsx:32 | a string trims to nothing exactly when it is all white space |
| Text.Split | FRONTEND/src/pages/Chat.tsx:32 | `split` with a non-empty separator always gives at least one piece |
| Text.JoinSplit | FRONTEND/src/pages/Chat.tsx:192-193 | joining the pieces of a split with the same separator gives back the string |
| Text.SplitJoin | FRONTEND/src/pages/Chat.tsx:192-193 | splitting a join of pieces that avoid the separator gives back the pieces |
| Text.SplitJoinSeparated | FRONTEND/src/pages/Chat.tsx:32 | splitting a join of non-empty pieces that never run into the separator gives back the pieces, for separators of any length |
| Text.JoinWithin | FRONTEND/src/pages/Chat.tsx:32 | a join of pieces made of some kind of character, with a separator of that kind, is made of it too |
| Text.NatToString | FRONTEND/src/pages/Chat.tsx:49 | the rendering of a key is a non-empty run of digits with no leading zero |
| Text.DecimalValueOfNatToString | FRONTEND/src/pages/Chat.tsx:49 | the digits read back as the key: the rendering is the decimal numeral of the number |
| Sorting.SortBy | BACKEND/src/chat/chat.service.ts:78 | the result is ordered by the key and is a permutation of the input |
| ChatPage.ListItemText | FRONTEND/src/pages/Chat.tsx:42-45 | the trimmed line matches exactly when it has a marker, one white-space character and a non-empty rest without line terminators. The item text is that rest |
| ChatPage.ListItem | FRONTEND/src/pages/Chat.tsx:41-47 | a marked line gives its text as an item. Another non-empty line is kept raw. Only an empty line gives nothing |
| ChatPage.ListItems | FRONTEND/src/pages/Chat.tsx:41-47 | the items are `ListItem` of the paragraph's non-empty lines, in order, and none of them is empty |
| ChatPage.ItemsOfNonEmptyLines | FRONTEND/src/pages/Chat.tsx:41-47 | dropping empty items after mapping is dropping empty lines before it |
| ChatPage.Block | FRONTEND/src/pages/Chat.tsx:34-59 | the `<ul>` or `<p>` rendering of one paragraph; `ListBlockOf` and `ParagraphBlockOf` state what it gives for a paragraph built from its lines |
| ChatPage.ListBlockOf | FRONTEND/src/pages/Chat.tsx:36-49 | a paragraph of lines `- item` renders as `<ul key=i>` whose `<li>` bodies are the items, the markers stripped, in order |
| ChatPage.ParagraphBlockOf | FRONTEND/src/pages/Chat.tsx:50-58 | a paragraph of running-text lines renders as `<p key=i>` of those lines joined by `<br>` |
| ChatPage.Paragraphs | FRONTEND/src/pages/Chat.tsx:32 | the paragraphs are exactly the non-blank pieces of the `\n\n` split |
| ChatPage.ParagraphsInOrder | FRONTEND/src/pages/Chat.tsx:32 | the paragraphs are the pieces read at strictly increasing positions that include every non-blank piece: order and repetitions are kept |
| ChatPage.Blocks | FRONTEND/src/pages/Chat.tsx:34-60 | one block per paragraph, numbered from 0 in order; `ParagraphsRender` states what this gives for a reply built from its paragraphs |
| ChatPage.FormatResponse | FRONTEND/src/pages/Chat.tsx:30-61 | the rendering is empty exactly when the reply is all white space |
| ChatPage.BlankIffNoParagraphs | FRONTEND/src/pages/Chat.tsx:32 | a reply has no paragraph exactly when it is all white space |
| ChatPage.ParagraphsRender | FRONTEND/src/pages/Chat.tsx:30-61 | non-blank paragraphs without blank lines, joined by blank lines, come back as those paragraphs, and the reply renders as their blocks numbered 0, 1, … in order |
| ChatPage.MarkedLineExample | FRONTEND/src/pages/Chat.tsx:42-44 | `- pain` becomes `<li>pain</li>` |
| ChatPage.BlankListLineExample | FRONTEND/src/pages/Chat.tsx:46 | a line of spaces in a list is kept as an item of spaces |
| ChatPage.BareMarkerExample | FRONTEND/src/pages/Chat.tsx:42-46 | a lone `-` does not match and is kept raw |
| ChatPage.MiddleWords | FRONTEND/src/pages/Chat.tsx:192-193 | with at most ten words the text is empty. Otherwise it splits into exactly words 10 to 19 of the message |
| ChatPage.GenerateConversationTitle | FRONTEND/src/pages/Chat.tsx:187-200 | the title is never empty and has at most 100 characters. No messages gives "Nouvelle conversation". Empty words 10 to 19 of the first message, as with ten words or fewer, give "Conversation". Those words are the title when they fit in 100 characters; a longer text is cut to 90 plus "..." |
| ChatPage.TitleIsMiddleWords | FRONTEND/src/pages/Chat.tsx:190-199 | a title that is not cut holds exactly words 10 to 19 of the first message |
| ChatPage.GroupConversationsByDate | FRONTEND/src/pages/Chat.tsx:202-233 | each group is the newest-first sort of the conversations whose day falls in it, and together the groups hold every conversation exactly once |
| ChatPage.SortedIsNewestFirst | FRONTEND/src/pages/Chat.tsx:228-230 | sorting by the negated time puts the most recent first |
| ChatPage.GroupStep | FRONTEND/src/pages/Chat.tsx:214-225 | each conversation is pushed onto its own group's list and no other |
| ChatPage.GroupsPartition | FRONTEND/src/pages/Chat.tsx:219-224 | the three branches split the conversations: every one lands in exactly one group |
| RegisterPage.Submit | FRONTEND/src/pages/RegisterPage.tsx:41-89 | each message is shown exactly when its check is the first one to fail. The form is sent exactly when all checks pass, with the current time as the policy acceptance |
| RegisterPage.SentFormIsConfirmed | FRONTEND/src/pages/RegisterPage.tsx:52-60 | a sent form has a confirmation equal to a password of at least eight characters |
| RegisterPage.UnparsableBirthdatePassesAgeCheck | FRONTEND/src/pages/RegisterPage.tsx:62-66 | a birth date that is not a date gives no age, and the age check lets it through |
| RegisterPage.SentFormIsAdult | FRONTEND/src/pages/RegisterPage.tsx:62-66 | a sent form with a real birth date belongs to someone whose eighteenth birthday has passed |

## Left out

- The HTTP layer, TypeORM, the Azure and OpenAI-compatible HTTP clients and the logger are
  not modelled. Repository calls are operations on `seq` tables. Model completions and image
  generation are parameters.
- The passport local strategy, the guards and the Nest module wiring are not part of this
  model.
- Concurrency is not modelled. Each service method runs alone on its table.
- Users.UsersService.constructor: the table starts as the administrator alone. The source's
  constructor starts `initializeDefaultAdmin()` without awaiting it, and the push happens only
  after `bcrypt.hash` resolves, so for a moment the table is empty. That window is not modelled.
- Users.ApplyUpdateAsWritten: a JSON `null` in a user update is not modelled. `UpdateUserDto`
  fields are `None` or a value. In the source, `@IsOptional` lets `null` through on every field.
  The `...otherFields` spread then stores it as given, e.g. `{"userName": null}` stores a `null`
  name. `{"usersPassword": null}` stores a `null` password, and every later login then fails with
  500, because `bcrypt.compare` throws. A `null` birthdate or policy date is skipped by the
  truthiness checks, as an absent one is.
- `new Date(...)` parsing, time zones and daylight saving are not modelled. Refresh expiry
  adds seven days as a fixed 604 800 000 ms. A birth date is given already parsed. The
  local day of a time is the `localDay` parameter.
- String lengths are counted in characters, not UTF-16 code units.
- JSON `null` passes `@IsOptional` on every optional DTO field. For `systemPrompt` the model
  carries the `null` through, and an update stores it, clearing the prompt. For the other settings
  fields, and for `size`, `n` and `theme` of an image request, a `null` is kept as "no value":
  the settings patch then leaves the stored value alone, whereas `Object.assign` would copy the
  `null` onto a non-nullable column and the save would fail. That database error is not modelled.
  For the user update, see the Users.ApplyUpdateAsWritten line above.
- The validation messages are reduced to the status 400 "Bad Request".
- The `decimal(3,2)` rounding of the settings columns and the integer column for max tokens
  are not modelled. The values are kept as given.
- `getUserConversations`'s SQL grouping and aggregation are not modelled. Only the title
  helper it uses is.
- The image and flux controllers, and upload of the generated image, are not part of this
  model.
- Sorting.SortBy: ordered and a permutation of its input. The stability that
  `Array.prototype.sort` and the insertion sort both have is not proved.
- Chat.History: oldest first and exactly the matching rows. The order of rows with equal
  timestamps is not stated, and neither is the order SQL gives them.
- ChatPage.GroupConversationsByDate: rests on the `localDay` parameter, so the browser's
  local time and daylight saving days are not modelled. An invalid date, which the browser
  puts in the oldest group, is not modelled either.
- Auth.AfterValidation: states which rows remain, but not their order or count.
- JwtStrategy.ParseAuthHeader: the library's `(\S+)\s+(\S+)` match is modelled word by word.
  The scheme comparison lowercases ASCII letters only.
- Auth.SecondRefreshRefused and AuthController.RefreshTwice: `DistinctTokens` and a
  reissued token that differs from the old one are assumptions, not invariants. Tokens are
  64 random bytes, so a repeat is only improbable; no invariant of the model keeps tokens
  distinct.
- JwtStrategy.Authenticate: the token's signature and expiry come from the `decode`
  parameter. The jsonwebtoken library itself is not modelled.

## Findings

| source | as written | input that shows it | evidently intended | confidence | as-written member | corrected member |
|---|---|---|---|---|---|---|
| BACKEND/src/users/users.service.ts:125-132 | `update` spreads the supplied fields into the user, so a new `usersPassword` is stored as plain text | `update(id, { usersPassword: "secret123" })`: afterwards `bcrypt.compare("secret123", stored)` is false, so the user can no longer log in | hash a supplied password, as `create` does | not executed | Users.AsWrittenPasswordChangeLocksOut | Users.ApplyUpdate |
| BACKEND/src/users/users.controller.ts:57-60 | `update` destructures the service's result, which is `undefined` when the caller's own record has gone | a caller whose account was deleted sends `PATCH /users/<own id>`, and the server answers 500 | answer 404 "User not found", as `getProfile` does | not executed | UsersController.AsWrittenUpdateOfMissingUserFails500 | UsersController.UpdateResponse |
