# Passkey login back end of `blog-api`, modelled in Dafny

This project models the passkey (WebAuthn) login back end of the `blog-api`
package and proves properties of the model.

- **Identities.** The user ID is a version-4 UUID; the user name is 1 to 10
  ASCII letters. Both are checked by regular expressions through Effect
  Schema.
- **Single-table store.** User items and credential items live in one
  DynamoDB table, keyed by `(userID, ID)`, with a global secondary index on
  `userName`.
- **Ceremonies.** Five workflows: check session, generate registration
  options, verify registration, generate authentication options and verify
  authentication.
- **Route layer.** An HTTP layer over a cookie session. It maps each
  workflow's error union to a status code and decides what to write into
  the session.

State that the source changes is modelled as objects with fields:

- the table is `UserRepository.UserTable` (`items`), and `createUser` is its
  method `CreateUser`;
- the session is the field `session` of `Route.App`, whose methods are the
  six endpoints.

Code that only computes is modelled as functions: the validators, the
repository reads and four of the workflows. Each function's contract relates
its result to its inputs, including every error path.

The parts are proved against independent reference definitions:

- The regex semantics (`Pattern`) is proved equivalent to a positional
  description of a UUID and of a user name.
- Base64 (RFC 4648) encoding and decoding are proved inverse, in both the
  section 4 and section 5 alphabets.
- UTF-8 encoding of a user ID is proved to decode back to it.
- The repositories' reads are proved to find what `createUser` wrote.

Cross-step properties are proved as lemmas in `Scenarios`:

- a registered name is then taken;
- a registered user is then logged in;
- a registered credential authenticates as its own user and no other.

Collaborators that the code calls but that are not modelled become
parameters:

- the DynamoDB client's failures (`fails`/`dbFails`);
- the clock (`now`);
- `crypto.randomUUID()` (`uuid`);
- the request body (`None` when `c.req.json()` rejects);
- the four `@simplewebauthn/server` functions, as function values over the
  exact argument records the code builds.

What the model assumes about the library takes the form of named predicates
in lemma preconditions: `EchoesUserName`, `BindsRegistrationChallenge` and
`BindsAuthenticationChallenge`.

Behaviours of the code a reader may not expect:

- **Duplicate registration is not reported as such.** A cancelled
  `createUser` transaction is a `DataBaseUnknownError` like any other client
  failure. The route answers it with 500.
- **Name uniqueness is not enforced by the store.** The transaction's
  conditions are on the two keys only. Two registrations of one name under
  different user IDs can both commit, because each `generate-registration-options`
  lookup ran before either commit. After that, every lookup of the name fails
  with `invalidUserDataUser` (`UserRepository.DuplicateNameAfterTwoCreates`).
  A second registration under the same user ID is refused
  (`UserRepository.SecondCreateForSameUserRefused`).
- **Login ignores the library's `verified` flag.** Verify-registration and
  verify-authentication mark the session logged in whenever the library
  resolves, whatever its `verified` flag says. The model states this in the
  contracts of `Route.App.VerifyRegistration` and
  `Route.App.VerifyAuthentication`.
- **The signature counter is never written back.**
  `Route.App.VerifyAuthentication` does not modify the table. The challenge
  stays in the session after authentication.
- **A user item can be read as a credential.** Both kinds of item share the
  key space of one partition. An assertion whose credential ID equals the
  user handle's user ID makes `getAuthenticatorDevice` return the user item
  as a device without a public key, counter or transports. The request then
  reaches the library instead of failing as an unknown credential
  (`AuthenticatorRepository.UserItemReadAsDevice`).

## Model

| member | source | states |
|---|---|---|
| User.UserIDCharacterisation | packages/blog-api/src/domain/models/user.ts:3-4 | the case-insensitive UUID pattern accepts exactly the 36-character strings of five hex groups 8-4-4-4-12 with version nibble 4 and variant nibble 8, 9, a or b (either case) |
| User.UserNameCharacterisation | packages/blog-api/src/domain/models/user.ts:10-12 | the user-name pattern accepts exactly the strings of 1 to 10 ASCII letters |
| User.DecodeUserID | packages/blog-api/src/domain/models/user.ts:14-15 | decoding an unknown value succeeds exactly when it is a string in UUID v4 form, returns that string, and otherwise fails with a ParseError |
| User.DecodeUserName | packages/blog-api/src/domain/models/user.ts:16-17 | decoding succeeds exactly for a string of 1 to 10 ASCII letters, returns it, otherwise fails with a ParseError |
| User.UserIDLayout | packages/blog-api/src/domain/models/user.ts:3-4 | every accepted user ID has length 36, dashes at 8, 13, 18 and 23 and the version digit 4 at 14 |
| User.IdentifiersDisjoint | packages/blog-api/src/domain/models/user.ts:3-12 | no string is both a valid user ID and a valid user name |
| User.UserIDIsAscii | packages/blog-api/src/domain/models/user.ts:3-4 | every accepted user ID is pure ASCII |
| Base64.EncodeWith | packages/blog-api/src/repos/user-repository.ts:121-123 | the encoding has 4 characters per started 3 bytes when padded and ceil(4n/3) unpadded, and is empty only for no bytes |
| Base64.Encode | packages/blog-api/src/repos/user-repository.ts:121-123 | `toString('base64')` yields a padded encoding of length 4·ceil(n/3) |
| Base64.EncodeUrl | packages/blog-api/src/domain/workflows/auth/verify-authentication-workflow.ts:43-45 | the unpadded URL-safe encoding has length ceil(4n/3) |
| Base64.Decode | packages/blog-api/src/repos/authenticator-repository.ts:38 | a decoded string yields at most three bytes per started group of four characters and at least three per full group less two, nothing exactly for the empty string, never a lone last character, and only characters of the two alphabets besides padding in the last two places; the same decoder reads the user handle at verify-authentication-workflow.ts:44 |
| Base64.RfcVectors | packages/blog-api/src/repos/user-repository.ts:121-123 | the encoder yields the test vectors of section 10 of RFC 4648, and `-` and `_` in place of `+` and `/` in the URL-safe alphabet |
| Base64.DecodeEncode | packages/blog-api/src/repos/authenticator-repository.ts:37-39 | decoding undoes encoding for every byte sequence, in either alphabet |
| Utf8.EncodeChar | packages/blog-api/src/domain/workflows/auth/generate-registration-options-workflow.ts:38 | a code point encodes to 1 to 4 bytes: a single byte equal to the code exactly when it is below 128, otherwise bytes that are all 128 or more |
| Utf8.Encode | packages/blog-api/src/domain/workflows/auth/generate-registration-options-workflow.ts:38 | an ASCII string encodes to one byte per character, equal to the character's code |
| Utf8.Decode | packages/blog-api/src/domain/workflows/auth/verify-authentication-workflow.ts:44 | one character per byte, and the result is ASCII exactly when every byte is below 128 |
| Utf8.DecodeEncodeAscii | packages/blog-api/src/domain/workflows/auth/verify-authentication-workflow.ts:44 | decoding the UTF-8 encoding of an ASCII string gives the string back |
| UserRepository.GetUserIDByUserName | packages/blog-api/src/repos/user-repository.ts:14-47 | a client failure is a DataBaseUnknownError; no indexed item means no user; exactly one item yields its userID when that is a valid UUID; more than one is the `invalidUserDataUser` error |
| UserRepository.GetUser | packages/blog-api/src/repos/user-repository.ts:49-86 | reads exactly the item keyed (userID, userID): absent means none, present succeeds exactly when its userID and userName validate and returns them; every error is a DataBaseUnknownError |
| UserRepository.WithNewUser | packages/blog-api/src/repos/user-repository.ts:97-134 | a committed createUser adds exactly the keys of the user item and the credential item, stores those two items under them, leaves every other item unchanged, and preserves that items carry their own keys |
| UserRepository.UserTable.CreateUser | packages/blog-api/src/repos/user-repository.ts:88-141 | the transaction commits exactly when the client does not fail, the credential ID is not empty, and both keys are absent and distinct; on commit the table is WithNewUser of the old one, otherwise unchanged with a DataBaseUnknownError |
| UserRepository.NameLookupYieldsOwner | packages/blog-api/src/repos/user-repository.ts:31-41 | in a table whose items carry their own keys, a name held by one item with a valid partition key yields that key's user ID |
| UserRepository.GetUserAfterCreate | packages/blog-api/src/repos/user-repository.ts:104-110 | after a committed createUser, getUser finds the new user's ID and name |
| UserRepository.NameLookupAfterCreate | packages/blog-api/src/repos/user-repository.ts:14-47 | after a committed createUser for an unused name, the name index yields the new user ID |
| UserRepository.CreatedTogether | packages/blog-api/src/repos/user-repository.ts:98-127 | both new items carry createdAt = updatedAt = the same time, and the counter starts at 0 |
| UserRepository.SecondCreateForSameUserRefused | packages/blog-api/src/repos/user-repository.ts:111-112 | a second createUser under a user ID already committed cannot commit |
| UserRepository.DuplicateNameAfterTwoCreates | packages/blog-api/src/repos/user-repository.ts:111-130 | two registrations of one name under different user IDs, each of which could commit on the table both name lookups saw, both commit one after the other, and afterwards the name lookup fails with `invalidUserDataUser` |
| AuthenticatorRepository.DecodePublicKey | packages/blog-api/src/repos/authenticator-repository.ts:37-39 | a falsy stored key gives no key, a string is base64-decoded, a truthy non-string fails; failures are DataBaseUnknownErrors |
| AuthenticatorRepository.GetAuthenticatorDevice | packages/blog-api/src/repos/authenticator-repository.ts:8-46 | reads exactly the item keyed (userID, credentialID): absent means none; present yields its ID, decoded key, counter and transports as stored; every error is a DataBaseUnknownError |
| AuthenticatorRepository.StoredKeyRoundTrip | packages/blog-api/src/repos/authenticator-repository.ts:37-39 | a public key stored base64-encoded reads back as the same key, except that an empty key reads back as absent |
| AuthenticatorRepository.UserItemReadAsDevice | packages/blog-api/src/repos/authenticator-repository.ts:21-42 | asked for a credential ID equal to the user ID, the lookup returns the user item as a device with that ID and no key, counter or transports |
| AuthenticatorRepository.DeviceAfterCreate | packages/blog-api/src/repos/authenticator-repository.ts:21-42 | after a committed createUser, the credential is found with its ID, public key, transports and counter 0 |
| CheckSessionFlow.CheckUserWorkflow | packages/blog-api/src/domain/workflows/auth/check-session-workflow.ts:9-32 | succeeds exactly when getUser finds the user, with isLoggedIn true and its name; a missing user is NotFoundUserError; lookup errors pass through |
| RegistrationOptionsFlow.GenerateRegistrationOptionsWorkflow | packages/blog-api/src/domain/workflows/auth/generate-registration-options-workflow.ts:15-57 | a taken name is UserAlreadyExistsError, independent of the UUID and the library; lookup errors pass through; an invalid UUID is a ParseError; otherwise it succeeds exactly when the library accepts the request, returning the new ID and the library's options, and a library failure is WorkflowUnknownError |
| RegistrationOptionsFlow.RegistrationRequest | packages/blog-api/src/domain/workflows/auth/generate-registration-options-workflow.ts:33-47 | the library is asked for resident key and user verification required, no attestation, no exclusions, a 60000 ms timeout, ES256 and RS256, and the name as both name and display name |
| RegistrationOptionsFlow.UserHandleRoundTrip | packages/blog-api/src/domain/workflows/auth/generate-registration-options-workflow.ts:38 | the user handle in the request decodes back to the new user ID |
| RegistrationOptionsFlow.OptionsForRequestedName | packages/blog-api/src/domain/workflows/auth/generate-registration-options-workflow.ts:36 | with a library that echoes the user name, the options returned carry the requested name |
| VerifyRegistrationFlow.VerifyRegistrationAttempt | packages/blog-api/src/domain/workflows/auth/verify-registration-workflow.ts:12-47 | a library rejection is WorkflowUnknownError; an accepted response succeeds exactly when it has a non-empty credential ID, a public key and transports, and the result carries those, the user, and the verified flag |
| VerifyRegistrationFlow.VerifyRegistrationOptionsWorkflow | packages/blog-api/src/domain/workflows/auth/verify-registration-workflow.ts:49-81 | nothing is stored unless the attempt succeeds; then it succeeds exactly when createUser commits, storing WithNewUser and returning the verified flag and the user ID; a refused transaction after a successful attempt is DataBaseUnknownError; on failure the table is unchanged |
| VerifyRegistrationFlow.TamperedChallengeRefused | packages/blog-api/src/domain/workflows/auth/verify-registration-workflow.ts:21-27 | with a challenge-binding library, a response over another challenge than the session's fails |
| VerifyAuthenticationFlow.DecodeUserHandle | packages/blog-api/src/domain/workflows/auth/verify-authentication-workflow.ts:41-49 | succeeds exactly when the handle is base64 whose decoded text is a UUID v4, returning that text; every failure is a WorkflowUnknownError |
| VerifyAuthenticationFlow.EncodedHandleDecodes | packages/blog-api/src/domain/workflows/auth/verify-authentication-workflow.ts:43-46 | the base64 (either alphabet) of a user ID's UTF-8 bytes decodes to that user ID |
| VerifyAuthenticationFlow.VerifyAuthenticationWorkflow | packages/blog-api/src/domain/workflows/auth/verify-authentication-workflow.ts:18-88 | a missing handle, a bad handle, a lookup error, an unknown credential (AuthenticatorNotFoundError) and a library rejection each fail as in the code; otherwise the result is the handle's user and the library's verified flag |
| VerifyAuthenticationFlow.UnknownCredentialRefused | packages/blog-api/src/domain/workflows/auth/verify-authentication-workflow.ts:53-69 | a credential unknown under the handle's user fails with AuthenticatorNotFoundError for any verifier |
| VerifyAuthenticationFlow.TamperedChallengeRefused | packages/blog-api/src/domain/workflows/auth/verify-authentication-workflow.ts:70-83 | with a challenge-binding library, an assertion over another challenge fails |
| AuthenticationOptionsFlow.GenerateAuthenticationOptionsWorkflow | packages/blog-api/src/domain/workflows/auth/generate-authentication-options-workflow.ts:9-22 | the library is asked for a 60000 ms timeout, user verification preferred and the configured RP ID; its rejection is WorkflowUnknownError |
| Route.DecodeLoggedInSession | packages/blog-api/src/route.ts:86-99 | the session is logged in exactly when its userID is a valid UUID and isLoggedIn is true; otherwise a ParseError |
| Route.DecodeRegistrationOptionsBody | packages/blog-api/src/route.ts:133-145 | the body is accepted exactly when it is an object whose userName is 1 to 10 letters; the ParseError path names userName for an object |
| Route.SessionFailure | packages/blog-api/src/route.ts:106-117 | a parse error is 200 and a missing user 400, both with the "not logged in" body; only a database error is 500, with the internal-server-error body |
| Route.InvalidBodyFields | packages/blog-api/src/route.ts:169-174 | a refused registration-options body is reported at field `userName` when it is an object and without a field otherwise |
| Route.RegistrationOptionsFailure | packages/blog-api/src/route.ts:167-187 | validation errors and a taken name are 400 with their own codes; the opaque errors are 500 |
| Route.AuthenticationFailure | packages/blog-api/src/route.ts:295-306 | only an unknown credential is 400 InvalidRequest; every other error is 500 |
| Route.App.CheckSession | packages/blog-api/src/route.ts:85-123 | a session not logged in answers 200 not logged in; otherwise 200 with the user's name, 400 if the user is gone, 500 on a database error |
| Route.App.Logout | packages/blog-api/src/route.ts:125-130 | the session is emptied and the answer is 200 success |
| Route.App.GenerateRegistrationOptions | packages/blog-api/src/route.ts:132-193 | on success the session gains userID, challenge and userName from the options and the answer is 200 with the options; on every failure the session is unchanged and the answer is the mapped error |
| Route.App.VerifyRegistration | packages/blog-api/src/route.ts:195-241 | the answer is 200 exactly when the body parses, the session's userID and userName validate, the attempt succeeds and the transaction commits; then the user is stored, the challenge cleared and the session logged in; every failure is 500 and changes nothing |
| Route.App.GenerateAuthenticationOptions | packages/blog-api/src/route.ts:243-268 | on success only the session's challenge changes; on failure 500 and nothing changes |
| Route.App.VerifyAuthentication | packages/blog-api/src/route.ts:270-312 | on success the session is logged in as the handle's user and keeps its challenge, the table is not written; failures map through AuthenticationFailure |
| Scenarios.RegisteredUserIsKnown | packages/blog-api/src/domain/workflows/auth/check-session-workflow.ts:20-31 | after a committed registration the session check reports the user logged in with the registered name |
| Scenarios.NameTakenAfterRegistration | packages/blog-api/src/domain/workflows/auth/generate-registration-options-workflow.ts:22-28 | after a committed registration of a fresh name, asking for options for that name is UserAlreadyExistsError |
| Scenarios.RegisteredCredentialAuthenticates | packages/blog-api/src/domain/workflows/auth/verify-authentication-workflow.ts:33-88 | an assertion with the registered credential ID and the user handle the registration requested reaches the library with the stored device, and logs in the registered user exactly when the library accepts it |
| Scenarios.CredentialBoundToItsUser | packages/blog-api/src/domain/workflows/auth/verify-authentication-workflow.ts:53-69 | a registered credential presented under another user's handle fails as an unknown credential |
| Scenarios.EmptySessionNotLoggedIn | packages/blog-api/src/route.ts:86-99 | an empty session fails the logged-in schema at its userID |
| Scenarios.LogoutThenCheck | packages/blog-api/src/route.ts:125-130 | after logging out, the session check answers 200 not logged in |
| Scenarios.RegistrationLogsIn | packages/blog-api/src/route.ts:217-223 | after a successful verify-registration, the session check answers 200 logged in with the session's user name |

## Left out

- Base64.Decode: accepts only well-formed input in either alphabet of RFC 4648, padding optional. Node's `Buffer.from(s, 'base64')` also skips whitespace and characters outside the alphabet, where the model refuses such input (`None`).
- AuthenticatorRepository.DecodePublicKey: a stored key that is not well-formed base64, or a truthy non-string, is a DataBaseUnknownError here. Node would decode the first leniently and, for some non-strings, build a buffer.
- VerifyAuthenticationFlow.DecodeUserHandle: inherits the base64 restriction. A handle carrying whitespace or stray characters is refused here but may decode to a valid user ID in Node.
- Utf8.Decode: maps every byte of 128 or more to U+FFFD instead of decoding multi-byte sequences. Any non-ASCII result fails the user ID check either way, so no outcome of the model depends on it.
- UserRepository.NewUser: `credentialID`, `credentialPublicKey` and `transports` are optional in `createUser`'s parameters but required here. Its only caller always supplies them.
- UserRepository.GetUserIDByUserName: the index query is one unpaginated read of all matching items. DynamoDB's 1 MB result page and eventual consistency of the global secondary index are not modelled.
- Route.App.GenerateRegistrationOptions: the `if (session)` guard is not modelled, because the session middleware always installs a session.
- Route.App.VerifyRegistration and Route.App.VerifyAuthentication: the request body is taken as an already well-typed response record, with `None` when it is not JSON. The code's unchecked casts of the body and of the session fields are not modelled.
- The cryptography of `@simplewebauthn/server`: attestation and assertion parsing, signatures, origin and RP ID checks and challenge generation. It is reduced to function parameters and the named assumption predicates.
- The payloads of `DataBaseUnknownError` and `WorkflowUnknownError` (`error: unknown`) are kept only as an abstract cause. Their exact contents are never observable in responses.
- Concurrency: each handler runs as one atomic step. Interleavings are modelled by sequencing steps, as in UserRepository.DuplicateNameAfterTwoCreates.
- Cookie encryption and the 48-hour expiry are not modelled, and neither are CORS, logging, the metadata middleware, configuration loading from the environment, or the Lambda adapter. They are I/O and platform configuration outside the authentication logic.
