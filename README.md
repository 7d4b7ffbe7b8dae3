# Auth skeleton (NestJS + React): refresh-token sessions, users and ideas, in Dafny

This project models the authentication core of a NestJS back end, the user and idea stores beside it, and one formatter from its React front end.

## The back end's session lifecycle

Each user row carries one nullable column, `hashedRefreshToken`:

- signup, login and refresh overwrite it with the bcrypt digest of a newly issued refresh token;
- logout sets it to NULL;
- the refresh route accepts a `refresh_token` cookie only when the cookie matches that digest.

Three Passport strategies gate the routes:

- a password gate (`LocalStrategy`);
- an access-token gate, which reads a Bearer header (`JwtStrategy`);
- a refresh-cookie gate (`RefreshStrategy`).

`AuthController` puts one gate in front of each route.

## How it is modelled

- **Tables.** The database is a class `Db.Database` holding the users table and the ideas table as sequences in insertion order. A TypeORM `findOneBy` is a first-match lookup.
- **Constraints.** The schema's constraints are the invariant `Database.Valid()`:
  - unique ids;
  - unique emails;
  - unique (creator, name) pairs;
  - name length;
  - duplicate-free follower lists;
  - foreign keys.
- **Services.** The services (`Auth.AuthService`, `Users.UsersService`, `Ideas.IdeasService`) and the controller are classes whose methods modify that database. Each method states the whole new state and the reply.
- **Gates and lookups.** The strategies and the read-only lookups are functions of the tables.
- **Cookie effects.** A method returns what it does to the refresh cookie as a `CookieEffect`.
- **Inputs from outside.** The clock, generated ids and bcrypt salts are parameters.

Cryptography is abstract except where its details change what the program does:

- **bcrypt** (`Bcrypt`). A digest records the value it was made from. `bcrypt.compare` is modelled as bcrypt computes it: Node hands the string over as UTF-8 (`Utf8`; for well-formed strings, those of Unicode scalar values only, decoding is proved to undo encoding), and bcrypt's key schedule reads 72 key bytes (`Bcrypt.Key`): the first 72 bytes of a longer input, or a shorter input followed by its terminating NUL and repeated until 72 bytes are filled. Well-formed passwords of 72 bytes or fewer without U+0000 therefore match exactly; longer ones match on their first 72 bytes.
- **Signed tokens** (`Crypto`). A token is a datatype `Jwt(sub, iat, exp, key)`. Verification checks, in order, the structure, the key (standing for the HMAC) and expiry.
- **Wire format** (`JwtWire`). This models the real text of a token: base64url of the header JSON and of the payload JSON's UTF-8 bytes, with decoding proved to undo encoding. `JwtWire.TokenKey` is what bcrypt reads of a token: the 36-symbol header segment, the dot, and 35 symbols covering `{"sub":"` and the first 19 bytes of the subject.
- **Refresh comparison** (`RefreshStrategy.TokenCheck`). The refresh gate is parametrised by the comparison it applies to the cookie's token:
  - `Bcrypt72` is the program's `bcrypt.compare` on the first 72 bytes;
  - `WholeToken` compares the whole token, which is the evidently intended check (see Findings).
  - The controller is built with one of them and states what follows under each.

## What the proofs establish

- **Sessions as written** (`Session`, check `Bcrypt72`):
  - rotation does not revoke. After a refresh stores the digest of a new token, every earlier unexpired token of the same user still passes the refresh gate (`RotationKeepsEarlierToken`, for ids of 19 characters or more; uuids have 36);
  - concretely, two different tokens of one user, issued a minute apart, both pass the gate a minute later (`StaleRefreshTokenAccepted`).
- **Sessions under the whole-token check** (`WholeToken`):
  - after a rotation, any other token naming the user is refused by the refresh gate (`RotationRevokesEarlierToken`);
  - at most one refresh token per user is trusted at any moment (`AtMostOneTrustedToken`).
- **Sessions under either check:**
  - after logout, every token naming the user is refused;
  - a freshly issued token is accepted for exactly its lifetime;
  - access and refresh tokens are not accepted at each other's gate when the two secrets differ (`TokenKindsDoNotCross`). The program reads the two secrets from separate variables but never checks that they differ; with equal secrets a refresh token verifies at the access gate like an access token.
- **Passwords.** After signup, the password gate accepts for that email exactly the passwords whose bcrypt key is that of the stored one. Both well-formed, at 72 bytes or fewer and free of U+0000, that is exactly the signup password (`SignupThenValidate`). A login password that repeats the signup password after a U+0000 is accepted too (`NulSuffixedPasswordAccepted`). Two different 19-character passwords that signup admits collide (`LongPasswordsCollide`).
- **Ideas.** Follow and unfollow keep follower lists duplicate-free. Unfollow keeps the order of the others (filtering distributes over concatenation). Unfollow undoes a follow.
- **Error formatter.** The front end's `handleAuthError` puts one bulleted line per server message. Splitting and joining lines are proved inverse in both directions.

## The code as it behaves

These points follow the code where it departs from its own comments or from what one might expect:

- `validateUser` throws a 404 for an unknown email rather than returning null. The null comes only from a wrong password. So the refresh strategy's `!user` test never fires.
- The refresh strategy's own "No refresh token found in cookie." answer is never reached through the gate: passport-jwt already refuses an empty token with a plain 401 (`RefreshStrategy.Gate`).
- Idea not found answers "User not found" in follow and unfollow.
- The users service's `update` throws a plain `Error`, which becomes a 500.
- `findOne` and `findAll` of the users service, the idea returned by create, and the idea returned by unfollow all carry whole user rows, password digests included.
- No upper-case rule is applied to passwords: it is commented out. A two-letter user name is refused by `@MinLength(3)`.
- bcrypt reads only the first 72 UTF-8 bytes. For refresh tokens this means any earlier token of the user passes the comparison (see Findings). For passwords it means characters after the 72nd byte are ignored, which the 25-character limit reaches with emoji (`Bcrypt.LongPasswordsCollide`). A shorter password is keyed as itself, a NUL, itself again and so on; so a login password `abcdef`, U+0000, `abcdef` passes against the signup password `abcdef` (`Bcrypt.NulSuffixedPasswordAccepted`). The login route runs its password gate before any validation pipe, so nothing refuses such a value. Likewise a password with an unpaired surrogate reaches bcrypt with U+FFFD in its place, so it collides with the same text carrying U+FFFD or any other lone surrogate there (not representable in the model; see Left out).
- `@MaxLength(40)` on an idea name does not count the variation selectors U+FE0E and U+FE0F, so a name longer than the 200-character column passes validation, and the insert is then refused by the database (`CreateIdeaDto.OverlongNameAccepted`).
- Tokens carry no nonce. Two tokens for one user signed in the same second with the same lifetime are identical (`Crypto.SignDistinguishes`). A refresh made in the same second as the previous issue therefore re-issues the same token.
- Passport's own behaviour is modelled from its documented contract:
  - passport-local takes each field from the body and, when it is missing or empty there, from the query string (`LocalStrategy.Credential`); it refuses a field missing or empty in both with a 401 before `validate`;
  - passport-jwt refuses a missing or empty token, a bad signature or an expired token with a 401.

## Model

| member | source | states |
|---|---|---|
| Utf8.DecodeEncode | backend/src/auth/auth.service.ts:50 | for a well-formed string (Unicode scalar values only), the UTF-8 bytes Node hands to bcrypt lose nothing: decoding them gives back the string |
| Bcrypt.Key | backend/src/auth/strategies/refresh.strategy.ts:88-91 | bcrypt's 72 key bytes: the first 72 bytes of a longer input; a shorter input, then a NUL, repeating every `length + 1` bytes |
| Bcrypt.CompareHashed | backend/src/auth/auth.service.ts:236 | `bcrypt.compare(y, hash(x))` holds iff the keys of the UTF-8 bytes of `y` and `x` agree; when both are well-formed, encode to 72 bytes or fewer and contain no U+0000, iff `y == x` |
| Bcrypt.SharedPrefixCompares | backend/src/auth/auth.service.ts:236 | two texts that share a prefix of 72 bytes or more pass each other's compare, whatever follows |
| Bcrypt.LongPasswordsCollide | backend/src/users/dto/create-user.dto.ts:23-29 | two different 19-character passwords, within the 25 characters signup allows, pass each other's compare |
| Bcrypt.Fill | backend/src/auth/auth.service.ts:236 | a unit repeated to `n` bytes: `n` long, starting with the unit, and equal to itself shifted by the unit's length |
| Bcrypt.KeyDeterminesShortInput | backend/src/auth/auth.service.ts:236 | two inputs of at most 72 bytes without a zero byte have the same key only when they are equal |
| Utf8.EncodeNonZero | backend/src/auth/auth.service.ts:236 | a text without U+0000 has no zero byte in its UTF-8 form |
| Bcrypt.NulRepeatSameKey | backend/src/auth/auth.service.ts:236 | an input, a NUL and the input again (under 72 bytes) key the cipher exactly as the input alone |
| Bcrypt.NulRepeatCompares | backend/src/auth/auth.service.ts:236 | a text repeated after U+0000 passes the compare against the digest of the text |
| Bcrypt.NulSuffixedPasswordAccepted | backend/src/auth/auth.service.ts:236 | the login password `abcdef`, U+0000, `abcdef` differs from the signup password `abcdef` and passes its compare |
| Crypto.Verify | backend/src/auth/strategies/jwt.strategy.ts:47-53 | a token verifies iff it is a signed token under this key and `now < exp`; expired iff signed under this key and `exp <= now`; the payload is the token's claims |
| Crypto.Sign | backend/src/auth/auth.service.ts:171-184 | a token signed at `now` for `lifetime` verifies to its claims in `[now, now+lifetime)`, is expired from then on, and never verifies under another key |
| Crypto.SignDistinguishes | backend/src/auth/auth.service.ts:171-177 | two tokens for one subject and key are equal iff signed in the same second with the same lifetime (no nonce) |
| IdeaEntity.FollowedIdeas | backend/src/entities/idea.entity.ts:34-35 | the inverse side `User.followedIdeas`: exactly the ids of ideas that list the user as a follower |
| Db.FirstIndex | backend/src/auth/auth.service.ts:218 | `findOneBy` on one column: the first row whose column holds the value, or none exactly when no row does |
| Db.IndexOfId | backend/src/auth/auth.service.ts:218 | `findOneBy({ id })`: the first row with that id, or none exactly when no row has it |
| Db.IndexOfEmail | backend/src/auth/auth.service.ts:42-44 | `findOne({ where: { email } })`: the first row with that email, or none exactly when no row has it |
| Db.IndexOfIdea | backend/src/ideas/ideas.service.ts:92-95 | the idea row with that id, or none exactly when no row has it |
| Db.IndexOfNamedIdea | backend/src/ideas/ideas.service.ts:26-29 | a row of that creator with that name, or none exactly when there is none |
| Db.InsertKeepsConsistent | backend/src/entities/user.entity.ts:13-17 | inserting a row with a fresh id and a fresh email keeps every table constraint |
| Db.InsertIdeaKeepsConsistent | backend/src/ideas/ideas.service.ts:35-40 | a new idea with a fresh id, a name its creator has not used that fits the column, an existing creator and no followers keeps every constraint |
| Db.RowUpdateKeepsConsistent | backend/src/auth/auth.service.ts:222-223 | rewriting one user row with the same id, keeping emails unique, keeps every constraint |
| Db.SaveAssigned | backend/src/auth/auth.service.ts:222-223 | `Object.assign` then `save`: refused iff the new email belongs to another row (unique index); otherwise exactly that row changes, and uniqueness is kept |
| CreateUserDto.Parse | backend/src/users/dto/create-user.dto.ts:9-30 | the pipe accepts a body iff it is exactly a valid DTO's body (no undeclared property, every constraint met); any other body is a 400 |
| CreateUserDto.ParseAcceptsValid | backend/src/users/dto/create-user.dto.ts:9-30 | every valid DTO sent as a body passes unchanged |
| CreateUserDto.ExtraPropertyRejected | backend/src/main.ts:20-21 | an undeclared property rejects an otherwise valid body |
| CreateUserDto.TwoCharacterUsernameRejected | backend/src/users/dto/create-user.dto.ts:15-18 | a two-character user name is refused |
| CreateUserDto.LowerCasePasswordAccepted | backend/src/users/dto/create-user.dto.ts:20-22 | an all-lower-case password of legal length passes: the upper-case rule is not applied |
| CreateIdeaDto.Parse | backend/src/ideas/dto/create-idea.dto.ts:3-14 | accepts a body iff it is exactly a valid idea DTO's body; an accepted name has at least 2 characters and at most 40 besides variation selectors |
| CreateIdeaDto.ParseAcceptsValid | backend/src/ideas/dto/create-idea.dto.ts:3-14 | every valid idea DTO sent as a body passes unchanged |
| CreateIdeaDto.OverlongNameAccepted | backend/src/ideas/dto/create-idea.dto.ts:7 | a 201-character name (two letters and 199 variation selectors) passes the pipe, though it exceeds the 200-character column |
| Validation.ValidatorLength | backend/src/ideas/dto/create-idea.dto.ts:6-7 | the length `@MinLength`/`@MaxLength` compare: at most the number of characters, and equal to it when no variation selector occurs |
| Validation.ValidatorLengthAppend | backend/src/ideas/dto/create-idea.dto.ts:6-7 | the validator's length of a concatenation is the sum of the lengths |
| Users.UsersService.Create | backend/src/users/users.service.ts:32-46 | 409 "User already exists" with nothing stored for a known email; otherwise one new row with the password's digest and no session, constraints kept |
| Users.UsersService.Update | backend/src/users/users.service.ts:55-62 | unknown id is a 500 "User not found"; a taken email is refused; otherwise only the given fields of that row change |
| Users.UsersService.FindAll | backend/src/users/users.service.ts:68-70 | every stored row, digests included, and nothing else |
| Users.UsersService.FindOne | backend/src/users/users.service.ts:78-84 | the whole row iff the id exists, else 404 "User not found" |
| Users.UsersService.FindOneByEmail | backend/src/users/users.service.ts:91-93 | the row iff the email exists, else null (no exception) |
| Auth.StoreRefreshDigest | backend/src/auth/auth.service.ts:135-140 | the row's refresh digest becomes the digest of the token; nothing else in the table changes |
| Auth.ClearRefreshDigest | backend/src/auth/auth.service.ts:99-100 | the row's refresh digest becomes NULL, so no session is trusted; nothing else changes |
| Auth.FindOne | backend/src/auth/auth.service.ts:112-128 | the row iff one has that id or email, else 404 "User not found" |
| Auth.ValidateUser | backend/src/auth/auth.service.ts:233-241 | 404 iff no row has the email; the row without password iff the password passes bcrypt's compare (equal 72-byte keys) against the stored digest; null iff it does not |
| UserEntity.WithoutPassword | backend/src/auth/auth.service.ts:237 | `const { password, ...result } = user`: id, email, user name and refresh digest kept |
| UserEntity.WithoutPasswordForgetsOnlyPassword | backend/src/auth/auth.service.ts:237 | two rows give the same result exactly when they differ at most in their password |
| UserEntity.Assign | backend/src/auth/auth.service.ts:222 | `Object.assign(user, attrs)`: each present attribute replaces the field, each absent one keeps it; id and password kept |
| UserEntity.AssignIdempotent | backend/src/users/users.service.ts:60 | assigning the same attributes twice is assigning them once; assigning none changes nothing |
| Auth.AuthService.GetTokens | backend/src/auth/auth.service.ts:169-191 | an access token valid 15 minutes under the access secret and a refresh token valid 7 days under the refresh secret, both for the user, and different |
| Auth.AuthService.UpdateUser | backend/src/auth/auth.service.ts:217-224 | unknown id is a 404; a taken email is refused; otherwise only the given fields change |
| Auth.AuthService.UpdateUserRefreshToken | backend/src/auth/auth.service.ts:135-140 | unknown id is a 404; otherwise exactly the row's refresh digest becomes `bcrypt.hash(token, 10)` |
| Auth.AuthService.IssueSession | backend/src/auth/auth.service.ts:72-83 | the stored refresh digest is the digest of exactly the token put in the cookie; the body is the access token and `{ id, username, email }` |
| Auth.AuthService.Signup | backend/src/auth/auth.service.ts:41-61 | 409 and nothing stored for a known email; else a new row with the password's digest whose refresh digest matches the cookie's token, body `{ access_token, user: { id, username, email } }` |
| Auth.AuthService.Login | backend/src/auth/auth.service.ts:71-84 | rotates the session: stored digest is that of the cookie's new token; the reply names only id, username and email |
| Auth.AuthService.RefreshTokens | backend/src/auth/auth.service.ts:148-162 | rotates the session exactly as login does |
| Auth.AuthService.Logout | backend/src/auth/auth.service.ts:93-102 | cookie cleared always, also on the 404 "User not found!"; for a known id only the refresh digest changes, to NULL |
| Config.RequireSecret | backend/src/auth/strategies/jwt.strategy.ts:40-46 | a secret is admitted iff set and non-empty, else the error |
| LocalStrategy.Validate | backend/src/auth/strategies/local.strategy.ts:31-37 | exactly validateUser's user on a match; 401 "Invalid credentials" on a wrong password; the 404 iff the email is unknown |
| LocalStrategy.Gate | backend/src/auth/strategies/local.strategy.ts:17-21 | a credential missing or empty in both body and query is a 401; `email` is the identifier; success iff a row with that email matches the password, giving that row without password |
| LocalStrategy.Credential | backend/src/auth/strategies/local.strategy.ts:17-21 | a field's value is the body's when present and non-empty, else the query string's; it is empty iff the field is missing or empty in both |
| LocalStrategy.QueryOnlyFillsGaps | backend/src/auth/strategies/local.strategy.ts:17-21 | a body carrying both credentials decides alone, whatever the query string holds; a query string alone acts as a body would |
| JwtStrategy.Configure | backend/src/auth/strategies/jwt.strategy.ts:40-46 | the strategy exists iff JWT_ACCESS_SECRET is set and non-empty |
| JwtStrategy.FromAuthHeaderAsBearerToken | backend/src/auth/strategies/jwt.strategy.ts:49 | a token is taken iff the Authorization scheme is `bearer` in any case, and it is the header's credentials |
| JwtStrategy.Validate | backend/src/auth/strategies/jwt.strategy.ts:63-67 | the principal has exactly one field, `id`, equal to `sub` |
| JwtStrategy.Gate | backend/src/auth/strategies/jwt.strategy.ts:47-53 | passes iff a Bearer token verifies under the access secret and is unexpired; the principal is `{ id: sub }`; otherwise a plain 401 |
| RefreshStrategy.Configure | backend/src/auth/strategies/refresh.strategy.ts:42-47 | the strategy exists iff JWT_REFRESH_SECRET is set and non-empty |
| RefreshStrategy.CookieExtractor | backend/src/auth/strategies/refresh.strategy.ts:16-23 | the `refresh_token` cookie iff present and a string, else null |
| RefreshStrategy.Validate | backend/src/auth/strategies/refresh.strategy.ts:68-99 | empty token 401; unknown subject 404; no stored digest or a mismatch under the chosen check 401; success iff the subject's stored digest matches the token under that check, giving the row plus the token |
| RefreshStrategy.Gate | backend/src/auth/strategies/refresh.strategy.ts:49-55 | passes iff the cookie token verifies under the refresh secret and the subject's stored digest matches it under the chosen check; the principal carries that token and row; never the "No refresh token" answer |
| RefreshStrategy.SameSubjectMatches | backend/src/auth/strategies/refresh.strategy.ts:87-91 | with the program's 72-byte compare, a signed token matches the digest of any other signed token of the same subject of 19 characters or more |
| Session.RotationRevokesEarlierToken | backend/src/auth/strategies/refresh.strategy.ts:87-95 | under the whole-token check: after the digest is replaced by that of `t2`, every other token naming the user is refused with a 401 |
| Session.LogoutRevokesEveryToken | backend/src/auth/strategies/refresh.strategy.ts:80-85 | under either check, after logout every token naming the user is refused with a 401 |
| Session.IssuedTokenAccepted | backend/src/auth/auth.service.ts:149-152 | under either check, the refresh token just stored passes the gate, with the updated row, exactly during its 7-day lifetime |
| Session.AtMostOneTrustedToken | backend/src/entities/user.entity.ts:25-26 | under the whole-token check, two tokens of one user that both pass the refresh gate are the same token |
| Session.RotationKeepsEarlierToken | backend/src/auth/strategies/refresh.strategy.ts:87-95 | as written: after the digest is replaced by that of a newer token of the user, an earlier token of that user (id of 19 characters or more) still passes the refresh gate, with the updated row, until it expires |
| Session.StaleRefreshTokenAccepted | backend/src/auth/strategies/refresh.strategy.ts:87-95 | concrete instance: tokens issued at 1700000000 and 1700000060 for a uuid differ, both pass the program's gate at 1700000120, and the whole-token check refuses the earlier one |
| Session.TokenKindsDoNotCross | backend/src/auth/strategies/refresh.strategy.ts:49-55 | only when the two secrets differ (the program does not check it): an access token is refused at the refresh gate and a refresh token at the access gate |
| Session.SignupThenValidate | backend/src/auth/auth.service.ts:50-52 | after signup, validateUser for that email accepts exactly the attempts whose bcrypt key is the signup password's; when both are well-formed, have 72 bytes or fewer and contain no U+0000, exactly the signup password |
| Session.LogoutIdempotent | backend/src/auth/auth.service.ts:99-100 | a second logout leaves the table as the first |
| Controller.StartupSecrets | backend/src/auth/auth.module.ts:14 | the application starts iff both secrets are set and non-empty; the access strategy's error is reported first |
| Controller.LogoutTarget | backend/src/auth/auth.controller.ts:72 | the id is present iff the principal has a `sub` field |
| Controller.LogoutTargetAbsent | backend/src/auth/auth.controller.ts:72 | for every principal the access gate produces, the logout id is absent |
| Controller.AuthController.Signup | backend/src/auth/auth.controller.ts:35-41 | unguarded: an invalid body is a 400 with nothing stored; otherwise AuthService.signup's effect and a 201 |
| Controller.AuthController.Login | backend/src/auth/auth.controller.ts:50-57 | login runs only with the password gate's user (credentials from the body, else the query string), whose row it always finds and rotates; gate failures pass through unchanged |
| Controller.AuthController.Logout | backend/src/auth/auth.controller.ts:65-75 | gate failure is a 401 with nothing changed; every authenticated call reaches the service without an id |
| Controller.AuthController.LogoutById | backend/src/auth/auth.controller.ts:65-75 | with `req.user.id`: 204, cookie cleared, session closed, and then every cookie naming the user is refused; 404 with cookie cleared for a subject without a row |
| Controller.AuthController.Refresh | backend/src/auth/auth.controller.ts:84-91 | refresh runs only with the refresh gate's row and always rotates it; under the whole-token check the presented cookie then fails at every time unless issued in this same second; under the program's check it keeps passing until it expires |
| Ideas.AddFollower | backend/src/ideas/ideas.service.ts:105-111 | the user is a follower afterwards, the old list is a prefix, a repeat follow changes nothing, no duplicates appear |
| Ideas.RemoveFollower | backend/src/ideas/ideas.service.ts:135-137 | removes every occurrence of the id and keeps all other entries with their multiplicity; a non-follower's list is unchanged |
| Ideas.RemoveFollowerKeepsDistinct | backend/src/ideas/ideas.service.ts:135-137 | filtering a duplicate-free follower list leaves it duplicate-free |
| Ideas.RemoveFollowerDistributes | backend/src/ideas/ideas.service.ts:135-137 | filtering distributes over concatenation, so the others keep their order |
| Ideas.FollowUnfollowRoundTrip | backend/src/ideas/ideas.service.ts:105-137 | follow then unfollow by a non-follower restores the follower list |
| Ideas.UnfollowIdempotent | backend/src/ideas/ideas.service.ts:135-137 | unfollowing twice is unfollowing once |
| Ideas.FollowShowsOnInverseSide | backend/src/entities/idea.entity.ts:34-35 | after a follow the idea is among the user's followed ideas |
| Ideas.UnfollowLeavesInverseSide | backend/src/entities/idea.entity.ts:34-35 | after an unfollow the idea is not among the user's followed ideas |
| Ideas.FollowersUpdateKeepsConsistent | backend/src/ideas/ideas.service.ts:105-111 | a follower list of existing, distinct users keeps every constraint |
| Ideas.CreatedBy | backend/src/ideas/ideas.service.ts:49-51 | exactly the ideas whose creator is the user, each as many times as the table holds it |
| Ideas.RefOf | backend/src/ideas/ideas.service.ts:59-62 | the creator's `{ id, username }` carries that row's id and user name |
| Ideas.Summary | backend/src/ideas/ideas.service.ts:53-64 | the listing of one idea keeps its id, name and description, and names its creator by id and the creator row's user name |
| Ideas.SummariesOf | backend/src/ideas/ideas.service.ts:49-64 | one listing per idea the user created, in the order of those ideas |
| Ideas.SummariesMembers | backend/src/ideas/ideas.service.ts:49-64 | a listing appears iff it is the summary of an idea the user created; every listed creator is the user |
| Ideas.IdeasService.Create | backend/src/ideas/ideas.service.ts:21-41 | 404 unknown creator, 409 "Idea already exists" for a repeated name of that creator, database refusal past 200 characters; otherwise one new idea without followers, returned with the creator's row |
| Ideas.IdeasService.FindAllUserIdeas | backend/src/ideas/ideas.service.ts:43-65 | 404 iff the user is unknown; otherwise one listing per idea of that user and no other, each with its name, description and creator `{ id, username }`; table order is the model's choice |
| Ideas.IdeasService.FindAll | backend/src/ideas/ideas.service.ts:67-89 | one listing per idea (table order, the model's choice); creator and each follower as `{ id, username }`, followers in number and in stored order (the model's choice) |
| Ideas.IdeasService.Follow | backend/src/ideas/ideas.service.ts:91-124 | user checked first, then idea, both 404 "User not found"; the user is added to the followers unless already there |
| Ideas.IdeasService.Unfollow | backend/src/ideas/ideas.service.ts:126-141 | 404 for an unknown idea; else every entry of the user is filtered out and the idea returned with its id, name and description, its whole creator row and one whole row per remaining follower |
| AuthErrorFormat.JoinLines | frontend/src/Auth/utils.ts:30-32 | `join("\n")`: no lines give the empty string, one line gives itself |
| AuthErrorFormat.SplitJoin | frontend/src/Auth/utils.ts:30-32 | splitting the joined text at line breaks gives back the lines, when none contains a break |
| AuthErrorFormat.JoinSplit | frontend/src/Auth/utils.ts:30-32 | joining the pieces of any split text gives back the text |
| AuthErrorFormat.Bulleted | frontend/src/Auth/utils.ts:30-31 | one line per message, each the message behind "• " |
| AuthErrorFormat.HandleAuthError | frontend/src/Auth/utils.ts:15-52 | array message gives bulleted lines; string message gives one bulleted line; else a non-empty axios message bulleted or the default; plain Error bulleted; anything else the default; null `data` with a response throws |
| AuthErrorFormat.OneLinePerMessage | frontend/src/Auth/utils.ts:20-32 | a non-empty message array shows exactly one line per message; an empty one shows the empty string |
| JwtWire.DecodeEncode | backend/src/auth/auth.service.ts:171-184 | base64url decoding undoes the encoding the token segments use |
| JwtWire.SigningInput | backend/src/auth/auth.service.ts:171-184 | header segment, dot, payload segment, at least 72 characters long, so bcrypt never reaches the signature |
| JwtWire.CompactKey | backend/src/auth/strategies/refresh.strategy.ts:88-91 | what bcrypt reads of a token's full text is its key, whatever the signature |
| JwtWire.SameSubjectSameKey | backend/src/auth/auth.service.ts:169-191 | any two tokens for the same subject of 19 bytes or more have the same 72-byte key, whatever their times |

## Left out

- TypeORM itself: persistence, transactions, and the `createdAt`, `updatedAt` and `createdDate` timestamps. The listings omit the timestamps.
- Database failures. A query never fails in the model, so `findOne`'s 500 for a failing query (auth.service.ts:121-127) does not arise.
- What `findOneBy({ id: undefined })` returns. The logout route as written reaches it, and the model leaves that outcome open (`Indeterminate`).
- The cookie's flags and expiry date: `httpOnly`, `secure`, `sameSite`, `path`, `expires`. Only "set to this token" and "cleared" are modelled.
- Concurrency: `Promise.all` in getTokens, and simultaneous requests. Every request is sequential.
- HMAC-SHA256 and its key handling. A token's `key` field stands for the signature check. In `JwtWire` the signature segment is any text.
- bcrypt's cipher, salt generation and the `$2b$10$…` digest text. `Bcrypt.Digest` records its input, and `Bcrypt.Compare` compares the 72-byte keys (`Bcrypt.Key`) that the `$2b$` key schedule reads: an input's bytes, then a NUL, repeated to 72 bytes. The model takes equal keys as the only way two inputs compare equal; a collision of the cipher itself is not modelled.
- Utf8.Encode, Bcrypt.CompareHashed and Session.SignupThenValidate: a Dafny string holds Unicode scalar values only, so a JavaScript string with an unpaired surrogate (JSON `"abcdef\ud800"`, which `@IsString` admits and login does not validate at all) cannot be represented. Node's UTF-8 conversion writes each unpaired surrogate as U+FFFD (bytes EF BF BD), so `abcdef\uD800`, `abcdef\uDC00` and `abcdef\uFFFD` also pass each other's compare; the equality results are stated for well-formed strings only.
- Libraries, stated as parameters: `@IsEmail()`'s format test is a parameter.
- JwtWire.PayloadBytes: writes the subject between its quotes as it is, without JSON escaping. The subjects are uuids, which need none.
- Session.RotationKeepsEarlierToken: stated for user ids of 19 characters or more, the length at which every token's first 72 bytes are fixed. The database generates uuids of 36 characters, so every stored user qualifies.
- The validator's error-message texts. A refused body is a bare 400.
- Auth.AuthService.UpdateUser and Users.UsersService.Update: only email, username and hashedRefreshToken can be passed. A `Partial<User>` carrying `id` or `password` is not modelled.
- LocalStrategy.Gate: the login body's and query string's fields are taken as strings. A non-string JSON value, and a repeated query parameter, are not modelled.
- Http.SchemeIs: compares letter case in ASCII only, which is all the scheme `bearer` needs.
- Lengths: the validator's length is modelled on validator.js 13.x, the major version class-validator 0.14 depends on, whose `isLength` counts code points and leaves out U+FE0E and U+FE0F (`Validation.ValidatorLength`); other versions count differently, and `CreateIdeaDto.OverlongNameAccepted` depends on this one. PostgreSQL's `varchar(200)` counts characters, which is Dafny's `|s|`.
- CreateIdeaDto.Parse: no longer promises that an accepted name fits the 200-character column, because it need not (`CreateIdeaDto.OverlongNameAccepted`); it promises a validator length of at most 40.
- Users.UsersService.FindAll: states which rows and how many, not their order, because `find()` without ORDER BY fixes none.
- Ideas.IdeasService.FindAllUserIdeas and Ideas.IdeasService.FindAll: list in table order, and FindAll lists each idea's followers in the order the follower list stores them. Both orders are the model's choice: `find()` without ORDER BY fixes neither the rows' order nor the order in which a ManyToMany relation is loaded.
- The creator's `onDelete: 'CASCADE'`: no operation in this core deletes a user, so it never fires.
- The front end's axios interceptor, pages and routing, the guard classes, the modules, and the idea and user controllers: they are wiring or forwarding.

## Findings

| source | as written | input that shows it | evidently intended | confidence | as-written member | corrected member |
|---|---|---|---|---|---|---|
| backend/src/auth/strategies/refresh.strategy.ts:87-95 | the stored digest is `bcrypt.hash` of the whole token, and bcrypt reads only its first 72 UTF-8 bytes. Those are the 36-symbol header segment, a dot, and 35 symbols that depend only on the payload's first 27 bytes: `{"sub":"` plus 19 bytes of the user id. They are the same for every token of a user. So any unexpired earlier refresh token passes the comparison, and rotation revokes nothing. | user `123e4567-e89b-12d3-a456-426614174000`: the token issued at 1700000000 is presented at 1700000120, after a refresh at 1700000060 stored the digest of a new token | the stored digest commits to the whole token, so only the newest refresh token passes | medium-high, not executed | Session.StaleRefreshTokenAccepted | Session.RotationRevokesEarlierToken |
| backend/src/auth/auth.controller.ts:72 | the logout handler reads `req.user.sub`. The access gate attaches `{ id }` only (jwt.strategy.ts:66), so the id passed to `logout` is undefined for every authenticated call. | any valid access token sent to `POST /auth/logout` | read `req.user.id`, closing the session of the token's subject | high, not executed | Controller.AuthController.Logout | Controller.AuthController.LogoutById |
