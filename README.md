# Document-sharing backend: domain, repositories, services and access control

This project models the core of a TypeScript/Express document management backend
written in a domain-driven style. Users register and log in, upload documents, tag
them, share them with other users and hand out time-limited download links. The model
covers:

- the value objects (file name, extension, content type, path, username, email, role,
  password) and the two entities, `Document` and `User`, as classes whose update
  methods reassign their fields;
- the factories and mappers between entities, rows and DTOs;
- the three tables (users, documents, permissions) as the `seq` fields of one
  `Store.Database` object, which the repository methods update;
- the services for users, documents, tags, permissions, pagination, search and
  download links;
- the access-control path. Requests are authenticated with a JSON Web Token. A
  per-document role gate and a share gate then admit or refuse them, and download
  links are checked by their own token.

Each of the application's three token issuers falls back to its own secret when none
is configured: `JWTAuthHandler`, `UserService` and `DownloadService`. The
`AccessControl` module proves how they interact. Without a configured secret, no
issuer's tokens are accepted by another. With a shared secret, a `UserService` token
authenticates like a `JWTAuthHandler` token. Download tokens and identity tokens
are never accepted in each other's place, whichever secret is in use. The admin gate
admits nobody while the permissions table holds only the levels the application
itself writes.

Tokens follow section 4.1.4 of RFC 7519: a token expires from its `exp` claim on,
and verification recovers the claims only with the signing secret. The
serialisation itself is abstract, a `Codec` whose parser inverts its printer and
whose printed tokens are never empty and never contain a space.

Thrown errors are explicit. A constructor or check that throws returns
`Result.Err(message)`. A service's `Either` is `Success`/`Failure`. Where the model
carries them, errors raised by the database, the file system or a clock read between
two calls are boolean or option inputs: `updateRaised`, `insertRaised`,
`lookupRaised`, `fsRaised`, `fault`, `storeFault`. The database calls that have no
such input are listed under "## Left out". Time is an integer number of seconds, passed in. Generated uuids are
parameters, with a freshness precondition wherever the source inserts a row under
them. Hashing is an abstract `Hasher`.

## Model

| member | source | states |
|---|---|---|
| ValueObjects.NewFileName | src/domain/valueObjects/filename.vo.ts:5-14 | accepted iff non-empty; `getValue` returns the given string; the rejection carries the file-name message |
| ValueObjects.NewFileExtension | src/domain/valueObjects/fileExtension.vo.ts:5-14 | accepted iff non-empty; `getValue` returns the given string; the rejection carries the extension message |
| ValueObjects.NewContentType | src/domain/valueObjects/contentType.vo.ts:5-14 | accepted iff non-empty; `getValue` returns the given string; the rejection carries the content-type message |
| ValueObjects.NewFilePath | src/domain/valueObjects/filepath.vo.ts:5-14 | accepted iff non-empty; `getValue` returns the given string; the rejection carries the path message |
| ValueObjects.FileValuesRoundTrip | src/domain/valueObjects/filename.vo.ts:5-14 | rebuilding any constructed file value object from its `getValue()` gives the same object |
| ValueObjects.NewUsername | src/domain/valueObjects/username.vo.ts:4-13 | accepted iff non-empty, holding the given string |
| ValueObjects.UsernameValue.Equals | src/domain/valueObjects/username.vo.ts:15-17 | `equals` holds exactly for the same username |
| ValueObjects.EmailCheckMatchesPattern | src/domain/valueObjects/user-email.vo.ts:5-8 | the character-level email check agrees, in both directions, with the structural reading of the pattern: no whitespace, one `@` not at the start, a domain with a dot followed by text |
| ValueObjects.EmailShape | src/domain/valueObjects/user-email.vo.ts:5-8 | an accepted email has no whitespace and exactly one `@`, not at the start |
| ValueObjects.NewEmail | src/domain/valueObjects/user-email.vo.ts:4-14 | accepted iff the pattern matches, holding the given string; otherwise the invalid-email message |
| ValueObjects.EmailValue.Equals | src/domain/valueObjects/user-email.vo.ts:16-18 | `equals` holds exactly for the same email |
| ValueObjects.NewRole | src/domain/valueObjects/user-role.vo.ts:5-16 | accepted iff the role is "User" or "Admin", holding it; otherwise the invalid-role message |
| ValueObjects.RoleValue.Equals | src/domain/valueObjects/user-role.vo.ts:18-20 | `equals` holds exactly for the same role |
| ValueObjects.CreatePassword | src/domain/valueObjects/user-password.vo.ts:10-16 | accepted iff at least 6 UTF-16 code units long; the stored hash is the hasher's image of the password |
| ValueObjects.FromHashed | src/domain/valueObjects/user-password.vo.ts:18-20 | `getHashed` gives back exactly the stored hash |
| ValueObjects.CreatedPasswordMatches | src/domain/valueObjects/user-password.vo.ts:10-24 | a created password is accepted by `compare` for the password it was made from, given a hasher whose compare accepts its own hashes |
| Text.Lower | src/infrastructure/repository/userRepository.ts:21 | same length; each character is lower-cased, ASCII letters only |
| Text.LowerIdempotent | src/infrastructure/repository/userRepository.ts:21 | lower-casing twice is lower-casing once |
| Text.Utf16Length | src/domain/valueObjects/user-password.vo.ts:11 | the JavaScript `length` lies between the number of code points and twice that, and is 0 only for the empty string |
| Text.SplitJoin | src/presentation/controllers/documentController.ts:80 | joining the fields of `split` with the separator gives back the string |
| Text.JoinSplit | src/presentation/controllers/documentController.ts:80 | splitting a join of separator-free fields gives back the fields |
| Text.LastFieldIsSuffix | src/presentation/controllers/documentController.ts:129 | the last field of `split` is a separator-free suffix, preceded by a separator when the string contains one |
| Text.IndexOf | src/infrastructure/repository/documentRepository.ts:215 | -1 iff absent; otherwise the position of the first occurrence |
| Text.Field | src/presentation/middleware/authMiddleware.ts:32 | the i-th field when it exists, `undefined` otherwise |
| Entities.ConstructDocument | src/domain/entities/Document.ts:18-40 | accepted iff the id is non-empty; keeps every given field; omitted tags are empty and omitted timestamps are the current time |
| Entities.Document.constructor | src/domain/entities/Document.ts:18-40 | the new entity holds exactly the given state |
| Entities.Document.UpdateTimestamp | src/domain/entities/Document.ts:69-71 | only `updatedAt` changes, to now |
| Entities.Document.UpdateFileName | src/domain/entities/Document.ts:43-46 | only the file name and `updatedAt` change |
| Entities.Document.UpdateFileExtension | src/domain/entities/Document.ts:48-51 | only the extension and `updatedAt` change |
| Entities.Document.UpdateContentType | src/domain/entities/Document.ts:53-56 | only the content type and `updatedAt` change |
| Entities.Document.UpdateTags | src/domain/entities/Document.ts:58-61 | only the tags and `updatedAt` change |
| Entities.Document.SetFilePath | src/domain/entities/Document.ts:63-66 | only the path and `updatedAt` change |
| Entities.NewDocument | src/domain/entities/Document.ts:18-40 | fails exactly when construction fails, with its message; otherwise a fresh, valid entity in the constructed state |
| Entities.ConstructUser | src/domain/entities/User.ts:15-30 | accepted iff the id is non-empty; an omitted role is "User" |
| Entities.User.constructor | src/domain/entities/User.ts:15-30 | the new entity holds exactly the given state |
| Entities.User.InitializeId | src/domain/entities/User.ts:32-36 | the id is set only while it is empty; otherwise nothing changes |
| Entities.User.UpdateUsername | src/domain/entities/User.ts:58-60 | only the username changes |
| Entities.User.UpdateEmail | src/domain/entities/User.ts:62-64 | only the email changes |
| Entities.User.UpdatePassword | src/domain/entities/User.ts:66-68 | a short password is rejected and the state kept; otherwise only the hash changes, to the new password's hash |
| Entities.User.UpdateRole | src/domain/entities/User.ts:70-72 | only the role changes |
| Entities.NewUser | src/domain/entities/User.ts:15-30 | fails exactly when construction fails; otherwise a fresh, valid entity in the constructed state |
| UserFactory.Create | src/domain/factories/userFactory.ts:10-27 | checks the username, email and role in that order, then always fails on the empty id it passes |
| UserFactory.CreateExisting | src/domain/factories/userFactory.ts:29-41 | succeeds iff id, username, email and role are valid, with the error of the first invalid one; the user then holds exactly those values |
| UserFactory.CreateExistingOfRecord | src/domain/factories/userFactory.ts:29-41 | rebuilding a stored user from its own values gives the same user |
| DocumentFactory.CreateDocument | src/domain/factories/documentFactory.ts:10-28 | checks name, extension, content type and path in order; an omitted path always fails; on success the fields are the given ones and both timestamps are now |
| DocumentFactory.CreateExistingDocument | src/domain/factories/documentFactory.ts:30-50 | succeeds iff every field is valid, keeping all fields and both timestamps |
| DocumentMapper.ToDTOs | src/application/services/paginationService.ts:40 | one DTO per document, in order |
| DocumentMapper.ToDTO | src/application/mappers/documentMapper.ts:12-23 | a DTO with a non-empty id maps back to the document it was made from |
| DocumentMapper.FromDTO | src/application/mappers/documentMapper.ts:26-37 | accepted iff id and the four strings are non-empty; the name, extension, content type and path are checked in that order with their messages, and an empty id alone gives "ID cannot be empty." |
| DocumentMapper.FromDTOOfToDTO | src/application/mappers/documentMapper.ts:12-37 | a document survives the trip to its DTO and back |
| DocumentMapper.ToDTOOfFromDTO | src/application/mappers/documentMapper.ts:12-37 | an accepted DTO survives the trip to a document and back |
| UserMapper.ToDTOs | src/application/services/paginationService.ts:74 | one DTO per user, in order |
| UserMapper.ToDTO | src/application/mappers/userMapper.ts:11-18 | a DTO with a non-empty id maps back to its user, whose password becomes the placeholder hash |
| UserMapper.FromDTO | src/application/mappers/userMapper.ts:20-32 | accepted iff id, username, email and role are valid; username, email and role are checked in that order with their messages, and an empty id alone gives "ID cannot be empty."; the rebuilt user carries the placeholder hash |
| UserMapper.ToDTOOfFromDTO | src/application/mappers/userMapper.ts:11-32 | an accepted DTO survives the trip to a user and back |
| UserMapper.FromDTOOfToDTO | src/application/mappers/userMapper.ts:11-32 | a user survives the trip through its DTO except for the password, which becomes the placeholder |
| Tables.First | src/infrastructure/repository/documentRepository.ts:35-57 | `None` iff no row satisfies the condition; otherwise the first row that does |
| Tables.RemoveWhere | src/infrastructure/repository/documentRepository.ts:146-154 | keeps exactly the rows not satisfying the condition, and is shorter iff some row does |
| Tables.Page | src/infrastructure/repository/documentRepository.ts:240-264 | the window of at most `limit` rows starting at `offset`, with its exact length |
| Tables.FirstCongruent | src/infrastructure/repository/documentRepository.ts:35-57 | the first match depends only on the condition's values on the rows |
| Tables.PagesTile | src/infrastructure/repository/documentRepository.ts:240-264 | two adjacent windows make up the window of their combined size |
| DocumentRepository.AssignOwnerPermission | src/infrastructure/repository/documentRepository.ts:20-33 | appends one "Owner" row for the pair, whatever rows already exist |
| DocumentRepository.FindDocumentById | src/infrastructure/repository/documentRepository.ts:35-57 | `None` iff no row has the id; otherwise a stored row with that id |
| DocumentRepository.Create | src/infrastructure/repository/documentRepository.ts:59-93 | a taken id is refused with no change; otherwise the row is appended and returned |
| DocumentRepository.ApplyUpdates | src/infrastructure/repository/documentRepository.ts:95-144 | each string field takes a non-empty supplied value, tags take any supplied value, and id and timestamps are kept |
| DocumentRepository.UpdateRows | src/infrastructure/repository/documentRepository.ts:95-144 | rows with the id are updated, every other row is kept, and the length is unchanged |
| DocumentRepository.FirstOfUpdateRows | src/infrastructure/repository/documentRepository.ts:95-144 | the row returned after the update is the first matching row, updated |
| DocumentRepository.Update | src/infrastructure/repository/documentRepository.ts:95-144 | updates with no value to write throw the query builder's "No values to set" and change nothing; otherwise the table is updated by `UpdateRows`, and the result is the updated first match, or `None` iff there was none |
| DocumentRepository.Delete | src/infrastructure/repository/documentRepository.ts:146-154 | returns the row as it was; removes every row with the id and nothing else; permissions stay |
| DocumentRepository.ReplaceFirst | src/infrastructure/repository/documentRepository.ts:215-220 | only the first occurrence of the old tag changes, to the new one |
| DocumentRepository.RemoveAll | src/infrastructure/repository/documentRepository.ts:225-237 | the tag no longer occurs, and every other tag keeps its count |
| DocumentRepository.AddTag | src/infrastructure/repository/documentRepository.ts:190-201 | a missing document or an existing tag throws with no change; otherwise the tag is appended and written |
| DocumentRepository.UpdateTag | src/infrastructure/repository/documentRepository.ts:204-223 | a missing document or tag throws with no change; otherwise its first occurrence is replaced and written |
| DocumentRepository.DeleteTag | src/infrastructure/repository/documentRepository.ts:225-237 | a missing document throws; otherwise every occurrence is removed and written |
| DocumentRepository.FindPaginatedDocuments | src/infrastructure/repository/documentRepository.ts:240-264 | the rows consecutive from `offset`, exactly `min(limit, count - offset)` of them, and none from `offset >= count` on |
| DocumentRepository.CountBoundsPages | src/infrastructure/repository/documentRepository.ts:266-269 | a page is empty exactly when `limit` is 0 or `offset` is at or past `countDocuments` |
| UserRepository.FetchByName | src/infrastructure/repository/userRepository.ts:17-35 | `None` iff no username matches case-insensitively; otherwise the first match |
| UserRepository.FetchByNameIgnoresCase | src/infrastructure/repository/userRepository.ts:17-35 | lower-casing the name first changes nothing |
| UserRepository.FetchById | src/infrastructure/repository/userRepository.ts:37-55 | `None` iff no row has the id; otherwise a stored row with it |
| UserRepository.Overwrite | src/infrastructure/repository/userRepository.ts:77-103 | rows with the user's id take the user's values, every other row is kept |
| UserRepository.Create | src/infrastructure/repository/userRepository.ts:57-73 | appends the user under the generated id; the entity takes the id only if it had none |
| UserRepository.Update | src/infrastructure/repository/userRepository.ts:77-103 | overwrites the rows with the id; `None` iff there were none |
| UserRepository.Delete | src/infrastructure/repository/userRepository.ts:105-108 | removes the rows with the id; true iff there were any |
| UserRepository.FindPaginatedUsers | src/infrastructure/repository/userRepository.ts:111-130 | the rows consecutive from `offset`, exactly `min(limit, count - offset)` of them, and none from `offset >= count` on |
| UserRepository.CountBoundsPages | src/infrastructure/repository/userRepository.ts:132-135 | a page is empty exactly when `limit` is 0 or `offset` is at or past `countUsers` |
| Jwt.Sign | src/infrastructure/auth/handlers/JWTAuthHandler.ts:35-39 | with a sound codec, the token parses back to the claims, the signing secret and the expiry `now + lifetime` |
| Jwt.VerifyToken | src/infrastructure/auth/handlers/JWTAuthHandler.ts:45-55 | verified iff the token parses, was signed with this secret and is before its expiry; expired iff it parses and is signed but past `exp`; otherwise a JsonWebTokenError |
| Jwt.SignedTokenLifetime | src/infrastructure/auth/handlers/JWTAuthHandler.ts:19-55 | a signed token verifies with its claims exactly while younger than its lifetime, and is expired afterwards |
| Jwt.OtherSecretRejected | src/infrastructure/auth/handlers/JWTAuthHandler.ts:45-55 | a token never verifies under a secret other than its signer's |
| JwtAuthHandler.Secret | src/infrastructure/auth/handlers/JWTAuthHandler.ts:9 | a truthy `JWT_SECRET` is used as given; otherwise "your_secret_key" |
| JwtAuthHandler.Login | src/infrastructure/auth/handlers/JWTAuthHandler.ts:19-43 | succeeds iff a user matches the name and the password compares; it then issues a one-hour token over the identity claims |
| JwtAuthHandler.Verify | src/infrastructure/auth/handlers/JWTAuthHandler.ts:45-55 | true iff the token parses, carries this secret and has not expired |
| JwtAuthHandler.Decode | src/infrastructure/auth/handlers/JWTAuthHandler.ts:57-73 | the claims exactly when `verify` holds; otherwise the rethrown error, which is expiry iff the token is signed but past `exp` |
| JwtAuthHandler.LoginTokenVerifies | src/infrastructure/auth/handlers/JWTAuthHandler.ts:19-73 | a login token verifies exactly during its hour and decodes to the identity claims of the user who logged in |
| JwtAuthHandler.VerifyThenDecode | src/infrastructure/auth/handlers/JWTAuthHandler.ts:45-73 | a verified token decodes at the same or an earlier time; a later decode can fail only by expiry |
| JwtAuthHandler.ForeignTokenRejected | src/infrastructure/auth/handlers/JWTAuthHandler.ts:9 | a token signed with any other secret neither verifies nor decodes |
| Text.SeparatorSplits | src/presentation/middleware/authMiddleware.ts:32 | splitting gives at least two fields iff the separator occurs |
| AuthMiddleware.BearerToken | src/presentation/middleware/authMiddleware.ts:32 | a token iff the header contains a space; the token itself contains none |
| AuthMiddleware.BearerTokenNeedsSpace | src/presentation/middleware/authMiddleware.ts:32-36 | a header without a space yields no token |
| AuthMiddleware.BearerTokenOfHeader | src/presentation/middleware/authMiddleware.ts:32 | "scheme token" yields the token, whatever the scheme |
| AuthMiddleware.UserById | src/presentation/middleware/authMiddleware.ts:57 | a string id is looked up; an object id finds nobody |
| AuthMiddleware.Decide | src/presentation/middleware/authMiddleware.ts:18-77 | 401 with no header, a malformed header, a token `verify` refuses, or a payload without a truthy id; 500 when `decode` or the lookup throws; 404 for an unknown user; otherwise the user's DTO |
| AuthMiddleware.SignedIdentityAuthenticates | src/presentation/middleware/authMiddleware.ts:32-66 | a token signed with the middleware's secret, used within its lifetime, whose payload holds a stored user's id as a string, authenticates that user |
| AuthMiddleware.LoginTokenAuthenticates | src/presentation/middleware/authMiddleware.ts:18-77 | a login token used within its hour authenticates the user with that id |
| AuthMiddleware.PayloadWithoutIdRefused | src/presentation/middleware/authMiddleware.ts:51-54 | a valid token whose payload lacks a truthy id is refused with 401 before any lookup |
| AuthMiddleware.ExpiryBetweenCalls | src/presentation/middleware/authMiddleware.ts:39-54 | a token that expires between `verify` and `decode` gets 500, not 401 |
| AuthMiddleware.Request.constructor | src/presentation/middleware/authMiddleware.ts:18-22 | a request with its header, no user, no response and no `next` call yet |
| AuthMiddleware.Authenticate | src/presentation/middleware/authMiddleware.ts:18-77 | on success the user is attached and `next` called once; on failure only the response is written |
| RoleMiddleware.FirstForPair | src/presentation/middleware/roleMiddleware.ts:32-49 | `None` iff no row belongs to the pair; otherwise the earliest row that does |
| RoleMiddleware.RoleGate | src/presentation/middleware/roleMiddleware.ts:17-63 | 401 without a user and 500 on a failed query; 403 iff the pair has no row; otherwise admits iff the first row's level is one of the required levels |
| RoleMiddleware.FirstRowDecides | src/presentation/middleware/roleMiddleware.ts:49-53 | only the first row of the pair matters |
| RoleMiddleware.NoLevelHierarchy | src/presentation/middleware/roleMiddleware.ts:51 | an Owner row does not pass a gate that requires Editor |
| RoleMiddleware.AdminGate | src/presentation/middleware/roleMiddleware.ts:66 | admits iff the first row of the pair has level "Admin" |
| SharePermissionMiddleware.ShareGate | src/presentation/middleware/sharePermissionMiddleware.ts:13-64 | 401 without a user, 500 on a failed query; admits iff the first row is Owner or Editor; otherwise one 403 message |
| SharePermissionMiddleware.ShareGateIsRoleGate | src/presentation/middleware/sharePermissionMiddleware.ts:42-44 | the share gate admits exactly when the role gate for Owner and Editor does |
| PermissionService.FindUserByEmail | src/domain/services/permissionService.ts:76-96 | `None` iff no email is exactly equal; otherwise the first such user |
| PermissionService.SetLevel | src/domain/services/permissionService.ts:98-113 | every row of the pair takes the level; nothing else changes |
| PermissionService.SetLevelWithoutRows | src/domain/services/permissionService.ts:98-113 | an update for a pair with no rows changes nothing |
| PermissionService.SetLevelFirstRow | src/domain/services/permissionService.ts:98-113 | after the update, the pair's first row exists iff it did before, and carries the new level |
| PermissionService.UpdatePermission | src/domain/services/permissionService.ts:98-113 | the table becomes `SetLevel` of the old table |
| PermissionService.SharePermission | src/domain/services/permissionService.ts:115-131 | one row appended under the fresh id |
| PermissionService.ShareDocumentWithUser | src/domain/services/permissionService.ts:23-74 | missing email and unknown user fail with no change; otherwise the update, or the insert when the update throws, and the DTO with the level (default "Viewer"); rejected with no change when both throw |
| UserService.Secret | src/application/services/userService.ts:22 | a truthy `JWT_SECRET` is used as given; otherwise "your_jwt_secret" |
| UserService.Login | src/application/services/userService.ts:101-135 | one failure message for every refusal; succeeds iff the user matches and the password compares; a one-hour token over string claims |
| UserService.BuildNewUser | src/application/services/userService.ts:36-46 | the password, username and email are checked in that order; then always the empty-id error |
| UserService.RegisterNewUser | src/application/services/userService.ts:31-64 | always throws, with the first rejection of the input |
| UserService.RegisterNewAdmin | src/application/services/userService.ts:66-99 | always throws, with the first rejection of the input |
| UserService.RegistrationRoleIrrelevant | src/application/services/userService.ts:31-99 | both registrations end identically |
| UserService.ParseUpdate | src/application/services/userService.ts:189-194 | accepted iff each truthy password, email and role is valid; otherwise the first failing check's message |
| UserService.Merge | src/application/services/userService.ts:201-207 | falsy fields keep the stored values, truthy ones replace them; a missing role becomes "User" |
| UserService.UpdateUser | src/application/services/userService.ts:184-230 | a rejected field throws; an unknown user fails; a raised update fails with its message; otherwise the merged user is written and returned |
| UserService.DeleteUser | src/application/services/userService.ts:232-250 | a raised error fails with its message; otherwise the rows are removed, and "User not found" iff there were none |
| DocumentService.CreateDocument | src/application/services/documentService.ts:30-65 | always throws: with the first empty field, else with the empty path |
| DocumentService.PersistNewDocument | src/application/services/documentService.ts:45-64 | a taken id fails with no change; otherwise the row plus an Owner permission for the creator; permission levels stay known |
| DocumentService.GetDocument | src/application/services/documentService.ts:68-81 | fails iff no row has the id; otherwise the DTO of a row with it |
| DocumentService.SnapshotRestores | src/application/services/documentService.ts:96-113 | writing back every field of an edited copy gives that copy, with the stored timestamps |
| DocumentService.Edited | src/application/services/documentService.ts:96-113 | each truthy field replaced together with supplied tags; `updatedAt` stamped iff anything was |
| DocumentService.ApplyEdits | src/application/services/documentService.ts:96-113 | the entity ends in the `Edited` state |
| DocumentService.UpdateDocument | src/application/services/documentService.ts:84-125 | an unknown id and a raised update fail with no change; otherwise the row changes in exactly the supplied fields |
| DocumentService.DeleteDocument | src/application/services/documentService.ts:128-146 | an unknown id fails; otherwise the row is removed and its old DTO returned; no row with the id remains |
| DocumentService.UploadDocument | src/application/services/documentService.ts:148-194 | an unknown id fails; an empty path throws; otherwise only the path is written |
| TagService.Report | src/application/services/tagService.ts:16-41 | a throw becomes the operation's fixed failure, a null result "Document not found", a row success |
| TagService.AddNewTag | src/application/services/tagService.ts:16-41 | an invalid tag throws; a missing document or duplicate tag fails with no change; otherwise the tag is appended |
| TagService.UpdateTag | src/application/services/tagService.ts:43-71 | invalid tags throw; a missing document or tag fails; otherwise the first occurrence is replaced |
| TagService.DeleteTag | src/application/services/tagService.ts:73-98 | an invalid tag throws; a missing document fails; otherwise every occurrence is removed |
| DownloadService.Secret | src/application/services/downloadService.ts:17 | a truthy `JWT_SECRET` is used as given; otherwise "your_default_jwt_secret" |
| DownloadService.LinkLifetime | src/application/services/downloadService.ts:18 | an unset expiry is fifteen minutes |
| DownloadService.GenerateDownloadLink | src/application/services/downloadService.ts:29-67 | an empty id, then an unknown one, fail; otherwise the link carries a token for the file id alone |
| DownloadService.FileOf | src/application/services/downloadService.ts:75-90 | a payload without a string `fileId` finds no document |
| DownloadService.ServeFileByToken | src/application/services/downloadService.ts:69-121 | expired and invalid tokens get their own messages; a raised lookup or file error the generic one; otherwise the fixed served path, whatever the document |
| DownloadService.LinkServesUntilExpiry | src/application/services/downloadService.ts:29-121 | a generated link serves its file until its lifetime ends, and reports expiry afterwards |
| PaginationService.Offset | src/application/services/paginationService.ts:33 | never negative for a valid page |
| PaginationService.TotalPages | src/application/services/paginationService.ts:45 | the smallest page count whose pages cover all items; zero iff there are no items |
| PaginationService.NextPageFollows | src/application/services/paginationService.ts:33 | page p+1 starts where page p ends |
| PaginationService.PastLastPageEmpty | src/application/services/paginationService.ts:33-45 | a page after the last one starts past the end of the table |
| PaginationService.GetPaginatedDocuments | src/application/services/paginationService.ts:25-56 | a store fault fails; otherwise the DTOs of the window, exactly `min(limit, count - offset)` of them and none past the end, with count, page count and page number |
| PaginationService.GetPaginatedUsers | src/application/services/paginationService.ts:58-88 | a store fault fails; otherwise the DTOs of the window, exactly `min(limit, count - offset)` of them and none past the end, with count, page count and page number |
| PaginationController.TrimStart | src/presentation/controllers/paginationController.ts:24-33 | a suffix of the input with no leading whitespace, after whitespace only |
| PaginationController.DigitPrefix | src/presentation/controllers/paginationController.ts:24-33 | the longest leading run of digits |
| PaginationController.Decimal | src/presentation/controllers/paginationController.ts:24-33 | a non-empty digit string |
| PaginationController.NumeralOfDecimal | src/presentation/controllers/paginationController.ts:24-33 | a number's decimal digits read back as the number |
| PaginationController.DigitPrefixOfNumeral | src/presentation/controllers/paginationController.ts:24-33 | the digit prefix of a numeral followed by a non-digit is the numeral |
| PaginationController.TrimStartOfPadding | src/presentation/controllers/paginationController.ts:24-33 | trimming whitespace padding leaves the rest |
| PaginationController.ParseIntPrefix | src/presentation/controllers/paginationController.ts:24-33 | leading whitespace, then a decimal, then anything not starting with a digit, parses to that number |
| PaginationController.ParseInt | src/presentation/controllers/paginationController.ts:24-25 | a number only when the trimmed start is a digit or a sign; a negative number only after '-' |
| PaginationController.ParseIntSigned | src/presentation/controllers/paginationController.ts:24-25 | a sign before a decimal gives its number, negated for '-' ("+12" is 12, "-3" is -3) |
| PaginationController.ParseIntLoneSign | src/presentation/controllers/paginationController.ts:24-25 | a sign with no digit after it is NaN |
| PaginationController.ParseIntNaN | src/presentation/controllers/paginationController.ts:24-33 | a string whose trimmed start has no digits after the sign is NaN |
| PaginationController.ValidatePaginationParams | src/presentation/controllers/paginationController.ts:20-36 | the page, then the limit, must parse to a number of at least 1, else its error; on success both values |
| PaginationController.Parameters | src/presentation/controllers/paginationController.ts:40-45 | each absent parameter defaults on its own, the page to "1" and the limit to "10", and the pair goes to validation; page 1 of 10 with neither; present values, the empty string included, are validated as given, so an empty page is refused |
| PaginationController.GetPaginatedDocuments | src/presentation/controllers/paginationController.ts:38-66 | a validation error gives 500 with its message; a service failure 400; otherwise 200 with the page |
| PaginationController.GetPaginatedUsers | src/presentation/controllers/paginationController.ts:68-96 | a validation error gives 500 with its message; a service failure 400; otherwise 200 with the page |
| PermissionController.CheckBody | src/presentation/controllers/permissionController.ts:29-43 | 400 without an email or level, then 400 for a level other than Editor or Viewer; passes exactly the bodies with both |
| PermissionController.ShareDocument | src/presentation/controllers/permissionController.ts:21-70 | a rejected body changes nothing; an unknown user gives 500; otherwise the service's update or insert and 200 with the permission; permission levels stay known |
| SearchService.AdvancedSearch | src/application/services/searchService.ts:19-59 | a search error fails with the fixed message; no match fails; otherwise every found document's DTO, in order, with their count |
| SearchService.ResultsRebuildDocuments | src/application/services/searchService.ts:43 | each returned DTO maps back to the document found |
| DocumentController.TagsArray | src/presentation/controllers/documentController.ts:29 | an array is kept; a string becomes comma-free fields whose join is the string; absent tags crash |
| DocumentController.JoinedTagsArrive | src/presentation/controllers/documentController.ts:29 | tags sent as one comma-joined string arrive as the list that was joined |
| DocumentController.UploadExtension | src/presentation/controllers/documentController.ts:129 | a dot-free suffix of the name: the whole name without a dot, otherwise the text after the last dot |
| DocumentController.UploadExtensionOfSuffix | src/presentation/controllers/documentController.ts:129 | "stem.ext" has extension "ext" |
| DocumentController.UploadPath | src/presentation/controllers/documentController.ts:134 | `uploads/` followed by the name, so never empty |
| DocumentController.UploadTags | src/presentation/controllers/documentController.ts:131 | no tags for a falsy field; otherwise fields whose join is the field |
| DocumentController.CreateNewDocument | src/presentation/controllers/documentController.ts:18-53 | 401 without a caller; a crash without tags; otherwise 500 with the service's rejection; nothing is written |
| DocumentController.GetDocument | src/presentation/controllers/documentController.ts:55-67 | 404 iff the id is unknown; otherwise 200 with the document |
| DocumentController.UpdatesOf | src/presentation/controllers/documentController.ts:76-82 | the body's fields, with the tags always supplied |
| DocumentController.UpdateDocument | src/presentation/controllers/documentController.ts:69-97 | a crash without tags; 404 for an unknown id or a raised update; otherwise 200 with the updated document |
| DocumentController.DeleteDocument | src/presentation/controllers/documentController.ts:99-111 | 404 for an unknown id, with no change; otherwise 200, and exactly the rows with the id are removed and every other row is kept |
| DocumentController.UploadDocument | src/presentation/controllers/documentController.ts:113-168 | 401 without a caller, 400 without a file, 500 for an unknown document; otherwise 201, with only the path written |
| AccessControl.FallbacksDiffer | src/infrastructure/auth/handlers/JWTAuthHandler.ts:9 | the three fallback secrets are pairwise different |
| AccessControl.ConfiguredSecretShared | src/application/services/userService.ts:22 | a configured secret is the one all three issuers use |
| AccessControl.UserServiceTokenRefusedByDefault | src/presentation/middleware/authMiddleware.ts:39-45 | without a configured secret, a `UserService` login token is refused as invalid |
| AccessControl.UserServiceTokenAcceptedWhenShared | src/presentation/middleware/authMiddleware.ts:39-66 | with a configured secret, a `UserService` login token authenticates its user |
| AccessControl.FetchByIdFindsStored | src/infrastructure/repository/userRepository.ts:37-55 | a stored user is found by its id |
| AccessControl.LoginsAgree | src/application/services/userService.ts:101-135 | both logins accept the same credentials; their username claims differ in shape |
| AccessControl.CapabilityRefusedByMiddlewareByDefault | src/application/services/downloadService.ts:17 | without a configured secret, a download token is refused by the authentication middleware |
| AccessControl.CapabilityCarriesNoIdentity | src/presentation/middleware/authMiddleware.ts:51-54 | with a configured secret, a fresh download token is refused for its missing identity |
| AccessControl.IdentityRefusedAtDownloadByDefault | src/application/services/downloadService.ts:75-120 | without a configured secret, an identity token does not open a download |
| AccessControl.IdentityNamesNoFile | src/application/services/downloadService.ts:75-120 | with a configured secret, an identity token names no file and serves nothing |
| AccessControl.AdminGateClosed | src/presentation/middleware/roleMiddleware.ts:66 | while every stored level is Owner, Editor or Viewer, the admin gate admits nobody |
| AccessControl.ServiceAloneGrantsAdmin | src/domain/services/permissionService.ts:98-113 | the service by itself can write "Admin", which then opens the admin gate |
| AccessControl.SetLevelKeepsLevelsKnown | src/domain/services/permissionService.ts:98-113 | setting a known level keeps every level known |

## Left out

- Serialisation and signing of tokens are abstract: `Codec` is a parameter. `Jwt.Sound` assumes its parser inverts its printer and that every printed token is non-empty and free of spaces; `AuthMiddleware.BearerTokenOfHeader` and the results built on it rely on the latter. HMAC and base64url are not modelled.
- Password hashing (bcrypt) is the abstract `Hasher`. `CreatedPasswordMatches` assumes the hasher's compare accepts its own hashes.
- The exact texts of jsonwebtoken's error messages are not modelled; only the error names are.
- `LINK_EXPIRATION` is read as a number of seconds. The `ms`-style duration parsing of jsonwebtoken is not modelled.
- A failing `jwt.sign` in `generateDownloadLink`, and its "Failed to generate download link." reply, are not modelled.
- The SQL of `searchDocuments` is not modelled. `SearchService.AdvancedSearch` takes the search as a function parameter, which may also fail.
- The file system (multer storage, `fs.existsSync`, `path.join` normalisation) and the working directory are left out. The served path is the plain concatenation under `downloads`, with the working directory as a parameter.
- `toLowerCase` is modelled for ASCII letters only. The whitespace of `parseInt` is a fixed character set (section 19.2.5 of ECMA-262). JavaScript numbers are unbounded integers, so precision loss after 2^53 is not modelled.
- Concurrency, `async`/`await` interleavings, logging and `console` output are left out.
- Routes, dependency injection (`inversify/config.ts`), `drizzle.config.ts`, the seed data and the built `dist` files are not part of this model.
- The thin user, download, tag and search controllers are not modelled; they only forward to the services modelled here.
- The database's own error texts are placeholders (`InsertFailed`, `DuplicateKey`). `DocumentRepository.NoValuesToSet` is the query builder's error for an update with nothing to write; no modelled caller reaches it, since every caller supplies the tags or a non-empty value.
- Some database calls have no error input, so in the model they cannot fail: `findUserByEmail` in `shareDocumentWithUser` (src/domain/services/permissionService.ts:37, before its `try`), `fetchById` in `updateUser` (src/application/services/userService.ts:196), `assignOwnerPermission`, `findDocumentById` and `delete` in the document service (src/application/services/documentService.ts:53, 70, 89, 132, 141, 166), and `findDocumentById` in `generateDownloadLink` (src/application/services/downloadService.ts:41). A database error raised there is not modelled.
- Jwt.VerifyToken: returns exactly the signed claims. The payload jsonwebtoken decodes also carries `iat` and `exp`, which are not modelled. Every modelled token is signed with an expiry, so a token without `exp`, which never expires, is not modelled either.
- The `createdAt`/`updatedAt` columns of the permission rows are not modelled.
- Request bodies hold strings or string arrays only. Other JSON values in a body are not modelled.
- `utils/monads` is not part of this model. The document controller's test of `result.error` is read as "the result is a failure", and `error.message` as the failure's text. Every other consumer of a service result reads a failure through `.value` instead. If `Failure` has no `error` field, the controller's 404 and 500 branches never fire, and failures reach the success replies; the model does not follow that reading.
- Stored rows are assumed valid: the tables hold records whose value objects are valid by type. The repositories rebuild the value objects on every read, for example `new FilePath(x.filePath || "")`, and would throw on an invalid stored row; such a row cannot be represented here.
- The `documentId` field of the upload's 201 reply is not kept separately; it equals `document.id`.
- Row order is the order of the sequence. An SQL `select` without `order by` may return rows in any order, which is not modelled.
- The `Tag` value object is not part of this model. `TagService` takes its constructor as the function `tagOf`.
- Date objects are integer seconds, and uuids are parameters.
- Some `Ok(None)`/null-result branches cannot be reached once the preceding lookup has succeeded, so they produce no result in the model. These include the "Failed to update document" and "Failed to upload document" failures, the tag service's null result, and `updateUser`'s second "User not found". The success paths of `registerNewUser`, `registerNewAdmin` and `createDocument` are unreachable too, so their replies are not modelled.
- PaginationService.GetPaginatedDocuments: requires a page and limit of at least 1, which is weaker than the source's contract. Its only caller validates both first.
- PaginationService.GetPaginatedUsers: requires a page and limit of at least 1, which is weaker than the source's contract. Its only caller validates both first.
- PaginationService.TotalPages: requires a limit of at least 1, which is weaker than the source's contract. Its callers only pass validated limits.
