# Verified model of the backend's decision core

The project models the parts of the backend that decide something and that other code relies on being right:
who may do what to which document, what a signed token or a stored error record says, what a virus scanner is
told and answers, which sessions are alive, what configuration is accepted, and when a benchmark run ends.
Every result holds for all inputs, all database contents, or all runs of operations.

## The pieces

**Authorization** (`Policy`, `PolicyTheorems`, `Monotonicity`, `Permissions`, `Database`, `ContextBuilder`,
`Authorization`, `DocumentIds`, `Adapters`, `DecisionLaws`, `RowLaws`, `AccessLaws`). The policy engine is a chain of
thirteen rules with early exits, a trace, and two places where a role fallback replaces missing permissions. `Policy.Judge` gives each rule's verdict on its own,
`Policy.Decide` is a first-match interpreter over the ordered list of rules, and the imperative
`Policy.Authorize` is proved to return exactly what the interpreter returns: result, reason, rule and trace.
The questions that people ask of such a chain are then answered by theorems about the interpreter:

- `AllowedMeansMayAccess` replaces the chain by one closed formula (`MayAccess`) with no order in it.
- `GivingMoreRevokesExactly` compares two runs in which the second gives the subject at least what the first does:
  roles, permissions, collections, explicit allows, connector entries. Access is lost in exactly two ways: the
  collection rule comes to apply and does not reach the subject, or a first connector entry appears that is not
  the subject's. `Monotone` is what remains, and the single grants that can revoke each have their exact condition:
  `chat:use_collections`, a first connector item, a first connector user (also told from the appended row), and
  resolving any permissions where the fallback to the roles had been used.
- The batched context builder reads the same rows as the one-document builder, in at most five queries, and the
  list view keeps exactly the documents that evaluating each one on its own would keep. Everything it shows can be
  opened. It shows everything that can be opened exactly when decisions are enforced, or the principal is an admin,
  or there is nothing to deny: the list is filtered even when decisions are only logged.
- The short cut that skips the engine for owners and admins agrees with the engine exactly when the principal is
  not an API key and spells its organization canonically.
- `DecidedByRows` goes the whole way for a document: which rule settles a request, and with what reason, is read off
  the rows of the grant, deny, collection, connector, member and role tables, column by column. `GuardOpensExactly`,
  `ListShowsExactly` and `AcceptedIdsServed` say the same of the guard, the list view and the check of identifiers.

The database is a record of row sequences. A query is a filter over a sequence; the batched form filters pairs
and groups them in a loop. `DbSession` counts the queries.

**Codecs** (`Base64Url`, `Base64Laws`, `Tokens`, `TokenLaws`, `ClamAv`, `ScanLaws`, `DocumentErrors`).
Base64url without padding (section 5 of RFC 4648, section 2 and Appendix C of RFC 7515) is encoded by groups and decoded by the lenient four-state machine that the
source's library runs, which skips characters outside the alphabet. Tokens are JWS compact serializations
(section 7.1 of RFC 7515) with the claim checks of section 4.1 of RFC 7519. The scanner conversation is modelled
against an independent reader of length-prefixed frames. Stored document errors are normalised records.

**State** (`RefreshTokens`, `Sessions`, `SessionLaws`, `SessionPages`, `SettingLists`, `SettingLaws`, `AppSettings`,
`ConsistencyLaws`, `Benchmark`, `BenchmarkLaws`). The refresh-token registry is
a class whose ghost log is the unpruned history. The session table is a class whose rows are updated in place.
Settings validation is a class method that rewrites its own fields while it checks them. The benchmark loop polls
a service and a clock.

A method is proved against a specification function, and the modules whose names end in `Laws` say what those
functions mean in columns, characters, numbers and the source's own words, one such function at a time.

`Wrappers`, `Arithmetic`, `Text`, `TextLaws`, `Lists` and `Json` hold what the others share.

## Assumptions that appear as hypotheses

- `UuidCodec.Lawful`: parsing the text of an identifier gives the identifier back, and the text is not empty.
  Parsing may accept other spellings.
- `Codec.Invertible`: the JSON text of an object of texts, integers, booleans and nulls reads back as that object;
  only such objects are written here. Nothing is assumed about HMAC.
- `Tables.KeysUnique`: primary keys and the unique constraints of the schema.
- `CaseMap.Lawful`: case mapping settles after one step and adds neither white space nor commas, and leaves
  `lax`, `strict` and `none` alone. `LawfulUpper` fixes upper case on ASCII.
- `ROLE_PERMISSIONS`, the resolver of accessible collections and SHA-256 are arbitrary functions or maps.
- One request reads one clock value `now`, and a query returns its rows in table order, except that the listings
  behind the pages of sessions may order rows of equal creation time differently each time.
- `ClockRuns`: sleeping for the poll interval advances the monotonic clock by at least that much, and with an
  interval of zero the clock passes the deadline at some reading.

## Where the code differs from what is written about it

- The docstring of the batch builder promises four queries; the code issues up to five.
- Validation accepts a required list that is missing altogether as an empty list, and refuses the same empty list
  when it is given (`SettingLists.NormalizeAgain`).
- When the wall clock is set back, a revocation in force can be forgotten and an expired one upheld;
  `RefreshTokens.AnswersAgreeExactly` says when the answer is right for every clock.
- Pages of sessions are ordered by creation time alone. A tie across a page boundary can repeat one session and
  miss another (`SessionPages.PagesExactly`); the number of rows shown is always right.
- With enforcement switched off the list of documents is still filtered (`Authorization.ListMatchesGuardExactly`).
- A negative chunk size makes the scanner client send no content at all (`ClamAv.NoChunksReadEmpty`); the
  configuration does not admit one.

## Model

| member | source | states |
|---|---|---|
| Policy.Authorize | backend/app/auth/policy_engine.py:342-522 | The imperative chain with its growing trace and early returns gives the result, reason, matched rule and whole trace of the first-match interpreter over the ordered rules. |
| Policy.AuthorizeInTenant | backend/app/auth/policy_engine.py:411-429 | The same for the part of the chain from the system rule to the admin override. |
| Policy.AuthorizeMember | backend/app/auth/policy_engine.py:431-439 | The same for the explicit denies, from all three places they can stand in. |
| Policy.AuthorizeUndenied | backend/app/auth/policy_engine.py:441-465 | The same for the uploader's delete, which leaves no pass entry, and the explicit allows. |
| Policy.AuthorizeByCollection | backend/app/auth/policy_engine.py:467-486 | The same for the collection rule, which settles the matter in both directions once it applies. |
| Policy.AuthorizeByConnectorAcl | backend/app/auth/policy_engine.py:488-500 | The same for the connector rule, including its two trace entries. |
| Policy.AuthorizeByRole | backend/app/auth/policy_engine.py:502-522 | The same for the feature gate, the permission mapping with its missing entry, and the default deny. |
| Policy.CombineRoles | backend/app/auth/policy_engine.py:468-472 | The loop over roles collects exactly what the roles grant, whatever order they are visited in. |
| Policy.LegacyRuleMatches | backend/app/auth/policy_engine.py:384-394 | True exactly when some entry names this type, resource and action. |
| Policy.CollectionsOverlap | backend/app/auth/policy_engine.py:481-483 | True exactly when some collection of the resource is reachable from either list of the subject. |
| Policy.ResolvedOrRoles | backend/app/auth/policy_engine.py:450-455 | An empty set of resolved permissions is replaced by what the roles grant. |
| PolicyTheorems.MatchedRuleIsFirst | backend/app/auth/policy_engine.py:396-522 | The matched rule fires, every earlier rule passes, and result and reason are that rule's own. |
| PolicyTheorems.AllowedMeansMayAccess | backend/app/auth/policy_engine.py:342-522 | The whole chain allows exactly when one order-free formula over gates, roles, lists, collections and permissions holds. |
| PolicyTheorems.TraceShape | backend/app/auth/policy_engine.py:352-382 | The trace lists rules in chain order, none after the matched one, and its only terminal entry is the last, naming the matched rule and its reason. |
| Monotonicity.GivingMoreRevokesExactly | backend/app/auth/policy_engine.py:431-522 | Two runs, the second giving at least as much: allow turns into deny exactly when the connector or role rule had allowed, no explicit allow or admin role stands in, and collections newly decide without reaching the subject or a first connector entry is not the subject's. |
| Monotonicity.GivingMoreCanRevoke | backend/app/auth/policy_engine.py:488-500 | For any names, a member allowed by the role rule who loses access by a first connector entry. |
| Monotonicity.Monotone | backend/app/auth/policy_engine.py:431-522 | More of anything, non-empty connector lists included, never turns allow into deny while collections do not newly decide and the connector filter is not newly switched on. |
| Monotonicity.CollectionPermissionCanRevoke | backend/app/auth/policy_engine.py:474-486 | Gaining chat:use_collections turns allow into deny exactly when the resource sits in collections the subject cannot reach and a later rule had allowed it. |
| Monotonicity.FirstAclItemRevokes | backend/app/auth/policy_engine.py:488-500 | Enlarging the connector items of a subject revokes exactly when they were empty, no user is named on the connector, the resource is not among them and the role rule had allowed. |
| Monotonicity.FirstAclUserRevokes | backend/app/auth/policy_engine.py:488-500 | Enlarging the users named on a connector revokes exactly when there were none, the subject is not among them and has no items, and the role rule had allowed. |
| Monotonicity.OtherPermissionsRevokeExactly | backend/app/auth/policy_engine.py:450-522 | Resolving other permissions, in particular any where the roles had been the fallback, revokes exactly when the rule that had allowed misses its permission and no other rule makes up for it, told per rule. |
| PolicyTheorems.UnresolvedEqualsBuiltin | backend/app/auth/policy_engine.py:450-472 | Leaving the permissions unresolved gives the same result and trace as filling in what the roles grant. |
| PolicyTheorems.FilterAccessibleResources | backend/app/auth/policy_engine.py:524-538 | The filter loop returns the resources the interpreter allows. |
| PolicyTheorems.FilterDistributes | backend/app/auth/policy_engine.py:534-538 | Filtering two lists put together is filtering each and putting the results together. |
| PolicyTheorems.FilterExact | backend/app/auth/policy_engine.py:534-538 | What is kept stands at exactly the allowed positions, in order and with multiplicity. |
| PolicyTheorems.AllowedPositionsExact | backend/app/auth/policy_engine.py:534-538 | Those positions increase strictly and are all positions at which access is allowed. |
| PolicyTheorems.FilterIdempotent | backend/app/auth/policy_engine.py:524-538 | Filtering a filtered list changes nothing. |
| PolicyTheorems.FilterRespectsGates | backend/app/auth/policy_engine.py:396-429 | Only known, non-system resources of the subject's organization or of none get through, and for an owner or admin exactly those. |
| DecisionLaws.DecidedByFields | backend/app/auth/policy_engine.py:396-522 | For every question the settling rule and its reason are those of one case distinction over the fields of subject and resource, role names and permissions written out. |
| DecisionLaws.ResultIdentifies | backend/app/auth/policy_engine.py:355-382 | The result carries the request, user, organization, resource and action asked about. |
| DecisionLaws.DocumentPermissions | backend/app/auth/policy_engine.py:247-318 | Which kinds and actions take documents:view, documents:upload, documents:manage or documents:delete. |
| DecisionLaws.CollectionPermissions | backend/app/auth/policy_engine.py:260-267 | Which actions on a collection take which permission. |
| DecisionLaws.ChatPermissions | backend/app/auth/policy_engine.py:247-318 | Which kinds and actions take chat:use or chat:manage_sessions. |
| DecisionLaws.EvaluationPermissions | backend/app/auth/policy_engine.py:247-318 | Which kinds and actions take one of the evaluation permissions. |
| DecisionLaws.GraphPermissions | backend/app/auth/policy_engine.py:282-292 | Which actions on graph entities and evidence take which permission. |
| DecisionLaws.ApiKeyPermissions | backend/app/auth/policy_engine.py:312-317 | Which actions on an API key take which permission. |
| DecisionLaws.UnmappedActions | backend/app/auth/policy_engine.py:247-318 | The pairs of kind and action that the table does not have, and no others. |
| DecisionLaws.TraceContents | backend/app/auth/policy_engine.py:352-382 | Exactly which entries stand in the trace, by what was asked and which rule settled it. |
| DecisionLaws.TraceRises | backend/app/auth/policy_engine.py:352-382 | The entries stand in the order of the rules, none twice. |
| Permissions.GetBuiltinPermissions | backend/app/auth/permission_service.py:47-53 | The loop collects exactly the union of what the roles grant. |
| Permissions.GetUserPermissions | backend/app/auth/permission_service.py:13-45 | Roles, the rows of the custom role and the grants of its base role, and nothing else. |
| RowLaws.UserPermissionsOnRows | backend/app/auth/permission_service.py:13-45 | A permission is resolved exactly when a role grants it, a row of the custom role lists it, or the base role of that custom role grants it. |
| Database.GroupPairs | backend/app/auth/resource_context_builder.py:75-78 | Grouping with setdefault and append leaves under each key that key's values in row order. |
| Database.GroupEqualsSelect | backend/app/auth/resource_context_builder.py:54-78 | One group of a batched selection equals the selection for that key alone, order and duplicates included. |
| ContextBuilder.BatchGetCollectionIds | backend/app/auth/resource_context_builder.py:62-78 | For every document asked for, the entry is what the one-document query returns, in one query or none. |
| ContextBuilder.BatchGetExplicit | backend/app/auth/resource_context_builder.py:88-147 | For every resource asked for, the entry lists the users of its active, unexpired user rows. |
| ContextBuilder.BatchGetConnectorAclUserIds | backend/app/auth/resource_context_builder.py:172-194 | For every connection asked for, the entry is what the one-connection query returns. |
| ContextBuilder.GetConnectionIdForExternalItem | backend/app/auth/resource_context_builder.py:197-205 | At most one row matches, and the result is its connection. |
| ContextBuilder.ItemDict | backend/app/auth/resource_context_builder.py:208-221 | The dict of connections holds an item exactly when the item has a connection, and holds that one. |
| ContextBuilder.BuildDocumentContext | backend/app/auth/resource_context_builder.py:227-280 | The one-document builder computes the specified context in three to five queries. |
| ContextBuilder.BuildDocumentContextsBatch | backend/app/auth/resource_context_builder.py:283-361 | Element i of the batch is the one-document context of document i, duplicates and documents without a connector included. |
| ContextBuilder.BatchQueries | backend/app/auth/resource_context_builder.py:294-334 | The number of queries the batch issues is at most five for every list, and none for the empty one. |
| RowLaws.ExplicitUsers | backend/app/auth/resource_context_builder.py:98-147 | A user is denied, or allowed, explicitly exactly when some row has that organization, document, user, an active status, and no expiry or a later one than now. |
| RowLaws.CollectionsOf | backend/app/auth/resource_context_builder.py:49-60 | The collections of a document are exactly those some row puts it into. |
| RowLaws.ConnectorOnRows | backend/app/auth/resource_context_builder.py:153-205 | The connector is that of the document's external item, and the users on it are exactly those an active allowing user row of the organization names. |
| RowLaws.ContextIdentifies | backend/app/auth/resource_context_builder.py:227-280 | Type, identifier, organization, owner and accessible collections of a context. |
| Authorization.BuildSubject | backend/app/auth/authorization_service.py:63-102 | The subject carries the key's permissions and no roles, or the roles and everything they and the membership's custom role grant, read in none, one or three queries. |
| Authorization.ResolutionIsFinal | backend/app/auth/authorization_service.py:92-102 | The engine's own fallback never adds to the permissions of a subject built by the service, even when they are empty. |
| RowLaws.PermissionsOnRows | backend/app/auth/authorization_service.py:63-102 | A principal holds exactly what its key lists or, without a key, what its roles and the custom role of its membership row grant. |
| RowLaws.SubjectIdentifies | backend/app/auth/authorization_service.py:68-102 | User, organization and roles of the subject; an API key has no roles, and nobody comes with lists of its own. |
| Authorization.RequirePermission | backend/app/auth/dependencies.py:303-362 | Passes exactly when the trimmed, non-blank requirements are included in what the service resolves for the principal, with the queries that takes. |
| RowLaws.RequirementOnRows | backend/app/auth/dependencies.py:314-362 | Every required text that is not blank has to be held, without its white space, and nothing else is asked. |
| Authorization.RequireDocumentPolicyAccess | backend/app/auth/dependencies.py:440-529 | The guard answers forbidden, not found or the document as specified, enforcement switched off included, in at most nine queries besides the resolver's. |
| Authorization.Evaluate | backend/app/auth/dependencies.py:479-505 | Building context and subject from the rows and running the imperative chain decides as the full evaluation does. |
| Authorization.AdminShortcutExact | backend/app/auth/dependencies.py:465-477 | The full evaluation ends at the admin override exactly when the principal is no API key and its organization text is canonical. |
| Authorization.AdminShortcutSound | backend/app/auth/dependencies.py:465-527 | Under canonical organization text and role-less keys, the guard with and without the short cut answer alike. |
| AccessLaws.DecidedByRows | backend/app/auth/authorization_service.py:63-115 | For every document, principal and action the settling rule and its reason, from the rows of the tables. |
| AccessLaws.CollectionRowAdmits | backend/app/auth/policy_engine.py:474-486 | A member with chat:use_collections, not denied and of this organization, gets into every document that some row puts into a collection the resolver names. |
| AccessLaws.CollectionRowsRefuse | backend/app/auth/policy_engine.py:474-486 | When the document has collection rows and none of them is reached, and nothing earlier decides, the reason is CollectionNotAccessible. |
| AccessLaws.GuardOpensExactly | backend/app/auth/dependencies.py:440-529 | The guard opens a document exactly when it is the row with the parsed identifier in the parsed organization and the rows allow it, the principal is an admin, or nothing is enforced. |
| AccessLaws.GuardForbidsExactly | backend/app/auth/dependencies.py:49-61 | Forbidden exactly without a usable organization; every other refusal is not found. |
| AccessLaws.DenyRowBlocksMember | backend/app/auth/authorization_service.py:104-115 | A row of the deny table with these columns and no expiry or a later one keeps a principal without an admin role out. |
| AccessLaws.ExplicitAllowHasGrantRow | backend/app/auth/authorization_service.py:104-115 | An explicit allow always goes back to a row of the grant table with these columns and no expiry or a later one. |
| Authorization.FirstAclRowLocksOut | backend/app/auth/resource_context_builder.py:153-169 | Appending one allowing row to a connection takes its documents away exactly from other users whom the role rule had let in, when it is the first such row. |
| Authorization.FilterForPrincipal | backend/app/auth/authorization_service.py:117-131 | The service's filter is the engine's filter for the subject it resolves, which it resolves only for a non-empty list. |
| Authorization.ListVisibleDocuments | backend/app/interfaces/http/documents.py:773-821 | The list view refuses without usable identity, keeps everything for admins and otherwise exactly the documents the full evaluation allows to be listed, in order, in at most eight queries besides the list's own and the resolver's. |
| Authorization.ListAgreesWithDetail | backend/app/interfaces/http/documents.py:808-821 | Keeping documents by the identifiers that survive the batch filter is keeping the documents that the full evaluation allows one by one, for the same action. |
| Authorization.ListAndViewAlike | backend/app/auth/policy_engine.py:249-250 | For every document and principal, listing and viewing are allowed alike. |
| Authorization.OpensExactly | backend/app/auth/dependencies.py:440-529 | The guard opens a document of the principal's organization for viewing exactly to admins, to those it may be listed to, and to all when not enforcing. |
| Authorization.ListedOpens | backend/app/interfaces/http/documents.py:800-821 | Whatever the list view shows the guard opens, enforcement on or off. |
| Authorization.ListMatchesGuardExactly | backend/app/interfaces/http/documents.py:800-821 | The list shows exactly what the guard opens if and only if decisions are enforced, or the principal is an admin, or every document is allowed. |
| AccessLaws.ListShowsExactly | backend/app/interfaces/http/documents.py:772-821 | Which list is refused, and exactly which documents a list shows, from roles and rows. |
| DocumentIds.EnsureDocumentIdsAccess | backend/app/auth/dependencies.py:365-420 | Returns the parsed identifiers without repetitions, or the first reason for refusal in the order in which the source checks. |
| DocumentIds.FirstJoined | backend/app/auth/dependencies.py:392-418 | The joined row is live and its connection active exactly when such an item and connection exist in the organization. |
| DocumentIds.AcceptedListExact | backend/app/auth/dependencies.py:371-420 | An accepted list is distinct, in order of first mention, mentions all that was asked for and nothing else, and every document is usable. |
| AccessLaws.AcceptedIdsServed | backend/app/auth/dependencies.py:371-420 | Every identifier of an accepted list is that of a document row of the principal's own organization whose connector, if it has one, is served. |
| AccessLaws.RefusedIdsExactly | backend/app/auth/dependencies.py:371-420 | Which lists are refused and why: an unreadable text, no organization, a document that is not there or not served. |
| Adapters.Registry.Register | backend/app/auth/source_authorization_adapter.py:78-79 | Registering replaces the adapter of one source type and leaves the others. |
| Adapters.Registry.GetOrDefaultDeny | backend/app/auth/source_authorization_adapter.py:84-89 | The latest adapter registered for the type; if none was, an adapter every context of which is denied to every subject for every action. |
| Adapters.LatestRegistrationWins | backend/app/auth/source_authorization_adapter.py:75-82 | After any run of registrations the dict holds the latest adapter of a type, and nothing for a type without one. |
| Adapters.UnregisteredAlwaysDenied | backend/app/auth/source_authorization_adapter.py:84-113 | A source type nobody registered is denied to every subject, admins included, for every action. |
| Base64Url.EncodeShape | backend/app/auth/token_codec.py:18-24 | Decoding restores exactly the padding that encoding stripped; the length is never 1 modulo 4 and no character is a dot, an equals sign or outside ASCII. |
| Base64Url.DecodePadded | backend/app/auth/token_codec.py:22-24 | The decoder's state machine returns every byte string from its padded text. |
| Base64Url.RoundTrip | backend/app/auth/token_codec.py:18-24 | Decoding the unpadded encoding returns every byte string. |
| Base64Laws.Alphabet | backend/app/auth/token_codec.py:18-24 | The sixty-four characters of the URL-safe alphabet, in order. |
| Base64Laws.GroupSpells | backend/app/auth/token_codec.py:18-24 | Three bytes and their four characters are the same number, and the rest is encoded on its own. |
| Base64Laws.ValueOf | backend/app/auth/token_codec.py:22-24 | The decoder reads the last two digits in both alphabets; no other character has a value. |
| Base64Laws.Skipped | backend/app/auth/token_codec.py:22-24 | On any text: a character without a value is skipped, and so is an equals sign that is not due. |
| Base64Laws.GroupRead | backend/app/auth/token_codec.py:22-24 | On any text: four digits and the three bytes they give are the same number, and the rest is read on its own. |
| Base64Laws.TwoBytesRead | backend/app/auth/token_codec.py:22-24 | Three digits and an equals sign end any text with two bytes, two bits dropped; without it they are an error. |
| Base64Laws.OneByteRead | backend/app/auth/token_codec.py:22-24 | Two digits and two equals signs end any text with one byte; without them they are an error, as is one digit. |
| Tokens.ThreeParts | backend/app/auth/token_codec.py:151-159 | A created token splits into exactly header, claims and signature. |
| Tokens.TokenRoundTrip | backend/app/auth/token_codec.py:113-239 | A token signed with the configured secret decodes to the claims it was made from or to the first refusal its request calls for. |
| Tokens.AcceptedExactly | backend/app/auth/token_codec.py:178-239 | The claims come back if and only if issuer and audience are the deployment's, the time is before expiry plus skew, the type matches and session and token identifiers are not blank. |
| TokenLaws.AcceptedClaimsSay | backend/app/auth/token_codec.py:113-239 | Whenever a created token is accepted, its claims are the request's: organization and email exactly when named, role, times in whole seconds, identifiers, and no other names. |
| TokenLaws.AcceptedTexts | backend/app/auth/token_codec.py:178-239 | For every text: accepted with these claims exactly when it is header, claims and signature joined by dots, signed with the configured secret, HS256 and JWT, and the claims are in order for this use and time. |
| TokenLaws.CreatedExactly | backend/app/auth/token_codec.py:54-56 | A token is made exactly for a subject that is not blank: the text given when it is not empty, otherwise the user id. |
| Tokens.TokenRefusals | backend/app/auth/token_codec.py:218-229 | Expired exactly from expiry plus skew on; refused by the other type's decoder exactly before that. |
| Tokens.FreshTokenUnexpired | backend/app/auth/token_codec.py:129-140 | With a lifetime of at least a second a token is not expired when issued, though the fraction of a second is dropped. |
| Tokens.WrongSecretRefused | backend/app/auth/token_codec.py:189-192 | A token whose signature differs from the configured secret's is refused for its signature. |
| Tokens.NoTokenServesBoth | backend/app/auth/token_codec.py:162-239 | No text at all is accepted by both the access and the refresh decoder, under any settings and at any times. |
| Tokens.AcceptedUse | backend/app/auth/token_codec.py:225-229 | What an accepted text says of its use: the expected type, or for access tokens nothing. |
| ClamAv.SendChunks | backend/app/clients/clamav_client.py:56-59 | The loop sends frames of the chunk size that put together are the content, none empty, only the last one shorter. |
| ClamAv.SendContent | backend/app/clients/clamav_client.py:55-60 | The whole conversation is sent, or refused for a zero or over-long chunk size with nothing but the greeting sent. |
| ClamAv.FramingRoundTrip | backend/app/clients/clamav_client.py:55-60 | A reader of length-prefixed frames recovers exactly the content with nothing left over; 10 + n + 4 * (ceil(n / c) + 1) bytes are sent. |
| ClamAv.NoChunksReadEmpty | backend/app/clients/clamav_client.py:56-60 | A conversation without chunks reads as empty content. |
| ScanLaws.GreetingSpells | backend/app/clients/clamav_client.py:55-55 | The command sent is zINSTREAM and a NUL. |
| ScanLaws.LengthSpells | backend/app/clients/clamav_client.py:58-60 | A length is four digits in base 256, most significant first. |
| ClamAv.ReadResponse | backend/app/clients/clamav_client.py:69-83 | The receive loop gathers up to the end or the first terminator, drops NULs, decodes, trims, and refuses an empty reply. |
| ClamAv.SegmentationInvisible | backend/app/clients/clamav_client.py:72-78 | Every split of a NUL-terminated reply into non-empty segments gathers the same bytes. |
| ScanLaws.GatherExactly | backend/app/clients/clamav_client.py:72-78 | For any segments: all before the first empty one are kept, up to and including the first with a NUL or a line feed. |
| ClamAv.FoundReplyParsed | backend/app/clients/clamav_client.py:85-97 | A trimmed non-empty signature comes back whole, with colons, blanks or FOUND inside it. |
| ClamAv.ReplyMeans | backend/app/clients/clamav_client.py:85-102 | Every reply: clean if and only if its upper case ends in OK, infected if and only if it does not and FOUND occurs, an error if and only if neither holds and ERROR occurs, unexpected otherwise. |
| ScanLaws.SignatureRead | backend/app/clients/clamav_client.py:91-97 | The signature of every infected reply: what stands between the first colon and the last FOUND, without white space, if anything does. |
| ScanLaws.UpperSpells | backend/app/clients/clamav_client.py:86-86 | Upper case is taken character by character. |
| ClamAv.FoundReplyReaches | backend/app/clients/clamav_client.py:69-97 | From any segmentation of the bytes of a found reply to the reported signature. |
| ClamAv.CleanReplyReaches | backend/app/clients/clamav_client.py:69-88 | From any segmentation of the bytes of an ASCII line that ends in OK to a clean answer. |
| ClamAv.ErrorReplyReaches | backend/app/clients/clamav_client.py:69-100 | From any segmentation of the bytes of an ASCII line that ends in ERROR and does not mention FOUND to a failed scan. |
| ClamAv.ScanBytes | backend/app/clients/clamav_client.py:45-67 | A scan sends the greeting and a stream from which the daemon reads exactly the content, and answers clean, infected or an error by the words of the reply, or for the stated refusals. |
| DocumentErrors.NormalizeSettles | backend/app/core/document_errors.py:17-32 | Normalising gives a record of trimmed non-empty fields and changes exactly the records that are not. |
| DocumentErrors.NormalizeIdempotent | backend/app/core/document_errors.py:17-32 | Normalising twice is normalising once. |
| DocumentErrors.NormalizeByField | backend/app/core/document_errors.py:17-32 | Each field is what stands between its white space, or its own default when there is nothing else. |
| DocumentErrors.EncodeThenDecode | backend/app/core/document_errors.py:35-63 | Decoding what was encoded gives the normalised record and its message for every record. |
| DocumentErrors.RoundTripExactly | backend/app/core/document_errors.py:35-63 | A record survives unchanged exactly when it is canonical, and normalising first makes no difference. |
| DocumentErrors.DecodeTotal | backend/app/core/document_errors.py:39-63 | Text without the prefix passes through unchanged, every other text yields the fallback or a canonical record with its own message. |
| DocumentErrors.EncodedByField | backend/app/core/document_errors.py:35-36 | A record is written as the prefix and the JSON object of its five fields. |
| DocumentErrors.DecodedByField | backend/app/core/document_errors.py:39-63 | Behind the prefix every JSON object is read field by field, with the default for what is missing or blank. |
| DocumentErrors.UnreadableShown | backend/app/core/document_errors.py:39-55 | Text without the prefix is shown as it is; behind the prefix anything but an object is shown as the fixed message. |
| RefreshTokens.RefreshTokenStore.Prune | backend/app/auth/refresh_token_store.py:23-26 | The loop removes exactly the entries that have expired. |
| RefreshTokens.RefreshTokenStore.Revoke | backend/app/auth/refresh_token_store.py:28-33 | A revocation is one more event of the run that the stored entries reflect. |
| RefreshTokens.RefreshTokenStore.IsRevoked | backend/app/auth/refresh_token_store.py:35-41 | Answers from the stored entries of the run; with a clock that never runs back, true exactly when the latest revocation of the fingerprint expires later than now. |
| RefreshTokens.PruningInvisible | backend/app/auth/refresh_token_store.py:23-41 | Over every run and every order of lock acquisitions, the pruned store answers like the unpruned history. |
| RefreshTokens.AnsweredExactly | backend/app/auth/refresh_token_store.py:28-41 | With a clock that never runs back, yes exactly when some revocation of the fingerprint is the latest and expires later than now. |
| RefreshTokens.RevokedIsStored | backend/app/auth/refresh_token_store.py:28-33 | A revocation is stored up to the later of its expiry and now; of the others those that expire later than now stay. |
| RefreshTokens.PrunedByEntry | backend/app/auth/refresh_token_store.py:23-26 | Pruning leaves exactly the entries that expire later than now, as they were. |
| RefreshTokens.StoredEntriesLive | backend/app/auth/refresh_token_store.py:28-41 | After each call every stored entry is live except possibly the one just written. |
| RefreshTokens.StoredExactly | backend/app/auth/refresh_token_store.py:23-41 | Whatever the clock does, an entry is stored exactly while no later call read a clock at or past it. |
| RefreshTokens.AnswersAgreeExactly | backend/app/auth/refresh_token_store.py:23-41 | For every run and clock, store and history answer alike exactly when a revocation in force has not been pruned since, or an expired one is not stored beyond the expiry it asked for. |
| RefreshTokens.NeverRevokedAgrees | backend/app/auth/refresh_token_store.py:35-41 | Without a revocation both answer no. |
| RefreshTokens.ClockSetBackForgets | backend/app/auth/refresh_token_store.py:19-41 | A run with the clock set back in which a revocation in force is forgotten. |
| RefreshTokens.ClockSetBackUpholds | backend/app/auth/refresh_token_store.py:33-41 | A run with the clock set back in which an expired revocation is upheld. |
| Sessions.AuthSessionRepository.CreateSession | backend/app/auth/session_repository.py:13-40 | Adds one open row, or nothing when the token hash or identifier is taken. |
| Sessions.AuthSessionRepository.MarkRevoked | backend/app/auth/session_repository.py:125-131 | The guarded update flips exactly the open selected rows and returns how many. |
| Sessions.AuthSessionRepository.MarkSessionRevoked | backend/app/auth/session_repository.py:117-131 | The same for one session. |
| Sessions.AuthSessionRepository.MarkUserSessionsRevoked | backend/app/auth/session_repository.py:133-147 | The same for one user. |
| Sessions.AuthSessionRepository.MarkTokenRevoked | backend/app/auth/session_repository.py:149-163 | The same for one token hash. |
| Sessions.AuthSessionRepository.UpdateLastUsed | backend/app/auth/session_repository.py:165-177 | Touches the one row with the hash, if any, and returns one or zero. |
| Sessions.AuthSessionRepository.GetSessionByTokenHash | backend/app/auth/session_repository.py:42-53 | The one row with the hash, revoked or not, or none. |
| Sessions.AuthSessionRepository.GetSessionById | backend/app/auth/session_repository.py:70-81 | A row of the session that no other row of it is newer than. |
| Sessions.AuthSessionRepository.CountActiveSessionsForUser | backend/app/auth/session_repository.py:102-115 | The number of the user's open, unexpired rows. |
| Sessions.AuthSessionRepository.ListActiveSessionsForUser | backend/app/auth/session_repository.py:83-100 | One page, no longer than the limit, of the user's active rows and no others, newest first. |
| Sessions.NewestFirstSorts | backend/app/auth/session_repository.py:91-100 | The listing order is a descending permutation of the active rows. |
| SessionLaws.ActiveByColumn | backend/app/auth/session_repository.py:91-98 | A row is active exactly when it is the user's, has no time of revocation and expires later than now. |
| SessionLaws.ActiveRowByRow | backend/app/auth/session_repository.py:91-98 | Every row is judged on its own, and the active ones keep their order. |
| SessionLaws.RevokedByColumn | backend/app/auth/session_repository.py:117-163 | What each of the three revoking updates makes of a row, by the one column it selects by. |
| SessionLaws.TouchedByColumn | backend/app/auth/session_repository.py:165-177 | What the update of the time of last use makes of a row. |
| SessionLaws.CollidesByColumn | backend/app/auth/session_repository.py:26-39 | A new row is refused exactly when its token hash or its token identifier is taken. |
| SessionLaws.InsertedByTime | backend/app/auth/session_repository.py:97-97 | A row is listed after all that are not older and before all that are. |
| SessionLaws.PageByPosition | backend/app/auth/session_repository.py:98-99 | The k-th row of a page is the row offset + k of the listing, for k below the limit. |
| SessionPages.PagesHaveCount | backend/app/auth/session_repository.py:83-115 | Pages of any listings, each with its own order of ties, are together as many as are counted and hold only active sessions. |
| SessionPages.PagesExactly | backend/app/auth/session_repository.py:91-99 | They hold every active session exactly once, for every choice of listings, if and only if no tie in creation time crosses a page boundary. |
| Sessions.RevocationsAreFinal | backend/app/auth/session_repository.py:117-177 | Over every run no row disappears or changes identity and a recorded revocation keeps its time and reason. |
| Sessions.TokensStayUnique | backend/app/auth/session_repository.py:13-177 | Over every run token hashes and identifiers stay unique. |
| Sessions.RevokeTwice | backend/app/auth/session_repository.py:117-163 | A revoking update flips exactly the open selected rows; a second one, at any time and for any reason, flips none and changes nothing. |
| Sessions.RevokeUserIsolated | backend/app/auth/session_repository.py:133-147 | Revoking a user leaves that user with no active session at any time and every other user's as they were. |
| Sessions.StaysLoggedOut | backend/app/auth/session_repository.py:13-177 | A user without active sessions stays so through every run that creates none for that user. |
| SettingLists.NormalizeList | backend/app/core/config.py:152-194 | The validators' loop returns the distinct canonical items in order of first appearance, or refuses. |
| SettingLists.NormalizedShape | backend/app/core/config.py:738-761 | An accepted list is distinct, non-blank, trimmed, canonical and allowed, keeps first-appearance order, and loses and invents nothing. |
| SettingLists.NormalizeAgain | backend/app/core/config.py:928-981 | Cleaning a cleaned list changes nothing, except for a required list that was missing altogether. |
| SettingLists.SettingsSettle | backend/app/core/config.py:145-194 | The same for the five kinds of list settings under the case mapping's laws, naming the three whose missing value is the exception. |
| SettingLists.NormalizeJoined | backend/app/core/config.py:153-169 | Written as comma-separated text and read back, a cleaned list survives exactly when no item has a comma in it. |
| SettingLaws.CleanedExactly | backend/app/core/config.py:928-981 | For each setting and value: refused exactly when an item, stripped and mapped, is not permitted, or one is needed and none is there; otherwise exactly those items, with role names and marks written out. |
| AppSettings.ValidateServer | backend/app/core/config.py:196-229 | An external server is accepted exactly when its secret is there, no tool is both read-only and side-effecting, and all policy tools are allowed ones. |
| AppSettings.Settings.ValidateConsistency | backend/app/core/config.py:1072-1310 | The interleaved checks and assignments accept exactly the objects whose normalised values are admissible and leave those values in every field. |
| ConsistencyLaws.RefusedExactly | backend/app/core/config.py:1072-1310 | Refused exactly when one of the source's reasons holds of the fields as they were given, each written out. |
| ConsistencyLaws.LeftByField | backend/app/core/config.py:1074-1308 | What acceptance leaves in every field that may be rewritten, field by field. |
| ConsistencyLaws.RelationTypesByItem | backend/app/core/config.py:1155-1159 | Each relation type is handled on its own: dropped when blank, otherwise stripped and in upper case, in order. |
| ConsistencyLaws.AddressExactly | backend/app/core/config.py:266-287 | A public address is refused exactly without https or with a host that, between its brackets and in lower case, is a name of the machine itself. |
| AppSettings.Settings.CheckServices | backend/app/core/config.py:1074-1161 | The same for addresses, agents, MCP, graph, connectors and relation types. |
| AppSettings.Settings.CheckMcp | backend/app/core/config.py:1090-1142 | The same for the two MCP transports and the external servers. |
| AppSettings.Settings.CheckExternalServers | backend/app/core/config.py:1131-1142 | Some server is enabled and, when deployed, every enabled one is authenticated. |
| AppSettings.CheckGraph | backend/app/core/config.py:1144-1150 | An enabled graph has an address, a user and a password that is not blank. |
| AppSettings.CheckRetrieval | backend/app/core/config.py:1163-1204 | The eleven checks one by one accept exactly ordered limits and thresholds, a positive sum of weights and retries that do not shrink. |
| AppSettings.CheckLimits | backend/app/core/config.py:1222-1290 | The checks on scanning, timeouts, identity providers and models one by one accept exactly the admissible settings. |
| AppSettings.CheckAuth | backend/app/core/config.py:1250-1268 | The chosen identity provider has everything it needs. |
| AppSettings.CheckModels | backend/app/core/config.py:1270-1290 | The providers of models that are in use have their key or address. |
| AppSettings.Settings.CheckCookie | backend/app/core/config.py:1206-1220 | The same for the session cookie's fields. |
| AppSettings.Settings.CheckEnvironment | backend/app/core/config.py:1292-1308 | The same for the closing branch per environment. |
| AppSettings.ValidationIsIdempotent | backend/app/core/config.py:1072-1310 | An accepted object validated again is accepted and keeps every field. |
| AppSettings.ValidatedRelationTypesKept | backend/app/core/config.py:1155-1161 | Relation types that passed the field validator pass through validation untouched. |
| Benchmark.TriggerAll | ci/scripts/local_model_benchmark.py:174-182 | One run per suite and profile, suite by suite. |
| Benchmark.TriggeredMembers | ci/scripts/local_model_benchmark.py:174-182 | Every suite is paired with every profile, and there are as many runs as pairs. |
| BenchmarkLaws.TriggeredByPosition | ci/scripts/local_model_benchmark.py:174-182 | The run of the i-th suite and the j-th profile stands at i * profiles + j with the answer to that trigger. |
| Benchmark.PollRound | ci/scripts/local_model_benchmark.py:192-202 | One pass splits the pending runs by the status the service answers. |
| BenchmarkLaws.RoundByStatus | ci/scripts/local_model_benchmark.py:192-202 | One pass picks the runs answered completed, failed, or anything else, in their order. |
| Benchmark.PollUntilDone | ci/scripts/local_model_benchmark.py:184-202 | For every interval: all runs settled, the first round past the deadline, or the exception of a negative sleep; with a positive interval after at most timeout / interval + 1 rounds. |
| Benchmark.Conservation | ci/scripts/local_model_benchmark.py:186-202 | After every round completed, failed and pending runs together are the triggered runs, with multiplicity. |
| Benchmark.PendingKeepsOrder | ci/scripts/local_model_benchmark.py:192-202 | The pending runs stand in the order in which they were triggered. |
| Benchmark.RoundsBounded | ci/scripts/local_model_benchmark.py:185-191 | A clock that advances by the interval per sleep starts at most timeout / interval rounds after the first before the deadline. |
| BenchmarkLaws.OneRun | ci/scripts/local_model_benchmark.py:186-202 | A single run completes, or fails, exactly when its first final answer says so. |
| BenchmarkLaws.OneRunEnds | ci/scripts/local_model_benchmark.py:184-202 | Polling a single run times out, or finishes, at exactly one round, told from the clock and the answers. |
| Benchmark.ExitCode | ci/scripts/local_model_benchmark.py:170-236 | Zero outside a dry run exactly when all runs ended, none failed and a required gate is ready, and then every run completed; two exactly on a timeout; one on the exception of a negative sleep. |

## Left out

- Trace text: entries are values, so the rendering of reasons and the sorted, comma-joined list of missing permissions is not modelled.
- `explain_decision`, audit writes, logging, HTTP status texts and the event names of the guard.
- `get_subject_accessible_collection_ids`, API-key scopes and service accounts: they appear as arbitrary functions or sets.
- `require_roles`, `require_feature` and `require_document_access`: each is a part of a guard that is modelled.
- The owner-id aliases and the constructors of `SubjectContext` and `ResourceContext`.
- Clock reads inside one request: the source reads the clock once for grants and once for denies; the model uses one value.
- Row order of the database: both query forms are taken to return table order, which SQL does not promise without an ORDER BY.
- UTF-8 decoding of replies, HMAC-SHA-256, JSON text and UUID parsing: parameters with the hypotheses stated above.
- Socket errors, timeouts and connection handling of the scanner client.
- `get_active_session_by_id` and the database's own timestamps.
- Sessions.AuthSessionRepository.ListActiveSessionsForUser: lists ties in creation time in insertion order, because one method call is one listing; other orders are covered by SessionPages. The clock moving between pages is not modelled.
- Benchmark.PollUntilDone: does not model failing API calls.
- The resolver of accessible collections issues queries of its own, and the list view two for the rows and their number; neither is counted.
- SettingLists.NormalizeList: does not model turning list items that are not text into text; items are text already.
- AppSettings.Settings.ValidateConsistency: does not model error texts, the field ranges that the settings library checks before it, or the half-updated object left behind by a refusal, which its creator discards.
- AppSettings: floating-point thresholds are real numbers, so a sum of weights is exact.
- `validate_cors_origins` and the other single-value field validators, and the JSON form of the external server list.
