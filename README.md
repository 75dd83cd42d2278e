# Collection hooks and access rules of a Payload CMS backend

This project models the small layer of behaviour that the CMS configuration of an
e-learning and client-management backend adds on top of the framework: the
lifecycle hooks of the `courses`, `clients`, `users` and `comments` collections,
the `content` validator of comments, and the collections' access tables. Each hook
is modelled as a function of the operation kind, the acting user (`req.user`), the
incoming record and the instant "now"; the two hooks that assign into the `data`
object in place (`createdBy` on courses, `assignedTo` on clients) are methods on a
`Doc` object whose new state is tied to a specification function, and the
properties are proved about those functions.

Files:

- `js.dfy` — JavaScript values, truthiness, `x || ''`.
- `jsstring.dfy` — `split`, `indexOf` and `join` on strings, with the round trip `join(split(s)) == s`.
- `payload.dfy` — operation kinds, the request, user ids (Postgres serial ids, hence truthy) and the `Doc` object.
- `access.dfy` — access rules over uninterpreted role predicates, and JavaScript `||` on access functions.
- `courses.dfy`, `clients.dfy`, `users.dfy`, `comments.dfy` — one module per collection.

The role predicates (`authenticated`, `authenticatedOrPublished`, `isSuperAdmin`,
`isProduction`, `isInternalUser`) are defined in access modules that are not part of
this model; a rule is evaluated against a function `holds` saying which of them are
true of the request, and every access property is proved for all such functions.

Two places where a field looks protected in the admin panel but the code does not
enforce it, and the model follows the code:

- `dateJoined` carries the sidebar `readOnly` flag, which only affects the admin panel.
  Its hook stamps it on create, but on an update it returns whatever value the update
  supplies, so an API update can replace it (`Clients.DateJoinedUpdatePassesThrough`).
- Each individual and business field has an `admin.condition` that shows it only for
  its own account type, yet every one of them carries `required: true` unconditionally
  (`Clients.ConditionalFieldsAlwaysRequired`).

## Model

| member | source | states |
|---|---|---|
| `Courses.CollectionAccess` | src/collections/Courses.ts:201-206 | the collection's access table; what it grants is stated by `Courses.CollectionAccessRules` |
| `Courses.CollectionAccessRules` | src/collections/Courses.ts:201-206 | anyone may read a course; create, update and delete are granted exactly when `authenticated` holds |
| `Courses.CreatedByFieldAccess` | src/collections/Courses.ts:303-305 | the `createdBy` field's access table, with only an update entry; what it grants is stated by `Courses.CreatedByNeverUpdatable` |
| `Courses.CreatedByNeverUpdatable` | src/collections/Courses.ts:303-305 | the `createdBy` field's update access denies every request, whatever roles it has; creation is not restricted |
| `Courses.StampCreatedBy` | src/collections/Courses.ts:313-318 | the hook touches no field but `createdBy`; with a user on the request the course always ends up with an owner; an existing owner is kept as is |
| `Courses.StampsActingUser` | src/collections/Courses.ts:313-316 | an unowned course changed by a logged-in user is owned by that user |
| `Courses.NoUserNoChange` | src/collections/Courses.ts:314-317 | with no user on the request the record comes back unchanged |
| `Courses.OwnerIsFinal` | src/collections/Courses.ts:314 | once stamped, a later change by any user, or by none, leaves the owner as it was |
| `Courses.StampIdempotent` | src/collections/Courses.ts:313-318 | running the hook twice gives the same record as running it once |
| `Courses.BeforeChange` | src/collections/Courses.ts:313-318 | the hook updates the passed object in place to the stamped record and returns that same object |
| `Clients.CollectionAccess` | src/collections/Clients/index.ts:10-15 | the collection's access table; what it grants is stated by `Clients.CollectionAccessRules` |
| `Clients.CollectionAccessRules` | src/collections/Clients/index.ts:10-15 | read needs `isInternalUser`; create, update and delete need `isSuperAdmin` |
| `Clients.ParseAccountType` | src/collections/Clients/index.ts:20-26 | an account type is accepted exactly when it is `individual` or `business`, and it reads back as the same stored value |
| `Clients.AccountTypeRoundTrip` | src/collections/Clients/index.ts:23-26 | every option's stored value reads back as that option |
| `Clients.ConditionalFieldsAlwaysRequired` | src/collections/Clients/index.ts:53-173 | every individual field and every business field is marked required; the individual ones are displayed exactly when the account type is `individual`, the business ones exactly when it is `business` |
| `Clients.DateJoined` | src/collections/Clients/index.ts:221-226 | on create `dateJoined` is the current instant; on any other operation the incoming value is returned |
| `Clients.DateJoinedIgnoresSuppliedValue` | src/collections/Clients/index.ts:221-224 | on create the supplied `dateJoined` makes no difference to the result, which is always set |
| `Clients.DateJoinedUpdatePassesThrough` | src/collections/Clients/index.ts:225 | on update the incoming value is returned unchanged |
| `Clients.StampAssignedTo` | src/collections/Clients/index.ts:233-240 | no field but `assignedTo` changes; on create with a user, `assignedTo` is that user's id; on other operations or without a user the record is unchanged |
| `Clients.AssignedToOverridesSupplied` | src/collections/Clients/index.ts:235-236 | an `assignedTo` supplied on create is replaced by the acting user |
| `Clients.BeforeChange` | src/collections/Clients/index.ts:232-241 | the hook updates the passed object in place to the stamped record and returns that same object |
| `JsString.Split` | src/collections/Users/index.ts:71-72 | `split(' ')` gives at least one piece and no piece contains the separator |
| `JsString.Join` | src/collections/Users/index.ts:72 | the joined string starts with the first piece and, when there are more pieces, a separator follows it; with `JsString.JoinSplit` it undoes `split` exactly |
| `JsString.JoinSplit` | src/collections/Users/index.ts:72 | joining the pieces of a split with the same separator gives back the string |
| `JsString.SplitAtFirst` | src/collections/Users/index.ts:71-72 | the first piece is the text before the first separator, the other pieces are the split of the text after it, and there is one piece when there is no separator |
| `Users.FirstName` | src/collections/Users/index.ts:71 | the first name is empty without a name and never contains a space; `Users.FirstNameBeforeFirstSpace` says which text it is |
| `Users.LastName` | src/collections/Users/index.ts:72 | the last name is empty without a name or when the name has no space; `Users.LastNameAfterFirstSpace` says which text it is otherwise |
| `Users.FirstNameBeforeFirstSpace` | src/collections/Users/index.ts:71 | the first name is the text of `name` before its first space, and holds no space |
| `Users.LastNameAfterFirstSpace` | src/collections/Users/index.ts:72 | the last name is the text after the first space, or empty when `name` has no space |
| `Users.NameRoundTrip` | src/collections/Users/index.ts:71-72 | when `name` contains a space, first name, one space and last name give back `name` |
| `Users.ProvisionClient` | src/collections/Users/index.ts:68-85 | the client built from a user is an individual account with the user's email, `assignedTo` the new user's id and active; without a name, first and last names are empty |
| `Users.ProvisionedNames` | src/collections/Users/index.ts:71-72 | with a name, the provisioned first name is the text before its first space, the last name is empty when there is no space, and otherwise first name, one space and last name give back the name |
| `Users.ClientFields` | src/collections/Users/index.ts:68-85 | the object handed to the clients collection reads back with the record's account type, `assignedTo` and email |
| `Users.ProvisionedIsIndividual` | src/collections/Users/index.ts:69 | the record handed to the clients collection reads back as an individual account |
| `Users.ProvisionedLeavesRequiredFieldsEmpty` | src/collections/Users/index.ts:73-82 | `phone` and `idNumber` are empty and `dateOfBirth` is null, although the clients schema marks each of them required |
| `Users.ProvisionedAddressEmpty` | src/collections/Users/index.ts:74-80 | all five address parts (street, city, state, zip code, country) are empty, although the clients schema marks each of them required |
| `Users.Provisioning` | src/collections/Users/index.ts:64 | a client is provisioned exactly when the operation is a create and there is a result, and it is assigned to that result's id |
| `Users.AfterOperation` | src/collections/Users/index.ts:63-109 | the hook completes normally however the client creation ends |
| `Users.ProvisioningFailureIsSwallowed` | src/collections/Users/index.ts:65-107 | a failed client creation never turns the user creation into an error: the caller gets the created user |
| `Users.StoredAssignedTo` | src/collections/Users/index.ts:83-95 | after the clients collection's create hooks run on the provisioned record, `assignedTo` is the requesting user's id when there is one (not the new user's), and `dateJoined` is the creation instant |
| `Comments.ValidateContent` | src/collections/Comments.ts:24-27 | content is accepted exactly when present and 1 to 2000 characters long; every rejection carries the length message |
| `Comments.WithDefaults` | src/collections/Comments.ts:57-60 | an absent `isApproved` becomes `false`; a present one and every other field are kept |
| `Comments.PublishedAt` | src/collections/Comments.ts:76-82 | an existing `publishedAt` is returned unchanged whatever the approval state; an approved comment without one gets the current instant; an unapproved one stays unset; afterwards a date exists exactly when one was given or the comment is approved |
| `Comments.NewCommentUnpublishedByDefault` | src/collections/Comments.ts:57-80 | a comment created without an approval flag defaults to unapproved and is not stamped a date; a supplied `publishedAt` is kept |
| `Comments.PublishedAtIsFinal` | src/collections/Comments.ts:77-80 | a later run of the hook that receives the date stamped on approval returns it, whatever the approval state; an update that supplies `publishedAt` replaces it |
| `Comments.AccessAsWritten` | src/collections/Comments.ts:12-17 | the access table as written, with JavaScript `or` taken of the access functions; what it grants is stated by `Comments.AsWrittenCollapsesToSuperAdmin` and `Comments.ProductionLockedOutAsWritten` |
| `Comments.AsWrittenCollapsesToSuperAdmin` | src/collections/Comments.ts:13-16 | as written, create is open, and read, update and delete are granted exactly when `isSuperAdmin` holds |
| `Comments.ProductionLockedOutAsWritten` | src/collections/Comments.ts:13-15 | as written, a production user who is not a super admin cannot update, and a request admitted only by `authenticatedOrPublished` cannot read |
| `Comments.CollectionAccess` | src/collections/Comments.ts:12-17 | the access table as intended, each role predicate asked of the request; what it grants is stated by `Comments.CollectionAccessRules` |
| `Comments.CollectionAccessRules` | src/collections/Comments.ts:12-17 | as intended: create is open; update and delete need `isSuperAdmin` or `isProduction`; read needs one of those or `authenticatedOrPublished` |

## Findings

| source | as written | input that shows it | evidently intended | confidence | as-written member | corrected member |
|---|---|---|---|---|---|---|
| src/collections/Comments.ts:13-16 | the logical-or of `isSuperAdmin` and `isProduction` is taken of the two function objects once, when the configuration is built; a function object is truthy, so the entry is `isSuperAdmin` alone | a request whose user has the production role but is not a super admin asks to update a comment: denied | grant when any of the named role predicates holds for the request | high, not executed | `Comments.ProductionLockedOutAsWritten` | `Comments.CollectionAccessRules` |

## Left out

- Framework enforcement of `required`, `unique`, `maxLength`, select options, relationships, blocks and `filterOptions`; the schema's flags are recorded, not enforced.
- The order in which the framework applies field-level access and collection hooks, and how it merges a partial update with the stored document.
- The `payload.create` call, its `await`, the `console` logging and concurrency between the user creation and the client creation: the call's outcome is an input (`Users.CreateOutcome`).
- The clock: `new Date()` is the parameter `now`.
- The bodies of the role predicates, which are not part of this model; they stay uninterpreted.
- The Users collection's own access table and field definitions, the course, section, lesson and content-block fields, and the TypeScript interfaces, which carry no behaviour.
- The header and footer globals, the top-level configuration, the login action and the session check of the frontend layout: configuration and I/O.
- `Comments.ValidateContent`: counts characters, whereas JavaScript's `length` counts UTF-16 code units, so a text with characters outside the basic plane is measured shorter here than in the source.
- `Js.Value`: numbers are integers; `NaN` and fractions are not modelled, and no hook depends on them.
