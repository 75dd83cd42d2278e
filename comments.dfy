/** The comments collection: the `content` validator, the `isApproved` default, the
    `publishedAt` field hook and the access table. */
module Comments {
  import opened Js
  import Access

  const MaxContentLength := 2000
  const ContentError := "Comments cannot be longer than 2000 characters"
  const IsApprovedField := "isApproved"
  const PublishedAtField := "publishedAt"

  /** What a field validator returns: `true`, or an error message. */
  datatype Validation = Accept | Reject(message: string)

  /** The `content` validator. A missing or empty comment is turned away with the same
      message as one that is too long. */
  function ValidateContent(value: Option<string>): (r: Validation)
    ensures r.Accept? <==> value.Some? && 1 <= |value.value| <= MaxContentLength
    ensures r.Reject? ==> r.message == ContentError
  {
    if !Truthy(OfOptional(value)) || |value.value| > MaxContentLength then Reject(ContentError)
    else Accept
  }

  /** The framework fills a field's `defaultValue` into a record being created when the
      field is `undefined`; of this collection's fields only `isApproved` has one. */
  function WithDefaults(data: Fields): (r: Fields)
    ensures Get(r, IsApprovedField) == (if Get(data, IsApprovedField) == Undefined then Bool(false) else Get(data, IsApprovedField))
    ensures forall k :: k != IsApprovedField ==> Get(r, k) == Get(data, k)
  {
    if Get(data, IsApprovedField) == Undefined then data[IsApprovedField := Bool(false)] else data
  }

  /** The `beforeChange` hook of `publishedAt`, with `now` the instant `new Date()` reads. */
  function PublishedAt(siblingData: Fields, value: Value, now: int): (r: Value)
    ensures Truthy(value) ==> r == value
    ensures !Truthy(Get(siblingData, IsApprovedField)) ==> r == value
    ensures Truthy(Get(siblingData, IsApprovedField)) && !Truthy(value) ==> r == Date(now)
    ensures Truthy(r) <==> Truthy(value) || Truthy(Get(siblingData, IsApprovedField))
  {
    if Truthy(Get(siblingData, IsApprovedField)) && !Truthy(value) then Date(now) else value
  }

  /** A comment created without an approval flag gets the default `false`, so the hook
      stamps no date on it; a `publishedAt` supplied with it is kept as given. */
  lemma NewCommentUnpublishedByDefault(data: Fields, now: int)
    requires Get(data, IsApprovedField) == Undefined
    ensures Get(WithDefaults(data), IsApprovedField) == Bool(false)
    ensures PublishedAt(WithDefaults(data), Get(data, PublishedAtField), now) == Get(data, PublishedAtField)
  {
  }

  /** A later run of the hook that receives the date stamped on approval returns it,
      whatever the approval state then. Nothing protects the field itself: an update
      that supplies its own `publishedAt` hands the hook that value, which it keeps. */
  lemma PublishedAtIsFinal(siblingData: Fields, later: Fields, value: Value, now: int, laterNow: int)
    requires Truthy(Get(siblingData, IsApprovedField))
    ensures PublishedAt(later, PublishedAt(siblingData, value, now), laterNow) == PublishedAt(siblingData, value, now)
  {
  }

  // ---- access ----

  /** The `access` table as written. `isSuperAdmin || isProduction` is evaluated once,
      on the two function objects, not per request, and yields `isSuperAdmin`. */
  function AccessAsWritten(action: Access.Action): Access.Rule {
    match action
    case Read =>
      Access.JsOr(Access.JsOr(Access.Check(Access.IsSuperAdmin), Access.Check(Access.IsProduction)),
                  Access.Check(Access.AuthenticatedOrPublished))
    case Create => Access.Constant(true)
    case Update => Access.JsOr(Access.Check(Access.IsSuperAdmin), Access.Check(Access.IsProduction))
    case Delete => Access.JsOr(Access.Check(Access.IsSuperAdmin), Access.Check(Access.IsProduction))
  }

  /** As written, anyone may submit a comment, while reading, updating and deleting one
      need a super admin, and nothing else counts. */
  lemma AsWrittenCollapsesToSuperAdmin(action: Access.Action, holds: Access.Predicate -> bool)
    ensures Access.Grants(AccessAsWritten(Access.Create), holds)
    ensures action != Access.Create ==>
      (Access.Grants(AccessAsWritten(action), holds) <==> holds(Access.IsSuperAdmin))
  {
  }

  /** As written, a production user who is not a super admin cannot update a comment,
      and a published-content reader who is neither cannot read one. */
  lemma ProductionLockedOutAsWritten()
    ensures !Access.Grants(AccessAsWritten(Access.Update), p => p == Access.IsProduction)
    ensures !Access.Grants(AccessAsWritten(Access.Read), p => p == Access.AuthenticatedOrPublished)
  {
  }

  /** The access table as intended: each role predicate is asked about the request. */
  function CollectionAccess(action: Access.Action): Access.Rule {
    match action
    case Read => Access.AnyOf([Access.IsSuperAdmin, Access.IsProduction, Access.AuthenticatedOrPublished])
    case Create => Access.Constant(true)
    case Update => Access.AnyOf([Access.IsSuperAdmin, Access.IsProduction])
    case Delete => Access.AnyOf([Access.IsSuperAdmin, Access.IsProduction])
  }

  /** Anyone may submit a comment; super admins and production users may update and
      delete; they and whoever `authenticatedOrPublished` admits may read. */
  lemma CollectionAccessRules(action: Access.Action, holds: Access.Predicate -> bool)
    ensures Access.Grants(CollectionAccess(Access.Create), holds)
    ensures Access.Grants(CollectionAccess(Access.Read), holds) <==>
      holds(Access.IsSuperAdmin) || holds(Access.IsProduction) || holds(Access.AuthenticatedOrPublished)
    ensures action in {Access.Update, Access.Delete} ==>
      (Access.Grants(CollectionAccess(action), holds) <==> holds(Access.IsSuperAdmin) || holds(Access.IsProduction))
  {
    var read := [Access.IsSuperAdmin, Access.IsProduction, Access.AuthenticatedOrPublished];
    assert read[0] == Access.IsSuperAdmin && read[1] == Access.IsProduction && read[2] == Access.AuthenticatedOrPublished;
    var write := [Access.IsSuperAdmin, Access.IsProduction];
    assert write[0] == Access.IsSuperAdmin && write[1] == Access.IsProduction;
  }
}
