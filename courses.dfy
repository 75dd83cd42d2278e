/** The courses collection: its access table, the access of its `createdBy`
    field, and the `beforeChange` hook that stamps the course's owner. */
module Courses {
  import opened Js
  import opened Payload
  import Access

  const CreatedBy := "createdBy"

  /** The collection's `access` table. */
  function CollectionAccess(action: Access.Action): Access.Rule {
    match action
    case Read => Access.Constant(true)
    case Create => Access.Check(Access.Authenticated)
    case Update => Access.Check(Access.Authenticated)
    case Delete => Access.Check(Access.Authenticated)
  }

  /** Anyone may read courses; creating, updating and deleting one needs an authenticated user. */
  lemma CollectionAccessRules(action: Access.Action, holds: Access.Predicate -> bool)
    ensures Access.Grants(CollectionAccess(Access.Read), holds)
    ensures action != Access.Read ==>
      (Access.Grants(CollectionAccess(action), holds) <==> holds(Access.Authenticated))
  {
  }

  /** The `access` table of the `createdBy` field; a missing entry means the
      framework's default, which allows. */
  function CreatedByFieldAccess(action: Access.Action): Option<Access.Rule> {
    if action == Access.Update then Some(Access.Constant(false)) else None
  }

  predicate FieldAllowed(rule: Option<Access.Rule>, holds: Access.Predicate -> bool) {
    rule.None? || Access.Grants(rule.value, holds)
  }

  /** No request, whatever roles it carries, may update `createdBy`. */
  lemma CreatedByNeverUpdatable(holds: Access.Predicate -> bool)
    ensures !FieldAllowed(CreatedByFieldAccess(Access.Update), holds)
    ensures FieldAllowed(CreatedByFieldAccess(Access.Create), holds)
  {
  }

  /** The record the `beforeChange` hook leaves behind when `user` is `req.user`. */
  function StampCreatedBy(data: Fields, user: Option<UserId>): (r: Fields)
    ensures forall k :: k != CreatedBy ==> (k in r <==> k in data)
    ensures forall k :: k in data && k != CreatedBy ==> r[k] == data[k]
    ensures user.Some? ==> Truthy(Get(r, CreatedBy))
    ensures Truthy(Get(data, CreatedBy)) ==> r == data
  {
    if user.Some? && !Truthy(Get(data, CreatedBy)) then data[CreatedBy := user.value] else data
  }

  /** A course without an owner, changed by a logged-in user, is owned by that user. */
  lemma StampsActingUser(data: Fields, user: UserId)
    requires !Truthy(Get(data, CreatedBy))
    ensures Get(StampCreatedBy(data, Some(user)), CreatedBy) == user
  {
  }

  /** With no user on the request, the record comes back unchanged. */
  lemma NoUserNoChange(data: Fields)
    ensures StampCreatedBy(data, None) == data
  {
  }

  /** Once stamped, the owner is never replaced, even by a change from a different user. */
  lemma OwnerIsFinal(data: Fields, first: UserId, later: Option<UserId>)
    ensures Get(StampCreatedBy(StampCreatedBy(data, Some(first)), later), CreatedBy)
         == Get(StampCreatedBy(data, Some(first)), CreatedBy)
  {
  }

  /** Running the hook a second time changes nothing. */
  lemma StampIdempotent(data: Fields, user: Option<UserId>)
    ensures StampCreatedBy(StampCreatedBy(data, user), user) == StampCreatedBy(data, user)
  {
  }

  /** The hook itself: it writes `data.createdBy` in place and returns the same object. */
  method BeforeChange(req: Request, data: Doc) returns (r: Doc)
    modifies data
    ensures r == data
    ensures data.fields == StampCreatedBy(old(data.fields), req.user)
  {
    if req.user.Some? && !Truthy(Get(data.fields, CreatedBy)) {
      data.fields := data.fields[CreatedBy := req.user.value];
    }
    r := data;
  }
}
