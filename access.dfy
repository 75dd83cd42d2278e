/** Access rules of the collections. The role predicates (`authenticated`,
    `isSuperAdmin`, ...) live in access modules that are not part of this model,
    so they stay uninterpreted: a rule is evaluated against `holds`, which says
    which predicates are true of the request. */
module Access {

  datatype Predicate =
    | Authenticated
    | AuthenticatedOrPublished
    | IsSuperAdmin
    | IsProduction
    | IsInternalUser

  /** The keys of an `access` table. */
  datatype Action = Read | Create | Update | Delete

  /** An access function: a constant lambda such as `() => true`, one role
      predicate, or (as intended in the comments collection) the disjunction of several. */
  datatype Rule = Constant(allow: bool) | Check(p: Predicate) | AnyOf(ps: seq<Predicate>)

  /** Whether `rule` lets the request through. */
  predicate Grants(rule: Rule, holds: Predicate -> bool) {
    match rule
    case Constant(b) => b
    case Check(p) => holds(p)
    case AnyOf(ps) => exists i :: 0 <= i < |ps| && holds(ps[i])
  }

  /** An access entry is a function object, and every function object is truthy. */
  predicate IsTruthy(rule: Rule) {
    true
  }

  /** JavaScript `a || b` applied to two access functions (not to their results):
      the first operand whenever it is truthy. */
  function JsOr(a: Rule, b: Rule): Rule {
    if IsTruthy(a) then a else b
  }
}
