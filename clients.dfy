/** The clients collection: its access table, the `accountType` select, the
    required flags and display conditions of its fields, the `dateJoined` field
    hook, and the collection `beforeChange` hook that stamps `assignedTo`. */
module Clients {
  import opened Js
  import opened Payload
  import Access

  const AccountTypeField := "accountType"
  const AssignedTo := "assignedTo"
  const DateJoinedField := "dateJoined"

  /** The collection's `access` table. */
  function CollectionAccess(action: Access.Action): Access.Rule {
    match action
    case Read => Access.Check(Access.IsInternalUser)
    case Create => Access.Check(Access.IsSuperAdmin)
    case Update => Access.Check(Access.IsSuperAdmin)
    case Delete => Access.Check(Access.IsSuperAdmin)
  }

  /** Internal users may read clients; only a super admin may create, update or delete one. */
  lemma CollectionAccessRules(action: Access.Action, holds: Access.Predicate -> bool)
    ensures Access.Grants(CollectionAccess(Access.Read), holds) <==> holds(Access.IsInternalUser)
    ensures action != Access.Read ==>
      (Access.Grants(CollectionAccess(action), holds) <==> holds(Access.IsSuperAdmin))
  {
  }

  // ---- accountType ----

  datatype AccountType = Individual | Business

  /** The stored value of each option of the `accountType` select. */
  function OptionValue(t: AccountType): string {
    match t
    case Individual => "individual"
    case Business => "business"
  }

  /** Reads a stored `accountType`; only the two option values are accepted. */
  function ParseAccountType(v: Value): (r: Option<AccountType>)
    ensures r.Some? <==> v == Str("individual") || v == Str("business")
    ensures r.Some? ==> v == Str(OptionValue(r.value))
  {
    if v == Str(OptionValue(Individual)) then Some(Individual)
    else if v == Str(OptionValue(Business)) then Some(Business)
    else None
  }

  /** Every option reads back as itself. */
  lemma AccountTypeRoundTrip(t: AccountType)
    ensures ParseAccountType(Str(OptionValue(t))) == Some(t)
  {
  }

  // ---- field schema ----

  /** A field's `required` flag and the account type its `admin.condition` shows it for
      (`None`: shown always). The model records the flag and the condition as the schema
      declares them; what the framework does with them is not modelled. */
  datatype FieldSpec = FieldSpec(required: bool, shownFor: Option<AccountType>)

  const IndividualFields: set<string> := {"firstName", "lastName", "dateOfBirth", "idNumber"}

  const BusinessFields: set<string> :=
    {"companyName", "businessType", "taxId", "contactFirstName", "contactLastName",
     "contactPosition", "contactEmail", "contactPhone", "numberOfEmployees"}

  /** The collection's fields; the address group's fields are written `address.<name>`. */
  const Schema: map<string, FieldSpec> := map[
    "accountType" := FieldSpec(true, None),
    "email" := FieldSpec(true, None),
    "phone" := FieldSpec(true, None),
    "address.street" := FieldSpec(true, None),
    "address.city" := FieldSpec(true, None),
    "address.state" := FieldSpec(true, None),
    "address.zipCode" := FieldSpec(true, None),
    "address.country" := FieldSpec(true, None),
    "firstName" := FieldSpec(true, Some(Individual)),
    "lastName" := FieldSpec(true, Some(Individual)),
    "dateOfBirth" := FieldSpec(true, Some(Individual)),
    "idNumber" := FieldSpec(true, Some(Individual)),
    "companyName" := FieldSpec(true, Some(Business)),
    "businessType" := FieldSpec(true, Some(Business)),
    "taxId" := FieldSpec(true, Some(Business)),
    "contactFirstName" := FieldSpec(true, Some(Business)),
    "contactLastName" := FieldSpec(true, Some(Business)),
    "contactPosition" := FieldSpec(true, Some(Business)),
    "contactEmail" := FieldSpec(true, Some(Business)),
    "contactPhone" := FieldSpec(true, Some(Business)),
    "numberOfEmployees" := FieldSpec(true, Some(Business)),
    "assignedTo" := FieldSpec(false, None),
    "profileImage" := FieldSpec(false, None),
    "notes" := FieldSpec(false, None),
    "isActive" := FieldSpec(false, None),
    "dateJoined" := FieldSpec(false, None)
  ]

  /** The `admin.condition` of a field: `data.accountType === '<option>'`, or always shown. */
  predicate Displayed(name: string, data: Fields)
    requires name in Schema
  {
    Schema[name].shownFor.None? || Get(data, AccountTypeField) == Str(OptionValue(Schema[name].shownFor.value))
  }

  /** Both conditional groups carry `required: true` unconditionally, and each field's
      `admin.condition` holds exactly for its own account type. */
  lemma ConditionalFieldsAlwaysRequired(name: string, data: Fields)
    requires name in IndividualFields + BusinessFields
    ensures name in Schema && Schema[name].required
    ensures name in IndividualFields ==>
      (Displayed(name, data) <==> Get(data, AccountTypeField) == Str("individual"))
    ensures name in BusinessFields ==>
      (Displayed(name, data) <==> Get(data, AccountTypeField) == Str("business"))
  {
  }

  // ---- dateJoined field hook ----

  /** The `beforeChange` hook of `dateJoined`: on create it returns `new Date()` (the
      instant `now`); otherwise it returns the incoming value. */
  function DateJoined(op: Operation, value: Value, now: int): (r: Value)
    ensures op == Create ==> r == Date(now)
    ensures op != Create ==> r == value
  {
    if op == Create then Date(now) else value
  }

  /** On create, what the caller supplied for `dateJoined` makes no difference. */
  lemma DateJoinedIgnoresSuppliedValue(supplied: Value, other: Value, now: int)
    ensures DateJoined(Create, supplied, now) == DateJoined(Create, other, now)
    ensures Truthy(DateJoined(Create, supplied, now))
  {
  }

  /** On an update the incoming value passes through: an update that omits `dateJoined`
      leaves it as is, but one that supplies a value replaces it. */
  lemma DateJoinedUpdatePassesThrough(value: Value, now: int)
    ensures DateJoined(Update, value, now) == value
  {
  }

  // ---- collection beforeChange hook ----

  /** The record the collection `beforeChange` hook leaves behind. */
  function StampAssignedTo(data: Fields, op: Operation, user: Option<UserId>): (r: Fields)
    ensures forall k :: k != AssignedTo ==> (k in r <==> k in data)
    ensures forall k :: k in data && k != AssignedTo ==> r[k] == data[k]
    ensures op == Create && user.Some? ==> Get(r, AssignedTo) == user.value
    ensures op != Create || user.None? ==> r == data
  {
    if op == Create && user.Some? then data[AssignedTo := user.value] else data
  }

  /** On create, an `assignedTo` supplied by the caller is replaced by the acting user. */
  lemma AssignedToOverridesSupplied(data: Fields, supplied: Value, user: UserId)
    ensures Get(StampAssignedTo(data[AssignedTo := supplied], Create, Some(user)), AssignedTo) == user
  {
  }

  /** The hook itself: it writes `data.assignedTo` in place and returns the same object. */
  method BeforeChange(op: Operation, req: Request, data: Doc) returns (r: Doc)
    modifies data
    ensures r == data
    ensures data.fields == StampAssignedTo(old(data.fields), op, req.user)
  {
    if op == Create && req.user.Some? {
      data.fields := data.fields[AssignedTo := req.user.value];
    }
    r := data;
  }
}
