/** The users collection's `afterOperation` hook: after a user is created it builds
    an individual client record from the user and asks the framework to create it,
    swallowing any failure. */
module Users {
  import opened Js
  import opened JsString
  import opened Payload
  import Clients

  /** The created user document (`result`) as far as the hook reads it. */
  datatype UserDoc = UserDoc(id: UserId, email: string, name: Option<string>)

  datatype Address = Address(street: string, city: string, state: string, zipCode: string, country: string)

  /** The shape of the `clientData` object literal. */
  datatype ClientData = ClientData(
    accountType: Clients.AccountType,
    email: string,
    firstName: string,
    lastName: string,
    phone: string,
    address: Address,
    dateOfBirth: Value,
    idNumber: string,
    assignedTo: UserId,
    isActive: bool)

  /** `result.name?.split(' ')[0] || ''`. */
  function FirstName(name: Option<string>): (r: string)
    ensures name.None? ==> r == ""
    ensures ' ' !in r
  {
    OrEmpty(match name case None => None case Some(n) => Some(Split(n, ' ')[0]))
  }

  /** `result.name?.split(' ').slice(1).join(' ') || ''`. */
  function LastName(name: Option<string>): (r: string)
    ensures name.None? ==> r == ""
    ensures name.Some? && ' ' !in name.value ==> r == ""
  {
    match name
    case None => OrEmpty(None)
    case Some(n) =>
      SplitAtFirst(n, ' ');
      OrEmpty(Some(Join(Split(n, ' ')[1..], ' ')))
  }

  /** The first name is the text before the first space (all of it when there is no space). */
  lemma FirstNameBeforeFirstSpace(name: string)
    ensures FirstName(Some(name)) == name[..IndexOf(name, ' ')]
    ensures ' ' !in FirstName(Some(name))
  {
    SplitAtFirst(name, ' ');
  }

  /** The last name is the text after the first space, or empty when there is no space. */
  lemma LastNameAfterFirstSpace(name: string)
    ensures IndexOf(name, ' ') < |name| ==> LastName(Some(name)) == name[IndexOf(name, ' ') + 1..]
    ensures IndexOf(name, ' ') == |name| ==> LastName(Some(name)) == ""
  {
    var i := IndexOf(name, ' ');
    SplitAtFirst(name, ' ');
    if i < |name| {
      JoinSplit(name[i + 1..], ' ');
    }
  }

  /** When the name has a space, first and last name put back together with one space
      give the name again. */
  lemma NameRoundTrip(name: string)
    requires ' ' in name
    ensures FirstName(Some(name)) + " " + LastName(Some(name)) == name
  {
    var i := IndexOf(name, ' ');
    FirstNameBeforeFirstSpace(name);
    LastNameAfterFirstSpace(name);
    assert i < |name| by {
      var k :| 0 <= k < |name| && name[k] == ' ';
    }
    assert name == name[..i] + [name[i]] + name[i + 1..];
  }

  /** The `clientData` object literal built from the created user. */
  function ProvisionClient(result: UserDoc): (c: ClientData)
    ensures c.accountType == Clients.Individual && c.email == result.email
    ensures c.assignedTo == result.id && c.isActive
    ensures result.name.None? ==> c.firstName == "" && c.lastName == ""
  {
    ClientData(
      accountType := Clients.Individual,
      email := result.email,
      firstName := FirstName(result.name),
      lastName := LastName(result.name),
      phone := "",
      address := Address("", "", "", "", ""),
      dateOfBirth := Null,
      idNumber := "",
      assignedTo := result.id,
      isActive := true)
  }

  /** The provisioned first and last names split the user's name at its first space,
      losing nothing. */
  lemma ProvisionedNames(result: UserDoc)
    requires result.name.Some?
    ensures ProvisionClient(result).firstName == result.name.value[..IndexOf(result.name.value, ' ')]
    ensures ' ' in result.name.value ==>
      ProvisionClient(result).firstName + " " + ProvisionClient(result).lastName == result.name.value
    ensures ' ' !in result.name.value ==> ProvisionClient(result).lastName == ""
  {
    FirstNameBeforeFirstSpace(result.name.value);
    if ' ' in result.name.value {
      NameRoundTrip(result.name.value);
    }
  }

  /** The object handed to `payload.create` for the clients collection. */
  function ClientFields(c: ClientData): (r: Fields)
    ensures Clients.ParseAccountType(Get(r, Clients.AccountTypeField)) == Some(c.accountType)
    ensures Get(r, Clients.AssignedTo) == c.assignedTo
    ensures Get(r, "email") == Str(c.email)
  {
    map[
      "accountType" := Str(Clients.OptionValue(c.accountType)),
      "email" := Str(c.email),
      "firstName" := Str(c.firstName),
      "lastName" := Str(c.lastName),
      "phone" := Str(c.phone),
      "address" := Obj(map[
        "street" := Str(c.address.street),
        "city" := Str(c.address.city),
        "state" := Str(c.address.state),
        "zipCode" := Str(c.address.zipCode),
        "country" := Str(c.address.country)]),
      "dateOfBirth" := c.dateOfBirth,
      "idNumber" := Str(c.idNumber),
      "assignedTo" := c.assignedTo,
      "isActive" := Bool(c.isActive)]
  }

  /** The provisioned record reads back as an individual account. */
  lemma ProvisionedIsIndividual(result: UserDoc)
    ensures Clients.ParseAccountType(Get(ClientFields(ProvisionClient(result)), Clients.AccountTypeField))
         == Some(Clients.Individual)
  {
  }

  /** The provisioned record leaves empty (or null) fields that the clients schema
      marks required. */
  lemma ProvisionedLeavesRequiredFieldsEmpty(result: UserDoc)
    ensures Clients.Schema["phone"].required && Get(ClientFields(ProvisionClient(result)), "phone") == Str("")
    ensures Clients.Schema["idNumber"].required && Get(ClientFields(ProvisionClient(result)), "idNumber") == Str("")
    ensures Clients.Schema["dateOfBirth"].required
         && Get(ClientFields(ProvisionClient(result)), "dateOfBirth") == Null
  {
  }

  /** Every part of the provisioned address is empty, and the clients schema marks
      every address part required. */
  lemma ProvisionedAddressEmpty(result: UserDoc)
    ensures ProvisionClient(result).address == Address("", "", "", "", "")
    ensures Clients.Schema["address.street"].required && Clients.Schema["address.city"].required
    ensures Clients.Schema["address.state"].required && Clients.Schema["address.zipCode"].required
    ensures Clients.Schema["address.country"].required
  {
  }

  // ---- the hook and its failure handling ----

  /** How the awaited `payload.create` call for the client ended; the call belongs to
      the framework, so its outcome is an input here. */
  datatype CreateOutcome = Created | Failed(message: string)

  /** How a piece of JavaScript code completed. */
  datatype Completion = Normal | Thrown(message: string)

  /** The client record the hook tries to create, if it runs at all (`operation ===
      'create' && result`). */
  function Provisioning(op: Operation, result: Option<UserDoc>): (data: Option<ClientData>)
    ensures data.Some? <==> op == Create && result.Some?
    ensures data.Some? ==> data.value.assignedTo == result.value.id
  {
    if op == Create && result.Some? then Some(ProvisionClient(result.value)) else None
  }

  /** The `try` block: it throws exactly when the client creation fails. */
  function TryCreate(outcome: CreateOutcome): Completion {
    match outcome
    case Created => Normal
    case Failed(m) => Thrown(m)
  }

  /** The whole hook. The `catch` block only logs, so the hook completes normally
      however the client creation ended. */
  function AfterOperation(op: Operation, result: Option<UserDoc>, outcome: CreateOutcome): (c: Completion)
    ensures c == Normal
  {
    match Provisioning(op, result)
    case None => Normal
    case Some(_) =>
      match TryCreate(outcome)
      case Normal => Normal
      case Thrown(_) => Normal  // caught and logged
  }

  /** What the caller of the user creation gets back. */
  datatype Response = Ok(user: UserDoc) | Error(message: string)

  /** The framework's handling of an `afterOperation` hook that returns nothing: a thrown
      error fails the operation, a normal completion keeps the operation's result. */
  function UserCreateResponse(result: UserDoc, hook: Completion): Response {
    match hook
    case Normal => Ok(result)
    case Thrown(m) => Error(m)
  }

  /** A failed client creation never reaches the caller that created the user. */
  lemma ProvisioningFailureIsSwallowed(result: UserDoc, outcome: CreateOutcome)
    ensures UserCreateResponse(result, AfterOperation(Create, Some(result), outcome)) == Ok(result)
  {
  }

  /** The provisioning data passes the request on, so the clients collection's create
      hooks run on it: with a user on the request, the stored `assignedTo` is that user's
      id rather than the new user's, and `dateJoined` is the creation instant. */
  lemma StoredAssignedTo(result: UserDoc, req: Request, now: int)
    ensures Get(Clients.StampAssignedTo(ClientFields(ProvisionClient(result)), Create, req.user), Clients.AssignedTo)
         == (if req.user.Some? then req.user.value else result.id)
    ensures Clients.DateJoined(Create, Get(ClientFields(ProvisionClient(result)), Clients.DateJoinedField), now) == Date(now)
  {
  }
}
