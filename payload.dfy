/** The parts of the host framework's hook interface that the collection hooks use. */
module Payload {
  import opened Js

  /** The `operation` argument a hook receives. */
  datatype Operation = Create | Update | Delete | Find | Other(name: string)

  /** A user id as the Postgres adapter issues it (a positive serial number): always truthy. */
  type UserId = v: Value | Truthy(v) witness Num(1)

  /** The request a hook receives; of it, only `req.user` matters here, and of the user only its id. */
  datatype Request = Request(user: Option<UserId>)

  /** The mutable `data` object handed to a collection `beforeChange` hook. */
  class Doc {
    var fields: Fields

    constructor (fields: Fields)
      ensures this.fields == fields
    {
      this.fields := fields;
    }
  }
}
