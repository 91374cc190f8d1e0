/** Shared vocabulary of the travel-agency backend model: optional values
    (Python's None), escaping Python exceptions, the three roles and the
    truthiness tests the request handlers apply to JSON and form fields. */
module Common {

  /** A nullable column or an absent request field. */
  datatype Option<T> = None | Some(value: T)

  /** The object an optional lookup found, as a frame. */
  function AsSet<T(==)>(o: Option<T>): (s: set<T>)
    ensures o.Some? ==> o.value in s
    ensures o.None? ==> s == {}
    ensures |s| <= 1
  {
    if o.Some? then {o.value} else {}
  }

  /** The exceptions that escape the modelled code. The first four are
      not SQLAlchemyError, so no service catches them; the last is the
      `Exception` a service raises after rolling back a failed commit. */
  datatype Exc =
    | TypeError       // a comparison or arithmetic with None, a call with the wrong arguments
    | AttributeError  // an attribute read on None
    | IndexError      // a list subscript out of range
    | ValueError      // `float(...)` or `int(...)` of text that is not a number
    | DatabaseError   // a constraint the database refuses at commit, re-raised by a service

  /** The outcome of an operation that may raise. */
  datatype Result<T> = Ok(value: T) | Raise(exc: Exc)

  const ADMIN: string := "admin"
  const CLIENT: string := "client"
  const VIP: string := "vip"

  /** The role names the user service accepts. */
  const ROLES: seq<string> := [ADMIN, CLIENT, VIP]

  /** `data.get(k)` is truthy for a text field: present and not "". */
  predicate GivenText(o: Option<string>)
  {
    o.Some? && o.value != ""
  }

  /** `data.get(k)` is truthy for a numeric field: present and not 0. */
  predicate GivenInt(o: Option<int>)
  {
    o.Some? && o.value != 0
  }

  /** `data.get(k)` is truthy for an amount: present and not 0. */
  predicate GivenReal(o: Option<real>)
  {
    o.Some? && o.value != 0.0
  }

  /** The optional date-window filter of the statistics queries: each
      bound applies when it is given (a datetime is always truthy). */
  predicate InWindow(t: nat, start: Option<nat>, end: Option<nat>)
  {
    (start.Some? ==> t >= start.value) && (end.Some? ==> t <= end.value)
  }

  /** The HTTP status codes the handlers answer with. */
  const OK: nat := 200
  const CREATED: nat := 201
  const BAD_REQUEST: nat := 400
  const UNAUTHORIZED: nat := 401
  const FORBIDDEN: nat := 403
  const NOT_FOUND: nat := 404
  const CONFLICT: nat := 409
  const SERVER_ERROR: nat := 500

  /** A request guard: let the request through, or answer with an error
      status and stop. */
  datatype Guard = Pass | Deny(code: nat)
}
