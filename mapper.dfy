/** Conversions between the request bodies, the entity and the response body. */
module EmployeeMapper {
  import opened Wrappers
  import opened Model

  /** The entity built from a create request (the first `updateEmployee`
      overload). The random UUID of the Java service is the parameter `freshId`. */
  function NewEmployee(request: CreateEmployeeRequest, freshId: Uuid): (e: Employee)
    ensures e.id == freshId
    ensures e.Details() == request.Details()
  {
    Employee(freshId, request.email, request.fullName, request.birthday, request.hobbies)
  }

  /** The value an entity has after the in-place update mapping. */
  function Updated(employee: Employee, request: UpdateEmployeeRequest): (e: Employee)
    ensures e.id == employee.id
    ensures e.Details() == request.Details()
  {
    employee.(email := request.email, fullName := request.fullName,
              birthday := request.birthday, hobbies := request.hobbies)
  }

  /** The second `updateEmployee` overload: overwrites the four data fields of
      `employee` in place, absent ones included, and returns the same object. */
  method UpdateEmployee(request: UpdateEmployeeRequest, employee: EmployeeEntity)
    returns (r: EmployeeEntity)
    modifies employee
    ensures r == employee
    ensures employee.Value() == Updated(old(employee.Value()), request)
  {
    employee.email := request.email;
    employee.fullName := request.fullName;
    employee.birthday := request.birthday;
    employee.hobbies := request.hobbies;
    r := employee;
  }

  /** The response body for an entity: id and data fields copied one to one. */
  function MapToCreateEmployeeResponse(employee: Employee): (r: CreateEmployeeResponse)
    ensures r.id == employee.id
    ensures r.Details() == employee.Details()
  {
    CreateEmployeeResponse(employee.id, employee.email, employee.fullName,
                           employee.birthday, employee.hobbies)
  }

  /** The response mapping loses nothing: two entities map to the same
      response exactly when they are the same entity. */
  lemma ResponseMappingIsOneToOne(a: Employee, b: Employee)
    ensures MapToCreateEmployeeResponse(a) == MapToCreateEmployeeResponse(b) <==> a == b
  {
  }

  /** Create request to entity to response: the request's fields plus the fresh id. */
  lemma CreateResponseRoundTrip(request: CreateEmployeeRequest, freshId: Uuid)
    ensures MapToCreateEmployeeResponse(NewEmployee(request, freshId))
         == CreateEmployeeResponse(freshId, request.email, request.fullName,
                                   request.birthday, request.hobbies)
  {
  }

  /** Applying the update mapping twice with one request equals applying it once. */
  lemma UpdateIsIdempotent(employee: Employee, request: UpdateEmployeeRequest)
    ensures Updated(Updated(employee, request), request) == Updated(employee, request)
  {
  }

  /** There is no merge: the prior data fields do not influence the result. */
  lemma UpdateDiscardsPriorDetails(a: Employee, b: Employee, request: UpdateEmployeeRequest)
    requires a.id == b.id
    ensures Updated(a, request) == Updated(b, request)
  {
  }

  /** An update that carries only an email clears the other three fields. */
  lemma UpdateWithOnlyEmail(employee: Employee, email: string)
    ensures Updated(employee, UpdateEmployeeRequest(Some(email), None, None, None))
         == Employee(employee.id, Some(email), None, None, None)
  {
  }
}
