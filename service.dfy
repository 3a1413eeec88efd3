/** The employee service: create/read/update/delete over the repository, with
    one message published after each write. */
module Service {
  import opened Wrappers
  import opened Model
  import opened EmployeeMapper
  import opened Events
  import opened Store

  /** No two stored employees share an email. Create keeps this; update does
      not check it. */
  predicate EmailsUnique(documents: map<Uuid, Employee>) {
    forall a, b :: a in documents && b in documents && a != b ==>
      documents[a].email != documents[b].email
  }

  /** The service works on any collection keyed by id, including one that
      other writers change between calls. While it is the only writer, its
      messages form a change log of the collection: `Valid()` below. */
  class EmployeeService {
    const repository: EmployeeRepository
    const publisher: KafkaMessagePublishService

    /** The table as it was when the service started, and the length of the
        topic then. */
    ghost const baseline: map<Uuid, Employee>
    ghost const logStart: nat

    /** Replaying what was published since the start, on top of the starting
        table, yields the table as it is now. */
    ghost predicate Valid()
      reads repository, publisher
      ensures Valid() ==> Keyed(repository.documents)
    {
      && Keyed(baseline)
      && logStart <= |publisher.events|
      && ReplayFrom(baseline, publisher.events[logStart..]) == repository.documents
    }

    constructor (repository: EmployeeRepository, publisher: KafkaMessagePublishService)
      requires Keyed(repository.documents)
      ensures this.repository == repository && this.publisher == publisher
      ensures baseline == repository.documents && logStart == |publisher.events|
      ensures Valid()
    {
      this.repository := repository;
      this.publisher := publisher;
      baseline := repository.documents;
      logStart := |publisher.events|;
      new;
      assert publisher.events[|publisher.events|..] == [];
    }

    /** `createEmployee`. The random UUID of the Java service is `freshId`. */
    method CreateEmployee(request: CreateEmployeeRequest, freshId: Uuid)
      returns (r: Result<CreateEmployeeResponse, ServiceError>)
      requires Keyed(repository.documents)
      requires freshId !in repository.documents
      modifies repository, publisher
      ensures Keyed(repository.documents)
      ensures old(Valid()) ==> Valid()
      ensures EmailTaken(old(repository.documents), request.email) ==>
        && r == Failure(AlreadyExists)
        && r.error.ErrorCode() == 400
        && r.error.Message() == "Employee with the same email already exists"
        && repository.documents == old(repository.documents)
        && publisher.events == old(publisher.events)
      ensures !EmailTaken(old(repository.documents), request.email) ==>
        var saved := NewEmployee(request, freshId);
        && repository.documents == old(repository.documents)[freshId := saved]
        && repository.documents == Apply(old(repository.documents), Upsert(saved))
        && publisher.events == old(publisher.events) + [Upsert(saved)]
        && r == Success(MapToCreateEmployeeResponse(saved))
    {
      ghost var wasValid := Valid();
      var existing := repository.FindByEmail(request.email);
      if existing.Some? {
        return Failure(AlreadyExists);
      }
      var employee := repository.Save(NewEmployee(request, freshId));
      if wasValid {
        ReplayAppend(baseline, publisher.events, logStart, Upsert(employee));
      }
      publisher.Publish(employee);
      r := Success(MapToCreateEmployeeResponse(employee));
    }

    /** `getAllEmployees`: every stored employee exactly once. */
    method GetAllEmployees() returns (all: seq<Employee>)
      requires Keyed(repository.documents)
      ensures |all| == |repository.documents|
      ensures forall e :: e in all <==> e in repository.documents.Values
      ensures forall i, j :: 0 <= i < j < |all| ==> all[i] != all[j]
    {
      all := repository.FindAll();
    }

    /** `getEmployeeById`. */
    method GetEmployeeById(employeeId: Uuid) returns (r: Result<Employee, ServiceError>)
      requires Keyed(repository.documents)
      ensures r.Success? <==> employeeId in repository.documents
      ensures r.Success? ==> r.value == repository.documents[employeeId] && r.value.id == employeeId
      ensures r.Failure? ==> r.error == NotFound && r.error.ErrorCode() == 404
      ensures r.Failure? ==> r.error.Message() == "Employee not found"
    {
      var found := repository.FindById(employeeId);
      if found.None? {
        return Failure(NotFound);
      }
      r := Success(found.value);
    }

    /** `updateEmployee`: a full overwrite of the four data fields. */
    method UpdateEmployee(employeeId: Uuid, request: UpdateEmployeeRequest)
      returns (r: Result<Employee, ServiceError>)
      requires Keyed(repository.documents)
      modifies repository, publisher
      ensures Keyed(repository.documents)
      ensures old(Valid()) ==> Valid()
      ensures employeeId !in old(repository.documents) ==>
        && r == Failure(NotFound)
        && r.error.ErrorCode() == 404
        && r.error.Message() == "Employee not found"
        && repository.documents == old(repository.documents)
        && publisher.events == old(publisher.events)
      ensures employeeId in old(repository.documents) ==>
        var updated := Updated(old(repository.documents)[employeeId], request);
        && updated.id == employeeId
        && repository.documents == old(repository.documents)[employeeId := updated]
        && repository.documents == Apply(old(repository.documents), Upsert(updated))
        && publisher.events == old(publisher.events) + [Upsert(updated)]
        && r == Success(updated)
    {
      ghost var wasValid := Valid();
      var found := repository.FindById(employeeId);
      if found.None? {
        return Failure(NotFound);
      }
      var employee := new EmployeeEntity.Load(found.value);
      employee := EmployeeMapper.UpdateEmployee(request, employee);
      var updatedEmployee := repository.Save(employee.Value());
      if wasValid {
        ReplayAppend(baseline, publisher.events, logStart, Upsert(updatedEmployee));
      }
      publisher.Publish(updatedEmployee);
      r := Success(updatedEmployee);
    }

    /** `deleteEmployee`: never fails; one deletion message whether or not the id was stored. */
    method DeleteEmployee(employeeId: Uuid)
      requires Keyed(repository.documents)
      modifies repository, publisher
      ensures Keyed(repository.documents)
      ensures old(Valid()) ==> Valid()
      ensures repository.documents == old(repository.documents) - {employeeId}
      ensures repository.documents == Apply(old(repository.documents), Deletion(employeeId))
      ensures publisher.events == old(publisher.events) + [Deletion(employeeId)]
    {
      ghost var wasValid := Valid();
      repository.DeleteById(employeeId);
      if wasValid {
        ReplayAppend(baseline, publisher.events, logStart, Deletion(employeeId));
      }
      publisher.PublishDeletion(employeeId);
    }
  }

  /** A create with a fresh email followed by a lookup of the new id returns
      the request's fields under the new id. */
  method CreateThenGet(service: EmployeeService, request: CreateEmployeeRequest, freshId: Uuid)
    returns (created: Result<CreateEmployeeResponse, ServiceError>, fetched: Result<Employee, ServiceError>)
    requires Keyed(service.repository.documents)
    requires freshId !in service.repository.documents
    requires !EmailTaken(service.repository.documents, request.email)
    modifies service.repository, service.publisher
    ensures created.Success? && created.value.id == freshId
    ensures fetched == Success(Employee(freshId, request.email, request.fullName,
                                        request.birthday, request.hobbies))
  {
    created := service.CreateEmployee(request, freshId);
    fetched := service.GetEmployeeById(freshId);
  }

  /** A second create with the same email is rejected and changes nothing. */
  method CreateTwiceWithSameEmail(service: EmployeeService, request: CreateEmployeeRequest,
                                  firstId: Uuid, secondId: Uuid)
    returns (first: Result<CreateEmployeeResponse, ServiceError>, second: Result<CreateEmployeeResponse, ServiceError>)
    requires Keyed(service.repository.documents)
    requires firstId !in service.repository.documents && secondId !in service.repository.documents
    requires firstId != secondId
    requires !EmailTaken(service.repository.documents, request.email)
    modifies service.repository, service.publisher
    ensures first.Success? && second == Failure(AlreadyExists)
    ensures service.repository.documents
         == old(service.repository.documents)[firstId := NewEmployee(request, firstId)]
    ensures service.publisher.events
         == old(service.publisher.events) + [Upsert(NewEmployee(request, firstId))]
  {
    first := service.CreateEmployee(request, firstId);
    assert service.repository.documents[firstId].email == request.email;
    second := service.CreateEmployee(request, secondId);
  }

  /** Create keeps emails unique: a new employee is only added when its email is free. */
  lemma CreateKeepsEmailsUnique(documents: map<Uuid, Employee>, request: CreateEmployeeRequest, freshId: Uuid)
    requires EmailsUnique(documents)
    requires freshId !in documents
    requires !EmailTaken(documents, request.email)
    ensures EmailsUnique(documents[freshId := NewEmployee(request, freshId)])
  {
  }

  /** Update does not check emails: in any table, updating one employee with
      another's email leaves two employees with that email. */
  lemma UpdateCanDuplicateEmail(documents: map<Uuid, Employee>, a: Uuid, b: Uuid,
                                request: UpdateEmployeeRequest)
    requires a != b && a in documents && b in documents
    requires documents[a].email != documents[b].email
    requires request.email == documents[b].email
    ensures !EmailsUnique(documents[a := Updated(documents[a], request)])
  {
    var after := documents[a := Updated(documents[a], request)];
    assert after[a].email == after[b].email;
  }
}
