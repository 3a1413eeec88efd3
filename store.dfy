/** The employee collection of the document store, as the repository
    interface exposes it: documents keyed by id, with a lookup by email. */
module Store {
  import opened Wrappers
  import opened Model

  /** Some stored employee has this email (null matching a null email). */
  predicate EmailTaken(documents: map<Uuid, Employee>, email: Option<string>) {
    exists id :: id in documents && documents[id].email == email
  }

  class EmployeeRepository {
    var documents: map<Uuid, Employee>

    constructor (initial: map<Uuid, Employee>)
      requires Keyed(initial)
      ensures documents == initial
    {
      documents := initial;
    }

    /** `findById`: the document stored under `id`, if any. */
    method FindById(id: Uuid) returns (r: Option<Employee>)
      requires Keyed(documents)
      ensures r.Some? <==> id in documents
      ensures r.Some? ==> r.value == documents[id] && r.value.id == id
    {
      if id in documents {
        r := Some(documents[id]);
      } else {
        r := None;
      }
    }

    /** `findByEmail`: some stored document with this email, if there is one. */
    method FindByEmail(email: Option<string>) returns (r: Option<Employee>)
      ensures r.Some? <==> EmailTaken(documents, email)
      ensures r.Some? ==> r.value in documents.Values && r.value.email == email
    {
      if id :| id in documents && documents[id].email == email {
        r := Some(documents[id]);
      } else {
        r := None;
      }
    }

    /** `findAll`: every stored document exactly once, in an order the store
        chooses (here: any order). */
    method FindAll() returns (all: seq<Employee>)
      requires Keyed(documents)
      ensures |all| == |documents|
      ensures forall e :: e in all <==> e in documents.Values
      ensures forall i, j :: 0 <= i < j < |all| ==> all[i] != all[j]
    {
      var pending := documents.Keys;
      all := [];
      while pending != {}
        invariant pending <= documents.Keys
        invariant |all| + |pending| == |documents.Keys|
        invariant forall i :: 0 <= i < |all| ==>
          all[i].id in documents && documents[all[i].id] == all[i] && all[i].id !in pending
        invariant forall id :: id in documents && id !in pending ==> documents[id] in all
        invariant forall i, j :: 0 <= i < j < |all| ==> all[i] != all[j]
        decreases pending
      {
        var id :| id in pending;
        all := all + [documents[id]];
        pending := pending - {id};
      }
    }

    /** `save`: stores the document under its own id, replacing any older one. */
    method Save(employee: Employee) returns (saved: Employee)
      modifies this
      ensures saved == employee
      ensures documents == old(documents)[employee.id := employee]
      ensures Keyed(old(documents)) ==> Keyed(documents)
    {
      documents := documents[employee.id := employee];
      saved := employee;
    }

    /** `deleteById`: removes the document if present; a missing id is a no-op. */
    method DeleteById(id: Uuid)
      modifies this
      ensures documents == old(documents) - {id}
      ensures Keyed(old(documents)) ==> Keyed(documents)
    {
      documents := documents - {id};
    }
  }
}
