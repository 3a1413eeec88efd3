/** The data shapes of the employee service: the persisted entity, the two
    request bodies, the response body and the two domain errors. Strings,
    dates and hobby lists are carried as opaque values; a Java field that may be
    null is an Option. */
module Model {
  import opened Wrappers

  /** java.util.UUID, kept as its two 64-bit halves and never interpreted. */
  datatype Uuid = Uuid(mostSigBits: bv64, leastSigBits: bv64)

  /** java.time.LocalDate, an opaque calendar date (no date arithmetic). */
  datatype LocalDate = LocalDate(year: int, month: int, day: int)

  /** The four data fields that every shape below carries. */
  datatype EmployeeDetails = EmployeeDetails(
    email: Option<string>,
    fullName: Option<string>,
    birthday: Option<LocalDate>,
    hobbies: Option<seq<string>>)

  /** The persisted employee document, as stored, published and returned. */
  datatype Employee = Employee(
    id: Uuid,
    email: Option<string>,
    fullName: Option<string>,
    birthday: Option<LocalDate>,
    hobbies: Option<seq<string>>)
  {
    function Details(): EmployeeDetails {
      EmployeeDetails(email, fullName, birthday, hobbies)
    }
  }

  /** Body of a create call. The bean-validation constraints on it are not
      part of this model, so every field may be absent. */
  datatype CreateEmployeeRequest = CreateEmployeeRequest(
    email: Option<string>,
    fullName: Option<string>,
    birthday: Option<LocalDate>,
    hobbies: Option<seq<string>>)
  {
    function Details(): EmployeeDetails {
      EmployeeDetails(email, fullName, birthday, hobbies)
    }
  }

  /** Body of an update call; an absent field is written as null. */
  datatype UpdateEmployeeRequest = UpdateEmployeeRequest(
    email: Option<string>,
    fullName: Option<string>,
    birthday: Option<LocalDate>,
    hobbies: Option<seq<string>>)
  {
    function Details(): EmployeeDetails {
      EmployeeDetails(email, fullName, birthday, hobbies)
    }
  }

  /** Body returned by a successful create call. */
  datatype CreateEmployeeResponse = CreateEmployeeResponse(
    id: Uuid,
    email: Option<string>,
    fullName: Option<string>,
    birthday: Option<LocalDate>,
    hobbies: Option<seq<string>>)
  {
    function Details(): EmployeeDetails {
      EmployeeDetails(email, fullName, birthday, hobbies)
    }
  }

  /** The two domain errors, with the message and code the service throws them with. */
  datatype ServiceError = AlreadyExists | NotFound
  {
    /** The text the exception is thrown with. */
    function Message(): (msg: string)
      ensures msg == "Employee with the same email already exists" <==> this == AlreadyExists
      ensures msg == "Employee not found" <==> this == NotFound
    {
      match this
      case AlreadyExists => "Employee with the same email already exists"
      case NotFound => "Employee not found"
    }

    /** The code the exception carries; the HTTP layer answers 400 for a
        duplicate email and 404 for a missing id. */
    function ErrorCode(): (code: int)
      ensures code == 400 <==> this == AlreadyExists
      ensures code == 404 <==> this == NotFound
    {
      match this
      case AlreadyExists => 400
      case NotFound => 404
    }
  }

  /** A collection of documents is keyed by the documents' own ids. */
  predicate Keyed(documents: map<Uuid, Employee>) {
    forall id :: id in documents ==> documents[id].id == id
  }

  /** The in-memory Employee object, whose Lombok setters the update mapping
      calls; it is materialised from a stored document and saved back by value. */
  class EmployeeEntity {
    var id: Uuid
    var email: Option<string>
    var fullName: Option<string>
    var birthday: Option<LocalDate>
    var hobbies: Option<seq<string>>

    /** The document this object currently represents. */
    function Value(): Employee
      reads this
    {
      Employee(id, email, fullName, birthday, hobbies)
    }

    /** Materialises a stored document as a fresh object. */
    constructor Load(document: Employee)
      ensures Value() == document
    {
      id := document.id;
      email := document.email;
      fullName := document.fullName;
      birthday := document.birthday;
      hobbies := document.hobbies;
    }
  }
}
