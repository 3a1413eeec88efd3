# Employee service: a Dafny model of its business core

The employee service is a CRUD microservice. It keeps employee records (id, email, full name, birthday, hobbies) in a document store and publishes one change message to a topic after every write. Its only business logic sits in two Java classes, and this project models both:

- `EmployeeService` creates, reads, updates and deletes employees:
  - create is rejected when the email is already stored;
  - get and update fail with NotFound on a missing id;
  - update overwrites all four data fields, null ones included;
  - delete never fails and always publishes one deletion message.
- `EmployeeMapper` converts between the request bodies, the entity and the response body. One of its conversions mutates an entity in place.

Layout:

- `wrappers.dfy` (`Wrappers`): `Option` stands for a nullable Java reference. `Result` stands for a call that returns a value or throws a domain exception.
- `model.dfy` (`Model`): the data shapes.
  - `Employee` is the document the store holds, that messages carry and that the service returns.
  - `EmployeeEntity` is the mutable in-memory object the update mapping changes through its setters.
  - The request and response bodies.
  - `ServiceError` has two variants: `AlreadyExists` (message "Employee with the same email already exists", code 400) and `NotFound` ("Employee not found", 404).
- `mapper.dfy` (`EmployeeMapper`): the three conversions and their lemmas.
- `store.dfy` (`Store`): the repository as a class whose field is a map from id to document.
- `events.dfy` (`Events`): the topic as a class whose field is an append-only sequence of `Upsert(employee)` / `Deletion(id)` messages. It also defines `Apply` and `ReplayFrom`, which say what a consumer's view of the table is after reading the messages.
- `service.dfy` (`Service`): the `EmployeeService` class, two client methods for the create scenarios, and two lemmas about email uniqueness.

The service works on any store keyed by the documents' own ids. Each operation requires only that, and each write keeps it. The service's object invariant `Valid()` says that replaying the messages published since the service started, on top of the table as it was then, gives exactly the current table. `Valid()` implies that the table is keyed. Every write keeps `Valid()` when it held before. Each write also states its change to the table as `Apply` of the one message it publishes. So while the service is the only writer, the topic is a faithful change log of the table.

Email uniqueness is checked only on create, so the model does not claim that emails stay unique. `CreateKeepsEmailsUnique` proves that create preserves uniqueness. `UpdateCanDuplicateEmail` proves that update can break it.

## Model

| member | source | states |
|---|---|---|
| `EmployeeMapper.NewEmployee` | src/main/java/com/example/employeeservice/mapper/EmployeeMapper.java:11-18 | The entity built from a create request carries the supplied fresh id, and its email, full name, birthday and hobbies equal the request's. |
| `EmployeeMapper.Updated` | src/main/java/com/example/employeeservice/mapper/EmployeeMapper.java:21-26 | After the update mapping, the id is the entity's old id and all four data fields equal the request's, absent ones included. |
| `EmployeeMapper.UpdateEmployee` | src/main/java/com/example/employeeservice/mapper/EmployeeMapper.java:21-26 | Mutates only the passed entity. Its new value is `Updated` of its old value, and it returns that same object. |
| `EmployeeMapper.MapToCreateEmployeeResponse` | src/main/java/com/example/employeeservice/mapper/EmployeeMapper.java:29-37 | The response carries the entity's id and exactly its four data fields. |
| `EmployeeMapper.ResponseMappingIsOneToOne` | src/main/java/com/example/employeeservice/mapper/EmployeeMapper.java:29-37 | Two entities give the same response if and only if they are equal: the copy loses nothing. |
| `EmployeeMapper.CreateResponseRoundTrip` | src/main/java/com/example/employeeservice/mapper/EmployeeMapper.java:11-37 | The response of the entity built from a create request is the request's four fields plus the fresh id. |
| `EmployeeMapper.UpdateIsIdempotent` | src/main/java/com/example/employeeservice/mapper/EmployeeMapper.java:22-25 | Applying the update mapping twice with one request gives the same entity as applying it once. |
| `EmployeeMapper.UpdateDiscardsPriorDetails` | src/main/java/com/example/employeeservice/mapper/EmployeeMapper.java:22-25 | There is no merge: two entities with the same id give the same result, whatever their prior data fields. |
| `EmployeeMapper.UpdateWithOnlyEmail` | src/main/java/com/example/employeeservice/mapper/EmployeeMapper.java:22-25 | An update that carries only an email sets the full name, birthday and hobbies to null. |
| `Model.ServiceError.ErrorCode` | src/main/java/com/example/employeeservice/service/EmployeeService.java:29-50 | The code is 400 exactly for AlreadyExists and 404 exactly for NotFound, the codes the service throws them with. |
| `Model.ServiceError.Message` | src/main/java/com/example/employeeservice/service/EmployeeService.java:30-50 | The text is "Employee with the same email already exists" exactly for AlreadyExists and "Employee not found" exactly for NotFound, the texts the service throws them with. |
| `Model.EmployeeEntity.Load` | src/main/java/com/example/employeeservice/model/Employee.java:18-26 | A materialised object represents exactly the stored document it was loaded from. |
| `Events.Apply` | src/main/java/com/example/employeeservice/service/KafkaMessagePublishService.java:24-36 | A message changes a consumer's view only at its key. After an upsert the key holds the carried entity. After a deletion the key is absent. |
| `Events.ReplayFrom` | src/main/java/com/example/employeeservice/service/KafkaMessagePublishService.java:24-36 | Replaying messages onto a view keyed by id gives a view keyed by id. |
| `Events.ReplayConcat` | src/main/java/com/example/employeeservice/service/KafkaMessagePublishService.java:24-36 | Replaying two stretches of the log one after the other equals replaying their concatenation. |
| `Events.ReplayAppend` | src/main/java/com/example/employeeservice/service/KafkaMessagePublishService.java:24-36 | One more message on the log applies that message to the view the log gave before it. |
| `Events.KafkaMessagePublishService.Publish` | src/main/java/com/example/employeeservice/service/KafkaMessagePublishService.java:24-31 | Appends exactly one upsert message carrying the entity, which is keyed by its id. |
| `Events.KafkaMessagePublishService.PublishDeletion` | src/main/java/com/example/employeeservice/service/KafkaMessagePublishService.java:33-36 | Appends exactly one deletion message keyed by the id, with no payload. |
| `Store.EmployeeRepository.constructor` | src/main/java/com/example/employeeservice/repository/EmployeeRepository.java:11 | A repository starts from a table keyed by the documents' own ids, as a collection keyed by `_id` is. |
| `Store.EmployeeRepository.FindById` | src/main/java/com/example/employeeservice/repository/EmployeeRepository.java:11 | Finds a document exactly when the id is stored; it returns the stored document, whose id is that id. |
| `Store.EmployeeRepository.FindByEmail` | src/main/java/com/example/employeeservice/repository/EmployeeRepository.java:13 | Finds a document exactly when some stored employee has the email; it returns one of those. |
| `Store.EmployeeRepository.FindAll` | src/main/java/com/example/employeeservice/repository/EmployeeRepository.java:11 | Returns every stored document exactly once, in an order the store chooses. |
| `Store.EmployeeRepository.Save` | src/main/java/com/example/employeeservice/repository/EmployeeRepository.java:11 | Stores the document under its own id, replacing any older one, and returns it. A keyed table stays keyed. |
| `Store.EmployeeRepository.DeleteById` | src/main/java/com/example/employeeservice/repository/EmployeeRepository.java:11 | Removes the id's document; a missing id leaves the table as it was. A keyed table stays keyed. |
| `Service.EmployeeService.Valid` | src/main/java/com/example/employeeservice/service/EmployeeService.java:27-62 | The change-log invariant: replaying the messages published since the start onto the starting table gives the current table, and that table is keyed by id. |
| `Service.EmployeeService.constructor` | src/main/java/com/example/employeeservice/service/EmployeeService.java:20-25 | A service over a keyed table starts from that table and from the current end of the topic, so its log since start is empty, and it is valid. |
| `Service.EmployeeService.CreateEmployee` | src/main/java/com/example/employeeservice/service/EmployeeService.java:27-37 | When the email is taken: AlreadyExists, no write and no message. The error carries code 400 and its message. Otherwise: exactly one new key (the fresh id) holding the mapped entity, all other entries unchanged, exactly one upsert message carrying that entity, and the response of that entity. The new table is that message applied to the old one. The table stays keyed, and `Valid()` is kept when it held. |
| `Service.EmployeeService.GetAllEmployees` | src/main/java/com/example/employeeservice/service/EmployeeService.java:39-41 | Returns exactly the stored employees, each once and with no repeats. The table and the log are unchanged. |
| `Service.EmployeeService.GetEmployeeById` | src/main/java/com/example/employeeservice/service/EmployeeService.java:43-46 | Succeeds if and only if the id is stored, and then returns the stored employee, whose id is that id. Otherwise NotFound, with code 404 and its message. Nothing changes. |
| `Service.EmployeeService.UpdateEmployee` | src/main/java/com/example/employeeservice/service/EmployeeService.java:48-57 | On a missing id: NotFound with code 404 and its message, no write and no message. Otherwise the same key holds `Updated` of the old entity (same id, four fields from the request), all other entries are unchanged, exactly one upsert message carries it, and it is returned. The new table is that message applied to the old one. The table stays keyed, and `Valid()` is kept when it held. |
| `Service.EmployeeService.DeleteEmployee` | src/main/java/com/example/employeeservice/service/EmployeeService.java:59-62 | Never fails. Afterwards the id is not a key, all other entries are unchanged, and exactly one deletion message for the id has been appended, whether or not the id existed. The new table is that message applied to the old one. The table stays keyed, and `Valid()` is kept when it held. |
| `Service.CreateThenGet` | src/main/java/com/example/employeeservice/service/EmployeeService.java:27-46 | A create with a free email, followed by a lookup of the new id, returns the request's fields under the new id. |
| `Service.CreateTwiceWithSameEmail` | src/main/java/com/example/employeeservice/service/EmployeeService.java:27-37 | A second create with the same email fails with AlreadyExists. The table gains only the first employee, and only the first create publishes. |
| `Service.CreateKeepsEmailsUnique` | src/main/java/com/example/employeeservice/service/EmployeeService.java:28-33 | If emails are unique before a successful create, they are unique after it. |
| `Service.UpdateCanDuplicateEmail` | src/main/java/com/example/employeeservice/service/EmployeeService.java:48-57 | Update checks no email: in any table holding two employees with different emails, updating one with the other's email leaves two employees with that email. |

## Left out

- HTTP binding, status codes and authentication (`EmployeeController.java`, `SecurityConfiguration.java`) are transport plumbing. The error handler (`GlobalExceptionHandler.java`, `ErrorInfo.java`) maps NotFound to 404 and AlreadyExists to 400 and formats messages with `java.text.MessageFormat`. That is not modelled beyond the message and code carried by `ServiceError`.
- Bean Validation on the create request (`@Email`, `@NotBlank`, `@NotEmpty`) runs before the service and belongs to the validator library. The model therefore lets every request field be absent.
- The random UUID is a parameter of `CreateEmployee`. Its precondition requires it to be a fresh key, the uniqueness the random generator is relied on for. Dates, strings and hobby lists are opaque values.
- The document store is an abstract map. The store's behaviour when `findByEmail` matches several documents is not modelled: `FindByEmail` returns any one of them. A null email is matched against stored null emails by plain equality.
- `Events.KafkaMessagePublishService.Publish`: every publish is taken to reach the topic. The Java service catches and logs a JSON serialisation failure and then sends nothing. With that failure the log can miss an upsert, and the replay invariant would not hold. The topic name and the broker client are not modelled.
- The two exception classes are modelled as the `ServiceError` variants, not as Java classes.
- `Service.EmployeeService.Valid`: the change-log invariant is promised only while the service is the only writer of the store and the topic. Another writer that saves directly to the repository breaks it; the service's operations still work, since they require only a keyed table.
- Concurrency is out of scope. In particular, the race where two concurrent creates with one email both pass the check is not modelled; the model is sequential.
