/** The change-event topic. Every message is keyed by an employee id; an
    upsert carries the whole entity, a deletion carries no payload. A consumer
    that applies the messages in order keeps a view of the employee table. */
module Events {
  import opened Model

  datatype Event = Upsert(employee: Employee) | Deletion(id: Uuid)
  {
    /** The message key: the id of the employee the event is about. */
    function Key(): Uuid {
      match this
      case Upsert(e) => e.id
      case Deletion(id) => id
    }
  }

  /** A consumer's view after one more message: only the message's key changes;
      an upsert puts the carried entity there, a deletion removes it. */
  function Apply(view: map<Uuid, Employee>, event: Event): (r: map<Uuid, Employee>)
    ensures event.Key() in r <==> event.Upsert?
    ensures event.Upsert? ==> r[event.Key()] == event.employee
    ensures forall id :: id != event.Key() ==> (id in r <==> id in view)
    ensures forall id :: id != event.Key() && id in view ==> r[id] == view[id]
  {
    match event
    case Upsert(e) => view[e.id := e]
    case Deletion(id) => view - {id}
  }

  /** A consumer's view after the messages `events`, starting from `view`. */
  function ReplayFrom(view: map<Uuid, Employee>, events: seq<Event>): (r: map<Uuid, Employee>)
    ensures Keyed(view) ==> Keyed(r)
    decreases |events|
  {
    if events == [] then view else ReplayFrom(Apply(view, events[0]), events[1..])
  }

  /** Replaying two stretches of the log one after the other is replaying their concatenation. */
  lemma {:induction false} ReplayConcat(view: map<Uuid, Employee>, first: seq<Event>, second: seq<Event>)
    ensures ReplayFrom(view, first + second) == ReplayFrom(ReplayFrom(view, first), second)
    decreases |first|
  {
    if first == [] {
      assert first + second == second;
    } else {
      assert (first + second)[0] == first[0];
      assert (first + second)[1..] == first[1..] + second;
      ReplayConcat(Apply(view, first[0]), first[1..], second);
    }
  }

  /** Appending one message to the log, read from position `start`, applies it
      to the view the log had before. */
  lemma ReplayAppend(view: map<Uuid, Employee>, log: seq<Event>, start: nat, event: Event)
    requires start <= |log|
    ensures ReplayFrom(view, (log + [event])[start..]) == Apply(ReplayFrom(view, log[start..]), event)
  {
    assert (log + [event])[start..] == log[start..] + [event];
    ReplayConcat(view, log[start..], [event]);
    assert ReplayFrom(ReplayFrom(view, log[start..]), [event])
        == ReplayFrom(Apply(ReplayFrom(view, log[start..]), event), []);
  }

  /** The publishing side of the topic: the sequence of messages sent so far.
      Serialisation and the broker client are not part of this model; every
      send is taken to reach the topic. */
  class KafkaMessagePublishService {
    var events: seq<Event>

    constructor ()
      ensures events == []
    {
      events := [];
    }

    /** Sends the entity, keyed by its id. */
    method Publish(employee: Employee)
      modifies this
      ensures events == old(events) + [Upsert(employee)]
    {
      events := events + [Upsert(employee)];
    }

    /** Sends a message keyed by `employeeId` with a null payload. */
    method PublishDeletion(employeeId: Uuid)
      modifies this
      ensures events == old(events) + [Deletion(employeeId)]
    {
      events := events + [Deletion(employeeId)];
    }
  }
}
