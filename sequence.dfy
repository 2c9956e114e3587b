/** Named sequences of the Infobase store (infogami/infobase/_dbstore/sequence.py): the `seq`
    table maps a name to its last value. */
module Sequences {
  /** What `fire_event` hands the listener. */
  datatype Event = Event(kind: string, name: string, value: int)

  class SequenceImpl {
    /** The `seq` table. */
    var values: map<string, int>
    /** What the listener has been told, in order. */
    var events: seq<Event>

    constructor ()
      ensures values == map[] && events == []
    {
      values := map[];
      events := [];
    }

    /** `get_value(name)`: the stored value, 0 for a name with no row. */
    function GetValue(name: string): (v: int)
      reads this
      ensures name !in values ==> v == 0
      ensures name in values ==> v == values[name]
    {
      if name in values then values[name] else 0
    }

    /** `next_value(name, increment)`: one more than the stored value, 1 for a new name; the
        increment is not used. Other sequences are untouched. */
    method NextValue(name: string, increment: int) returns (v: int)
      modifies this
      ensures v == old(GetValue(name)) + 1
      ensures name !in old(values) ==> v == 1
      ensures values == old(values)[name := v] && events == old(events)
      ensures GetValue(name) == v
      ensures forall n :: n != name ==> GetValue(n) == old(GetValue(n))
    {
      if name in values {
        v := values[name] + 1;
      } else {
        v := 1;
      }
      values := values[name := v];
    }

    /** `set_value(name, value)`: stores and returns the value. */
    method SetValue(name: string, value: int) returns (v: int)
      modifies this
      ensures v == value
      ensures values == old(values)[name := value] && events == old(events)
      ensures GetValue(name) == value
      ensures forall n :: n != name ==> GetValue(n) == old(GetValue(n))
    {
      values := values[name := value];
      v := value;
    }

    /** `fire_event(event_name, name, value)`: the listener is always told "seq.set",
        whatever the event name. */
    method FireEvent(eventName: string, name: string, value: int)
      modifies this
      ensures events == old(events) + [Event("seq.set", name, value)] && values == old(values)
    {
      events := events + [Event("seq.set", name, value)];
    }
  }
}
