/** An event sink with room for so many more events. */
module Sink {
  import opened Symbols

  /** What a sink with this much room takes of these events. */
  function Taken(events: seq<Event>, room: nat): seq<Event>
  {
    if |events| <= room then events else events[..room]
  }

  class Outbox {
    var events: seq<Event>
    var room: nat

    constructor ()
      ensures events == [] && room == 0
    {
      events, room := [], 0;
    }

    /** This call has emitted exactly these events so far. */
    ghost predicate So(emitted: seq<Event>, before: seq<Event>, space: nat)
      reads this
    {
      events == before + emitted && |emitted| <= space && room == space - |emitted|
    }

    /** The call is over: of these events, all there was room for. */
    ghost predicate Over(all: seq<Event>, before: seq<Event>, space: nat)
      reads this
    {
      events == before + Taken(all, space) && room == space - |Taken(all, space)|
    }

    /** `EventContext::emit`: one more event, or a refusal that changes nothing. */
    method Emit(e: Event, ghost emitted: seq<Event>, ghost before: seq<Event>, ghost space: nat) returns (ok: bool)
      requires So(emitted, before, space)
      modifies this
      ensures ok == (|emitted| < space)
      ensures ok ==> So(emitted + [e], before, space)
      ensures !ok ==> forall more: seq<Event> {:trigger emitted + [e] + more} :: Over(emitted + [e] + more, before,
                                                                                      space)
      ensures !ok ==> Over(emitted + [e], before, space)
    {
      if room == 0 {
        forall more: seq<Event> ensures Over(emitted + [e] + more, before, space) {
          assert (emitted + [e] + more)[..space] == emitted;
        }
        assert (emitted + [e])[..space] == emitted;
        return false;
      }
      assert (before + emitted) + [e] == before + (emitted + [e]);
      events, room := events + [e], room - 1;
      return true;
    }

    lemma Finished(emitted: seq<Event>, before: seq<Event>, space: nat)
      requires So(emitted, before, space)
      ensures Over(emitted, before, space)
    {
    }

    lemma Untouched()
      ensures So([], events, room) && Over([], events, room)
    {
      assert events + [] == events;
    }
  }
}
