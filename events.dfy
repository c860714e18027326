/**
 * The older engine's event receiver (src/engine.cpp:252-259): it remembers
 * whether 'q' was pressed. The newer engine installs a receiver declared the
 * same way and is modelled with this one too.
 */
module Events {

  /** The key code of `irr::KEY_KEY_Q`. */
  const KeyQ: int := 0x51

  /** An input event as far as the receiver looks at it. */
  datatype Event = KeyInput(pressedDown: bool, key: int) | OtherEvent

  predicate IsQuitPress(e: Event)
  {
    e.KeyInput? && e.pressedDown && e.key == KeyQ
  }

  /** Whether quitting was requested once the events have been delivered. */
  predicate QuitAfter(quit: bool, events: seq<Event>)
  {
    quit || exists k :: 0 <= k < |events| && IsQuitPress(events[k])
  }

  class EventReceiver {
    var quit: bool

    /** A receiver starts with no quit request. */
    constructor ()
      ensures !quit
    {
      quit := false;
    }

    /**
     * `OnEvent`: a pressed-down 'q' sets the quit flag, nothing clears it,
     * and the event is never reported as handled.
     */
    method OnEvent(e: Event) returns (handled: bool)
      modifies this
      ensures quit == (old(quit) || IsQuitPress(e))
      ensures !handled
    {
      if e.KeyInput? {
        if e.pressedDown && e.key == KeyQ {
          quit := true;
        }
      }
      handled := false;
    }

    /** The library delivers a batch of events, one `OnEvent` call each. */
    method Deliver(events: seq<Event>)
      modifies this
      ensures quit == QuitAfter(old(quit), events)
    {
      var k := 0;
      while k < |events|
        invariant 0 <= k <= |events|
        invariant quit == QuitAfter(old(quit), events[..k])
      {
        var _ := OnEvent(events[k]);
        assert events[..k + 1][k] == events[k];
        assert forall i :: 0 <= i < k ==> events[..k + 1][i] == events[..k][i];
        k := k + 1;
      }
      assert events[..k] == events;
    }
  }
}
