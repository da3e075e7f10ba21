/** The event vocabulary of the global registry (src/store/events.ts). */
module StoreEvents {

  /** The members of the `EventTypes` constant object. */
  datatype EventType = NavbarToggleAccess | NavbarSetAccess | SidebarToggle {
    /** The string each member stands for. */
    function Name(): (name: string)
      ensures |name| > 0
    {
      match this
      case NavbarToggleAccess => "NAVBAR/TOGGLE_ACCESS"
      case NavbarSetAccess => "NAVBAR/SET_ACCESS"
      case SidebarToggle => "SIDEBAR/TOGGLE"
    }
  }

  /** The optional `payload` of a `GlobalEvent`. */
  datatype Payload = NoPayload | Value(value: bool)

  datatype GlobalEvent = GlobalEvent(eventType: EventType, payload: Payload)

  /** Distinct members stand for distinct strings, so keying the registry by
      member is keying it by string. */
  lemma NamesDistinct(a: EventType, b: EventType)
    requires a != b
    ensures a.Name() != b.Name()
  {
    assert |a.Name()| != |b.Name()|;
  }
}
