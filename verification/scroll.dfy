/**
  Scroll isolation on the panel: the `wheel` listener on `#sidebar` decides, from the
  event's vertical delta and the panel's scroll geometry, whether to cancel the
  event's default action or only to stop it propagating.
 */
module Scroll {

  /** What the listener did to the event. */
  datatype WheelResponse = WheelResponse(defaultPrevented: bool, propagationStopped: bool)

  /** The direction a wheel delta asks for. */
  datatype Direction = Up | Down | Still

  function DirectionOf(deltaY: int): Direction {
    if deltaY < 0 then Up else if deltaY > 0 then Down else Still
  }

  /**
    Whether a panel scrolled to `scrollTop`, `clientHeight` tall, over `scrollHeight`
    of content, can still move in direction `d`.
   */
  predicate HasRoom(d: Direction, scrollTop: int, clientHeight: int, scrollHeight: int) {
    match d
    case Up => scrollTop > 0
    case Down => scrollTop + clientHeight < scrollHeight
    case Still => true
  }

  /**
    The listener: at the top boundary scrolling up, or at the bottom boundary
    scrolling down, the default action is cancelled and the handler returns before
    stopping propagation; otherwise only propagation is stopped. The event is
    cancelled exactly when the panel has no room left in the direction asked for,
    except for an upward wheel at a negative (overscrolled) `scrollTop`.
   */
  function SidebarWheel(deltaY: int, scrollTop: int, clientHeight: int, scrollHeight: int): (r: WheelResponse)
    ensures r.propagationStopped <==> !r.defaultPrevented
    ensures DirectionOf(deltaY) != Up || 0 <= scrollTop ==>
              (r.defaultPrevented <==> !HasRoom(DirectionOf(deltaY), scrollTop, clientHeight, scrollHeight))
    ensures deltaY == 0 ==> !r.defaultPrevented
  {
    if deltaY < 0 && scrollTop == 0 then WheelResponse(true, false)
    else if deltaY > 0 && scrollTop + clientHeight >= scrollHeight then WheelResponse(true, false)
    else WheelResponse(false, true)
  }

  /** A panel whose content fits entirely cancels every downward scroll. */
  lemma FittingContentCancelsDownward(deltaY: int, scrollTop: int, clientHeight: int, scrollHeight: int)
    requires deltaY > 0 && 0 <= scrollTop && scrollHeight <= clientHeight
    ensures SidebarWheel(deltaY, scrollTop, clientHeight, scrollHeight).defaultPrevented
  {
  }

  /**
    A panel pulled past its top (a negative `scrollTop`, as elastic overscroll
    reports it) is not at `scrollTop == 0`, so an upward wheel there is only kept
    from propagating, not cancelled.
   */
  lemma OverscrolledTopNotCancelled(deltaY: int, scrollTop: int, clientHeight: int, scrollHeight: int)
    requires deltaY < 0 && scrollTop < 0
    ensures var r := SidebarWheel(deltaY, scrollTop, clientHeight, scrollHeight);
            !r.defaultPrevented && r.propagationStopped
  {
  }

  /** Scrolling the other way from a boundary is never cancelled while there is room. */
  lemma AwayFromBoundaryPropagationStopped(deltaY: int, scrollTop: int, clientHeight: int, scrollHeight: int)
    requires HasRoom(DirectionOf(deltaY), scrollTop, clientHeight, scrollHeight)
    ensures SidebarWheel(deltaY, scrollTop, clientHeight, scrollHeight) == WheelResponse(false, true)
  {
  }
}
