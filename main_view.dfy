/**
 * MainView: the dispatch of the view model's string-tagged messages and
 * the trail drawing of DrawPoints on the window's canvas.
 */
module Views {
  import opened Wrappers
  import opened Text
  import opened Files
  import opened Controls
  import opened Trail
  import opened ViewModels

  /**
   * The two message registrations: mouse moves (NotificationMessage of a
   * pair of mouse events) and export requests (NotificationMessageAction).
   */
  datatype Channel = MouseMessages | ActionMessages

  datatype Handler = DrawPointsHandler | ExportLocationHandler

  /** A message either reaches a handler or raises ArgumentOutOfRangeException. */
  datatype Routed = Handled(handler: Handler) | ArgumentOutOfRange(notification: string)

  /** The tag each channel accepts, compared with the lowered notification. */
  function AcceptedTag(c: Channel): string {
    match c
    case MouseMessages => "mousemoved"
    case ActionMessages => "export"
  }

  function HandlerOf(c: Channel): Handler {
    match c
    case MouseMessages => DrawPointsHandler
    case ActionMessages => ExportLocationHandler
  }

  /**
   * The switch on message.Notification.ToLowerInvariant() of each
   * registration: a tag is handled exactly when it spells the channel's tag
   * in any mix of capitals and small letters.
   */
  function Route(c: Channel, notification: string): (r: Routed)
    ensures r.Handled? <==> SameUpToCase(notification, AcceptedTag(c))
    ensures r.Handled? ==> r.handler == HandlerOf(c)
    ensures r.ArgumentOutOfRange? ==> r.notification == notification
  {
    assert NoCapitals(AcceptedTag(c));
    LoweredEqualsUpToCase(notification, AcceptedTag(c));
    if ToLowerInvariant(notification) == AcceptedTag(c) then Handled(HandlerOf(c))
    else ArgumentOutOfRange(notification)
  }

  /** Routing ignores case: two tags that lower alike go the same way. */
  lemma RouteIgnoresCase(c: Channel, n1: string, n2: string)
    requires ToLowerInvariant(n1) == ToLowerInvariant(n2)
    ensures Route(c, n1).Handled? == Route(c, n2).Handled?
    ensures Route(c, n1).Handled? ==> Route(c, n1) == Route(c, n2)
  {
  }

  /**
   * The tag the view model sends on a mouse move, "MouseMoved", reaches
   * DrawPoints and is refused on the action channel.
   */
  lemma MouseMovedIsRouted()
    ensures Route(MouseMessages, "MouseMoved") == Handled(DrawPointsHandler)
    ensures Route(ActionMessages, "MouseMoved") == ArgumentOutOfRange("MouseMoved")
  {
    LowersTo("MouseMoved", "mousemoved");
  }

  /**
   * The tag of the export request, "Export", reaches GetExportLocation and
   * is refused on the mouse channel.
   */
  lemma ExportIsRouted()
    ensures Route(ActionMessages, "Export") == Handled(ExportLocationHandler)
    ensures Route(MouseMessages, "Export") == ArgumentOutOfRange("Export")
  {
    LowersTo("Export", "export");
  }

  class MainView {
    const window: Window
    /** The grid named container; its first Canvas is the drawing canvas. */
    const container: Grid
    const canvas: Canvas
    const vm: MainViewModel
    var prevPoint: Point
    var ellipseMultiplier: int
    var lastStopped: int

    ghost predicate Valid()
      reads this, container
    {
      FoundCanvas(container.children) == Some(canvas)
    }

    function State(): TrailState
      reads this
    {
      TrailState(prevPoint, ellipseMultiplier, lastStopped)
    }

    function WindowBounds(): Bounds
      reads this, window
    {
      Bounds(window.left, window.top, window.actualWidth, window.actualHeight)
    }

    constructor(window: Window, container: Grid, canvas: Canvas, vm: MainViewModel)
      requires FoundCanvas(container.children) == Some(canvas)
      ensures Valid() && State() == Initial
      ensures this.window == window && this.container == container
      ensures this.canvas == canvas && this.vm == vm
    {
      this.window, this.container, this.canvas, this.vm := window, container, canvas, vm;
      prevPoint, ellipseMultiplier, lastStopped := NoPoint, 0, 0;
    }

    method AddToCanvas(e: Element)
      modifies canvas
      ensures canvas.children == old(canvas.children) + [e]
    {
      canvas.children := canvas.children + [e];
    }

    /**
     * One cursor sample: the trail state and the canvas follow Step, and
     * when Step requests it the view model exports the container (with
     * deletePrevious = true) before anything is drawn.
     */
    method DrawPoints(pos: Point, secondsSinceStop: int, now: int, ticks: nat)
      requires Valid()
      modifies this, canvas, container, vm, vm.fs
      ensures Valid()
      ensures var r := Step(old(State()), old(WindowBounds()), Sample(pos, secondsSinceStop, now));
        && State() == r.next
        && canvas.children == After(old(canvas.children), r)
        && (r.exported ==> ExportEffect(vm, container, true, None, ticks))
        && (!r.exported ==> unchanged(vm, container, vm.fs))
    {
      ghost var stop := StopPhase(State(), WindowBounds(), secondsSinceStop);
      HandleStop(secondsSinceStop, ticks);
      ghost var afterStop := canvas.children;
      DrawLine(pos, now);
      assert canvas.children == afterStop + MovePhase(stop.next, WindowBounds(), pos, now).drawn;
    }

    /**
     * The first half of DrawPoints: a stop of more than two seconds exports
     * the container and a stop of any length sets the marker multiplier;
     * moving again after a stop draws the marker at the previous point.
     */
    method HandleStop(secondsSinceStop: int, ticks: nat)
      requires Valid()
      modifies this, canvas, container, vm, vm.fs
      ensures Valid()
      ensures var r := StopPhase(old(State()), WindowBounds(), secondsSinceStop);
        && State() == r.next
        && canvas.children == After(old(canvas.children), r)
        && (r.exported ==> ExportEffect(vm, container, true, None, ticks))
        && (!r.exported ==> unchanged(vm, container, vm.fs))
    {
      if secondsSinceStop > 0 {
        if secondsSinceStop > 2 {
          AutoExport(ticks);
        }
        ellipseMultiplier := secondsSinceStop;
      } else if ellipseMultiplier > 0 {
        AddToCanvas(Marker(prevPoint.x - window.left, prevPoint.y - window.top, ellipseMultiplier));
        ellipseMultiplier := 0;
      }
    }

    /** Vm.Export(container, true): the automatic export that clears the canvas. */
    method AutoExport(ticks: nat)
      requires Valid()
      modifies canvas, container, vm, vm.fs
      ensures Valid()
      ensures canvas.children == []
      ensures ExportEffect(vm, container, true, None, ticks)
    {
      MoveImageToFrontKeepsCanvas(container.children);
      vm.Export(container, true, None, ticks);
    }

    /**
     * The second half of DrawPoints: a point outside the window forgets the
     * previous point; otherwise the line from the previous point (or from
     * itself after a reset) is drawn when both are on non-negative
     * coordinates.
     */
    method DrawLine(pos: Point, now: int)
      requires Valid()
      modifies this, canvas
      ensures Valid()
      ensures var r := MovePhase(old(State()), WindowBounds(), pos, now);
        && State() == r.next
        && canvas.children == old(canvas.children) + r.drawn
    {
      var b := WindowBounds();
      if !Inside(b, pos) {
        prevPoint := NoPoint;
        return;
      }

      var currentPoint := pos;
      if prevPoint.x < 0 && prevPoint.y < 0 {
        prevPoint := currentPoint;
      }
      if currentPoint.x < 0 || currentPoint.y < 0 || prevPoint.x < 0 || prevPoint.y < 0 {
        return;
      }

      canvas.children := canvas.children + [Segment(b, prevPoint, currentPoint)];
      prevPoint := currentPoint;
      lastStopped := now;
    }

    /** The mouse-moved registration: "mousemoved" in any case draws, any other tag is refused. */
    method ReceiveMouseMessage(notification: string, pos: Point, secondsSinceStop: int, now: int, ticks: nat)
      returns (error: Option<string>)
      requires Valid()
      modifies this, canvas, container, vm, vm.fs
      ensures Valid()
      ensures error.Some? <==> Route(MouseMessages, notification).ArgumentOutOfRange?
      ensures error.Some? ==> error.value == notification && unchanged(this, canvas, container, vm, vm.fs)
      ensures error.None? ==>
        var r := Step(old(State()), old(WindowBounds()), Sample(pos, secondsSinceStop, now));
        State() == r.next && canvas.children == After(old(canvas.children), r)
    {
      match Route(MouseMessages, notification)
      case Handled(_) =>
        DrawPoints(pos, secondsSinceStop, now, ticks);
        error := None;
      case ArgumentOutOfRange(n) =>
        error := Some(n);
    }

    /**
     * The export request: when the save dialog returns a file name, the
     * container is exported there with deletePrevious = false; a cancelled
     * dialog changes nothing.
     */
    method GetExportLocation(chosen: Option<string>, ticks: nat)
      requires Valid()
      modifies canvas, container, vm, vm.fs
      ensures Valid()
      ensures chosen.None? ==> unchanged(canvas, container, vm, vm.fs)
      ensures chosen.Some? ==>
        && canvas.children == []
        && container.children == MoveImageToFront(old(container.children))
        && vm.currentCachedImage == UriString(chosen.value)
        && vm.wasExported
        && vm.filesToTryToDelete == old(vm.filesToTryToDelete)
        && vm.fs.files == (old(vm.fs.files) + {Canon(chosen.value)}) - Deletable(vm.filesToTryToDelete, vm.fs.locked)
        && vm.fs.dirs == old(vm.fs.dirs)
    {
      if chosen.Some? {
        MoveImageToFrontKeepsCanvas(container.children);
        vm.Export(container, false, chosen, ticks);
      }
    }

    /** The export registration: "export" in any case opens the dialog, any other tag is refused. */
    method ReceiveActionMessage(notification: string, chosen: Option<string>, ticks: nat)
      returns (error: Option<string>)
      requires Valid()
      modifies canvas, container, vm, vm.fs
      ensures Valid()
      ensures error.Some? <==> Route(ActionMessages, notification).ArgumentOutOfRange?
      ensures error.Some? || chosen.None? ==> unchanged(canvas, container, vm, vm.fs)
      ensures error.None? && chosen.Some? ==>
        canvas.children == [] && vm.currentCachedImage == UriString(chosen.value) && vm.wasExported
    {
      match Route(ActionMessages, notification)
      case Handled(_) =>
        GetExportLocation(chosen, ticks);
        error := None;
      case ArgumentOutOfRange(n) =>
        error := Some(n);
    }
  }
}
