/**
 * The scratch-card element: a canvas laid over slotted content, erased along
 * the pointer's path, that can report how much of it has been cleared.
 *
 * The browser is reduced to what the element's handlers observe and cause.
 * The 2D context is an object that records the drawing commands it receives
 * (Context2D); events dispatched by the element are appended to `events`;
 * attributes are a map; the results of foreign calls (getContext, getImageData,
 * getBoundingClientRect, CSS.supports, the canvas offsets) are parameters.
 */
module ScratchElement {
  import opened Wrappers
  import opened NumberParsing
  import opened Config
  import opened Coverage

  /** ScratchEvents.PERCENTAGE_UPDATE */
  const PercentageUpdateEvent := "percentage-update"

  /** A point in canvas pixels; exact rationals stand for the source's doubles. */
  datatype Vector = Vector(x: real, y: real)

  /** Device coordinates to canvas-local ones, by the canvas's offset on the page. */
  function Local(p: Vector, offset: Vector): Vector
  {
    Vector(p.x - offset.x, p.y - offset.y)
  }

  /** The (0.1, 0.1) nudge that keeps a one-point stroke from having zero length. */
  function Nudge(p: Vector): Vector
  {
    Vector(p.x + 0.1, p.y + 0.1)
  }

  /** globalCompositeOperation values the element uses. */
  datatype Composite = SourceOver | DestinationOut

  /**
   * What the element asks of the 2D context. A Stroke is a closed path from
   * `from` to `to`, stroked; a FillRect fills a rectangle, with fillStyle set
   * just before it (None: left as it was).
   */
  datatype Command =
    | Stroke(composite: Composite, from: Vector, to: Vector, lineWidth: Option<int>, lineJoin: LineJoin)
    | FillRect(composite: Composite, x: int, y: int, width: int, height: int, fillStyle: Option<string>)

  /** A dispatched CustomEvent: its type and its numeric detail. */
  datatype Event = Event(eventType: string, detail: int)

  /** The width and height of a bounding client rect. */
  datatype Bounds = Bounds(width: real, height: real)

  /** A canvas 2D context, reduced to the log of the commands it has received. */
  class Context2D {
    var log: seq<Command>

    constructor ()
      ensures log == []
    {
      log := [];
    }
  }

  /** The events calcAreaCleared adds: one sample when there is a context, none otherwise. */
  function SampleEvents(hasContext: bool, data: seq<Byte>): seq<Event>
    requires hasContext ==> |data| > 3
  {
    if hasContext then [Event(PercentageUpdateEvent, AreaCleared(data))] else []
  }

  class Scratch {
    /** The element's attributes, written by the host page. */
    var attributes: map<string, string>
    /** canvas.width and canvas.height */
    var canvasWidth: int
    var canvasHeight: int
    /** canvas.style.width and canvas.style.height */
    var styleWidth: string
    var styleHeight: string
    /** The 2D context; null when the host could not provide one. */
    var context: Context2D?
    /** The willReadFrequently hint passed when the context was last acquired. */
    var willReadFrequently: bool
    var lastPosition: Vector
    var isDrawing: bool
    /** Every event dispatched on the element, in order. */
    var events: seq<Event>

    /**
     * A fresh element: a default 300 by 150 canvas, the context the host
     * returns for getContext('2d') (`acquired`), idle, last position (0, 0).
     */
    constructor (attributes: map<string, string>, acquired: Context2D?)
      ensures this.attributes == attributes && context == acquired && !willReadFrequently
      ensures canvasWidth == 300 && canvasHeight == 150 && styleWidth == "" && styleHeight == ""
      ensures lastPosition == Vector(0.0, 0.0) && !isDrawing && events == []
    {
      this.attributes := attributes;
      canvasWidth, canvasHeight := 300, 150;
      styleWidth, styleHeight := "", "";
      context := acquired;
      willReadFrequently := false;
      lastPosition := Vector(0.0, 0.0);
      isDrawing := false;
      events := [];
    }

    /**
     * connectedCallback: size the canvas to the floor of the slotted content's
     * bounds, re-acquire the context with the reporting mode as read hint
     * (`acquired` is what the host returns), then fill.
     */
    method ConnectedCallback(bounds: Bounds, acquired: Context2D?, supportsColor: string -> bool)
      requires bounds.width >= 0.0 && bounds.height >= 0.0
      modifies this`canvasWidth, this`canvasHeight, this`styleWidth, this`styleHeight
      modifies this`context, this`willReadFrequently, this`events, acquired
      ensures canvasWidth == bounds.width.Floor && canvasHeight == bounds.height.Floor
      ensures styleWidth == DecimalString(canvasWidth) + "px" && styleHeight == DecimalString(canvasHeight) + "px"
      ensures context == acquired && willReadFrequently == PercentageUpdate(attributes)
      ensures acquired != null ==> (acquired.log == old(acquired.log)
                + [FillRect(SourceOver, 0, 0, canvasWidth, canvasHeight, Some(ScratchColor(attributes, supportsColor)))])
      ensures events == old(events) + (if acquired != null && PercentageUpdate(attributes)
                                       then [Event(PercentageUpdateEvent, 0)] else [])
    {
      var newWidth := bounds.width.Floor;
      var newHeight := bounds.height.Floor;
      styleWidth := DecimalString(newWidth) + "px";
      canvasWidth := newWidth;
      styleHeight := DecimalString(newHeight) + "px";
      canvasHeight := newHeight;
      context := acquired;
      willReadFrequently := PercentageUpdate(attributes);
      FillArea(supportsColor);
    }

    /**
     * attributeChangedCallback: toggling percentage-update re-acquires the
     * context with the matching read hint; other attributes change nothing.
     */
    method AttributeChangedCallback(name: string, acquired: Context2D?)
      modifies this`context, this`willReadFrequently
      ensures name == PercentageUpdateAttribute ==>
                context == acquired && willReadFrequently == PercentageUpdate(attributes)
      ensures name != PercentageUpdateAttribute ==>
                context == old(context) && willReadFrequently == old(willReadFrequently)
    {
      if name == PercentageUpdateAttribute {
        context := acquired;
        willReadFrequently := PercentageUpdate(attributes);
      }
    }

    /**
     * handleStart: the gesture starts at the canvas-local point; one stroke is
     * issued from that point (nudged unless a gesture was already running),
     * and one coverage sample follows when reporting is on. `offset` is the
     * canvas's (offsetLeft, offsetTop); `data` is what getImageData would return.
     */
    method HandleStart(p: Vector, offset: Vector, data: seq<Byte>)
      requires PercentageUpdate(attributes) && context != null ==> |data| > 3
      modifies this`lastPosition, this`isDrawing, this`events, context
      ensures isDrawing && lastPosition == Local(p, offset)
      ensures context != null ==> (context.log == old(context.log)
                + [Stroke(DestinationOut, Local(p, offset),
                          if old(isDrawing) then Local(p, offset) else Nudge(Local(p, offset)),
                          BrushSize(attributes), BrushShape(attributes))])
      ensures events == old(events)
                + (if PercentageUpdate(attributes) then SampleEvents(context != null, data) else [])
    {
      lastPosition := Local(p, offset);
      ScratchAt(Local(p, offset));
      isDrawing := true;
      if PercentageUpdate(attributes) {
        CalcAreaCleared(data);
      }
    }

    /**
     * handleMove: ignored unless a gesture is running; otherwise one stroke
     * from the last position to the canvas-local point, then one coverage
     * sample when reporting is on.
     */
    method HandleMove(p: Vector, offset: Vector, data: seq<Byte>)
      requires isDrawing && PercentageUpdate(attributes) && context != null ==> |data| > 3
      modifies this`lastPosition, this`events, context
      ensures !isDrawing ==> lastPosition == old(lastPosition) && events == old(events)
      ensures !isDrawing && context != null ==> context.log == old(context.log)
      ensures isDrawing && context != null ==> lastPosition == Local(p, offset)
      ensures isDrawing && context == null ==> lastPosition == old(lastPosition)
      ensures isDrawing && context != null ==> (context.log == old(context.log)
                + [Stroke(DestinationOut, old(lastPosition), Local(p, offset),
                          BrushSize(attributes), BrushShape(attributes))])
      ensures isDrawing ==> (events == old(events)
                + (if PercentageUpdate(attributes) then SampleEvents(context != null, data) else []))
    {
      if !isDrawing {
        return;
      }
      ScratchAt(Local(p, offset));
      if PercentageUpdate(attributes) {
        CalcAreaCleared(data);
      }
    }

    /**
     * The window's touchmove listener: it suppresses the default scrolling
     * exactly when a gesture is running, and forwards to handleMove either way.
     */
    method TouchMove(p: Vector, offset: Vector, data: seq<Byte>) returns (preventDefault: bool)
      requires isDrawing && PercentageUpdate(attributes) && context != null ==> |data| > 3
      modifies this`lastPosition, this`events, context
      ensures preventDefault == isDrawing
      ensures !isDrawing ==> lastPosition == old(lastPosition) && events == old(events)
      ensures !isDrawing && context != null ==> context.log == old(context.log)
      ensures isDrawing && context != null ==> lastPosition == Local(p, offset)
      ensures isDrawing && context == null ==> lastPosition == old(lastPosition)
      ensures isDrawing && context != null ==> (context.log == old(context.log)
                + [Stroke(DestinationOut, old(lastPosition), Local(p, offset),
                          BrushSize(attributes), BrushShape(attributes))])
      ensures isDrawing ==> (events == old(events)
                + (if PercentageUpdate(attributes) then SampleEvents(context != null, data) else []))
    {
      preventDefault := isDrawing;
      HandleMove(p, offset, data);
    }

    /** handleEnd (mouseup, touchend, touchcancel): the gesture stops; nothing is drawn. */
    method HandleEnd()
      modifies this`isDrawing
      ensures !isDrawing
    {
      isDrawing := false;
    }

    /** fillArea: cover the whole canvas with the scratch color; report 0 when reporting is on. */
    method FillArea(supportsColor: string -> bool)
      modifies this`events, context
      ensures context != null ==> (context.log == old(context.log)
                + [FillRect(SourceOver, 0, 0, canvasWidth, canvasHeight, Some(ScratchColor(attributes, supportsColor)))])
      ensures events == old(events) + (if context != null && PercentageUpdate(attributes)
                                       then [Event(PercentageUpdateEvent, 0)] else [])
    {
      if context == null {
        return;
      }
      context.log := context.log
        + [FillRect(SourceOver, 0, 0, canvasWidth, canvasHeight, Some(ScratchColor(attributes, supportsColor)))];
      if PercentageUpdate(attributes) {
        EmitEvent(PercentageUpdateEvent, 0);
      }
    }

    /** clearArea: erase the whole canvas; report 100 when reporting is on. */
    method ClearArea()
      modifies this`events, context
      ensures context != null ==> (context.log == old(context.log)
                + [FillRect(DestinationOut, 0, 0, canvasWidth, canvasHeight, None)])
      ensures events == old(events) + (if context != null && PercentageUpdate(attributes)
                                       then [Event(PercentageUpdateEvent, 100)] else [])
    {
      if context == null {
        return;
      }
      context.log := context.log + [FillRect(DestinationOut, 0, 0, canvasWidth, canvasHeight, None)];
      if PercentageUpdate(attributes) {
        EmitEvent(PercentageUpdateEvent, 100);
      }
    }

    /**
     * scratch: erase along a line from the last position to `to` with the
     * brush's width and join, nudging the end point when no gesture is
     * running; the last position becomes `to`. Without a context nothing
     * happens, and the last position stays.
     */
    method ScratchAt(to: Vector)
      modifies this`lastPosition, context
      ensures context != null ==> (context.log == old(context.log)
                + [Stroke(DestinationOut, old(lastPosition), if isDrawing then to else Nudge(to),
                          BrushSize(attributes), BrushShape(attributes))])
      ensures lastPosition == if context != null then to else old(lastPosition)
    {
      if context == null {
        return;
      }
      var end := if isDrawing then to else Nudge(to);
      context.log := context.log
        + [Stroke(DestinationOut, lastPosition, end, BrushSize(attributes), BrushShape(attributes))];
      lastPosition := to;
    }

    /**
     * calcAreaCleared: sample the alpha channel of `data` (the canvas's
     * ImageData) at every 146th value and emit the rounded percentage of
     * cleared samples. Without a context nothing happens.
     */
    method CalcAreaCleared(data: seq<Byte>)
      requires context != null ==> |data| > 3
      modifies this`events
      ensures events == old(events) + SampleEvents(context != null, data)
    {
      if context == null {
        return;
      }
      var onlyAlphaChannel := GetArrayWithValueOfQuadrupleAtNthIndex(data, 3);
      assert onlyAlphaChannel[0] == data[3];
      var chunkSize := ChunkSize;
      var totalChunks := |onlyAlphaChannel| as real / chunkSize as real;
      var clearedChunks := 0;
      var i := clearedChunks;
      while i < |onlyAlphaChannel|
        invariant 0 <= i
        invariant clearedChunks + CountZeros(EveryNth(onlyAlphaChannel, i, chunkSize))
                  == CountZeros(Samples(onlyAlphaChannel))
        decreases |onlyAlphaChannel| - i
      {
        ghost var rest := EveryNth(onlyAlphaChannel, i + chunkSize, chunkSize);
        assert EveryNth(onlyAlphaChannel, i, chunkSize) == [onlyAlphaChannel[i]] + rest;
        assert ([onlyAlphaChannel[i]] + rest)[1..] == rest;
        if onlyAlphaChannel[i] == 0 {
          clearedChunks := clearedChunks + 1;
        }
        i := i + chunkSize;
      }
      assert clearedChunks == CountZeros(Samples(onlyAlphaChannel));
      assert onlyAlphaChannel == Alpha(data);
      assert (clearedChunks as real / totalChunks) * 100.0 == Ratio(clearedChunks, |onlyAlphaChannel|);
      var percentage := RoundHalfUp((clearedChunks as real / totalChunks) * 100.0);
      assert percentage == AreaCleared(data);
      EmitEvent(PercentageUpdateEvent, percentage);
    }

    /** getArrayWithValueOfQuadrupleAtNthIndex: source[n], source[n + 4], ... */
    method GetArrayWithValueOfQuadrupleAtNthIndex(source: seq<int>, n: nat) returns (arr: seq<int>)
      ensures arr == QuadrupleAt(source, n)
    {
      arr := [];
      var i := n;
      while i < |source|
        invariant i >= n
        invariant arr + EveryNth(source, i, 4) == EveryNth(source, n, 4)
        decreases |source| - i
      {
        arr := arr + [source[i]];
        i := i + 4;
      }
    }

    /** emitEvent: dispatch one event of the given type carrying `payload`. */
    method EmitEvent(eventType: string, payload: int)
      modifies this`events
      ensures events == old(events) + [Event(eventType, payload)]
    {
      events := events + [Event(eventType, payload)];
    }
  }

  /**
   * Clients of the contracts above, after the handler tests in
   * test/scratch.test.ts:83-144. Without coverage reporting, a tap leaves a
   * nudged dot and a drag joins the last position to the new one; on any
   * element, a stray move after a release draws nothing and is not suppressed.
   */
  method Tap(element: Scratch, context: Context2D)
    requires !element.isDrawing && element.context == context
    requires PercentageUpdateAttribute !in element.attributes
    modifies element, context
  {
    var log := context.log;
    element.HandleStart(Vector(15.0, 25.0), Vector(5.0, 5.0), []);
    var dot := Stroke(DestinationOut, Vector(10.0, 20.0), Vector(10.1, 20.1),
                      BrushSize(element.attributes), BrushShape(element.attributes));
    assert element.isDrawing && context.log == log + [dot];
  }

  method Drag(element: Scratch, context: Context2D)
    requires element.isDrawing && element.context == context
    requires element.lastPosition == Vector(10.0, 20.0)
    requires PercentageUpdateAttribute !in element.attributes
    modifies element, context
  {
    var log := context.log;
    element.HandleMove(Vector(20.0, 25.0), Vector(5.0, 5.0), []);
    var line := Stroke(DestinationOut, Vector(10.0, 20.0), Vector(15.0, 20.0),
                       BrushSize(element.attributes), BrushShape(element.attributes));
    assert element.lastPosition == Vector(15.0, 20.0) && context.log == log + [line];
  }

  method MoveAfterRelease(element: Scratch, context: Context2D)
    requires element.context == context
    modifies element, context
  {
    var log, position := context.log, element.lastPosition;
    element.HandleEnd();
    var prevented := element.TouchMove(Vector(40.0, 40.0), Vector(5.0, 5.0), []);
    assert !prevented && context.log == log && element.lastPosition == position;
  }
}
