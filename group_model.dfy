/** The expand/collapse state machine of the NaviGroup panel as values: a
    `Panel` record holds every field the control's handlers read or write, and
    one function per handler gives the record (and the observable effects)
    after the call. The class in module Navisuite is proved to follow these
    functions; the lemmas here state what the handlers promise together. */
module GroupModel {
  import opened Geometry

  /** Whether the pointer is over the header. */
  datatype InputState = Normal | Hovered

  /** The mouse button of a click or move event. */
  datatype MouseButton = NoButton | Left | Right | Middle | XButton1 | XButton2

  datatype Cursor = DefaultCursor | HandCursor

  /** Observable effects a handler produces on the host, in order. */
  datatype Effect =
    | MouseClickRaised(button: MouseButton, x: int, y: int)  // the base MouseClick event
    | MouseMoveRaised(x: int, y: int)                        // the base MouseMove event
    | MouseLeaveRaised                                       // the base MouseLeave event
    | ResizeRaised                                           // the base Resize event
    | LocationChangedRaised                                  // the base LocationChanged event
    | HeaderMenuShown(x: int, y: int)                        // header context menu popped up
    | BodyMenuShown(x: int, y: int)                          // body context menu popped up
    | HeaderClickFired(button: MouseButton, x: int, y: int)  // HeaderMouseClick notification
    | CursorSet(cursor: Cursor)
    | Invalidated                                            // redraw requested

  /** Everything the handlers read or write. `boundsCreated` is false while
      the header region has not been built yet (it is null in the control). */
  datatype Panel = Panel(
    expanded: bool,
    headerHeight: int,
    expandedHeight: int,
    height: int,
    width: int,
    rtl: bool,
    viewState: InputState,
    boundsCreated: bool,
    headerRectangle: Rect,
    headerTextBounds: Rect,
    padding: Padding,
    hasContextMenu: bool,
    hasHeaderContextMenu: bool)

  /** The rendered height agrees with the expand state. */
  predicate Consistent(p: Panel)
  {
    p.height == if p.expanded then p.expandedHeight else p.headerHeight
  }

  /** The header region and text bounds are what the current width, header
      height and text direction call for. */
  predicate HeaderInSync(p: Panel)
  {
    && p.boundsCreated
    && p.headerRectangle == HeaderRect(p.width, p.headerHeight)
    && p.headerTextBounds == TextBounds(p.headerRectangle, p.rtl)
  }

  /** The header is in sync and so is the top padding. */
  predicate GeometryInSync(p: Panel)
  {
    HeaderInSync(p) && p.padding.top == p.headerHeight + 2
  }

  /** Whether a point hits the header region. */
  predicate HeaderHit(p: Panel, x: int, y: int)
    requires p.boundsCreated
  {
    Contains(p.headerRectangle, x, y)
  }

  // ---------------------------------------------------------------------
  // Construction and setters
  // ---------------------------------------------------------------------

  /** A new panel: the host gives the initial size and text direction; the
      control expands, uses a 20-pixel header, remembers 150 as its expanded
      height, is not hovered, pads 1 on every side and has no header region
      and no context menus yet. */
  function Initial(width: int, height: int, rtl: bool): (p: Panel)
    ensures p.expanded && p.headerHeight == 20 && p.expandedHeight == 150
    ensures p.viewState == Normal && p.padding == Padding(1, 1, 1, 1)
    ensures !p.boundsCreated && !p.hasContextMenu && !p.hasHeaderContextMenu
    ensures p.width == width && p.height == height && p.rtl == rtl
  {
    Panel(true, 20, 150, height, width, rtl, Normal, false,
          Rect(0, 0, 0, 0), Rect(0, 0, 0, 0), Padding(1, 1, 1, 1), false, false)
  }

  /** The Height setter: the control takes the new height and, only while
      expanded, remembers it as the expanded height. */
  function SetHeight(p: Panel, v: int): (q: Panel)
    ensures q.height == v
    ensures p.expanded ==> q.expandedHeight == v
    ensures !p.expanded ==> q.expandedHeight == p.expandedHeight
    ensures q == p.(height := v, expandedHeight := q.expandedHeight)
  {
    p.(height := v, expandedHeight := if p.expanded then v else p.expandedHeight)
  }

  /** The ExpandedHeight setter: stores the value and does not resize the
      control, even while it is expanded. */
  function SetExpandedHeight(p: Panel, v: int): (q: Panel)
    ensures q.expandedHeight == v && q.height == p.height
    ensures q == p.(expandedHeight := v)
  {
    p.(expandedHeight := v)
  }

  /** Expand: the control is expanded and as high as the remembered expanded
      height, which itself is not changed. */
  function Expand(p: Panel): (q: Panel)
    ensures q.expanded && q.height == p.expandedHeight
    ensures q.expandedHeight == p.expandedHeight
    ensures q == p.(expanded := true, height := p.expandedHeight)
  {
    SetHeight(p.(expanded := true), p.expandedHeight)
  }

  /** Collapse: the control shrinks to its header; the remembered expanded
      height is kept for the next Expand. */
  function Collapse(p: Panel): (q: Panel)
    ensures !q.expanded && q.height == p.headerHeight
    ensures q.expandedHeight == p.expandedHeight
    ensures q == p.(expanded := false, height := p.headerHeight)
  {
    SetHeight(p.(expanded := false), p.headerHeight)
  }

  /** The Expanded setter: dispatches to Expand or Collapse only when the
      state changes; assigning the current state changes nothing at all. */
  function SetExpanded(p: Panel, v: bool): (q: Panel)
    ensures q.expanded == v
    ensures p.expanded == v ==> q == p
    ensures p.expanded != v ==> q.height == (if v then p.expandedHeight else p.headerHeight)
    ensures q == p.(expanded := v, height := q.height)
  {
    var r := if p.expanded != v then (if v then Expand(p) else Collapse(p)) else p;
    r.(expanded := v)
  }

  /** Builds the header region from the argument `h`, while the top padding
      is computed from the header height currently stored in the panel. */
  function CreateBounds(p: Panel, h: int): (q: Panel)
    ensures q.boundsCreated
    ensures forall px, py :: HeaderHit(q, px, py) <==> 0 <= px < p.width && 0 <= py < h
    ensures q.headerTextBounds == TextBounds(q.headerRectangle, p.rtl)
    ensures q.padding == p.padding.(top := p.headerHeight + 2)
    ensures q == p.(boundsCreated := true, headerRectangle := q.headerRectangle,
                    headerTextBounds := q.headerTextBounds, padding := q.padding)
  {
    var header := HeaderRect(p.width, h);
    p.(boundsCreated := true, headerRectangle := header,
       headerTextBounds := TextBounds(header, p.rtl),
       padding := p.padding.(top := p.headerHeight + 2))
  }

  /** The HeaderHeight setter: rebuilds the geometry for the new height only
      when it differs, before storing it, so the top padding reflects the
      previous header height. The control's height is not adjusted. */
  function SetHeaderHeight(p: Panel, v: int): (q: Panel)
    ensures q.headerHeight == v
    ensures p.headerHeight == v ==> q == p
    ensures p.headerHeight != v ==>
              q.boundsCreated && q.headerRectangle == Rect(0, 0, p.width, v) &&
              q.headerTextBounds == TextBounds(q.headerRectangle, p.rtl) &&
              q.padding.top == p.headerHeight + 2
    ensures p.headerHeight != v ==> q == CreateBounds(p, v).(headerHeight := v)
    ensures q.expanded == p.expanded && q.height == p.height && q.expandedHeight == p.expandedHeight
  {
    var r := if p.headerHeight != v then CreateBounds(p, v) else p;
    r.(headerHeight := v)
  }

  /** End of batch initialisation: geometry for the stored header height. */
  function EndInit(p: Panel): (q: Panel)
    ensures GeometryInSync(q)
    ensures q == p.(boundsCreated := true, headerRectangle := q.headerRectangle,
                    headerTextBounds := q.headerTextBounds, padding := q.padding)
  {
    CreateBounds(p, p.headerHeight)
  }

  /** The host has resized the control to `newWidth`; the handler rebuilds
      the geometry for the stored header height and requests a redraw. */
  function OnResize(p: Panel, newWidth: int): (r: (Panel, seq<Effect>))
    ensures GeometryInSync(r.0) && r.0.width == newWidth
    ensures r.0.expanded == p.expanded && r.0.height == p.height
    ensures r.0.expandedHeight == p.expandedHeight && r.0.headerHeight == p.headerHeight
    ensures r.0 == p.(width := newWidth, boundsCreated := true, headerRectangle := r.0.headerRectangle,
                      headerTextBounds := r.0.headerTextBounds, padding := r.0.padding)
    ensures r.0.padding == p.padding.(top := p.headerHeight + 2)
    ensures r.1 == [ResizeRaised, Invalidated]
  {
    (CreateBounds(p.(width := newWidth), p.headerHeight), [ResizeRaised, Invalidated])
  }

  // ---------------------------------------------------------------------
  // Mouse handlers
  // ---------------------------------------------------------------------

  /** A click already known to be on the header: the left button toggles the
      expand state; the right button pops up the header menu if there is one;
      the header-click notification is raised for every button, last. */
  function OnHeaderMouseClick(p: Panel, button: MouseButton, x: int, y: int): (r: (Panel, seq<Effect>))
    ensures button == Left ==> r.0 == (if p.expanded then Collapse(p) else Expand(p))
    ensures button != Left ==> r.0 == p
    ensures r.0.expanded == (if button == Left then !p.expanded else p.expanded)
    ensures r.1 == (if button == Right && p.hasHeaderContextMenu then [HeaderMenuShown(x, y)] else [])
                   + [HeaderClickFired(button, x, y)]
    ensures |r.1| > 0 && r.1[|r.1| - 1] == HeaderClickFired(button, x, y)
    ensures HeaderMenuShown(x, y) in r.1 <==> button == Right && p.hasHeaderContextMenu
    ensures forall e :: e in r.1 ==> e.HeaderClickFired? || e.HeaderMenuShown?
  {
    if button == Left then
      (if p.expanded then Collapse(p) else Expand(p), [HeaderClickFired(button, x, y)])
    else if button == Right && p.hasHeaderContextMenu then
      (p, [HeaderMenuShown(x, y), HeaderClickFired(button, x, y)])
    else
      (p, [HeaderClickFired(button, x, y)])
  }

  /** A click anywhere on the control. On the header it is handled as a
      header click; elsewhere the expand state never changes and only a
      right click with a body menu configured shows that menu. */
  function OnMouseClick(p: Panel, button: MouseButton, x: int, y: int): (r: (Panel, seq<Effect>))
    requires p.boundsCreated
    ensures |r.1| > 0 && r.1[0] == MouseClickRaised(button, x, y)
    ensures !HeaderHit(p, x, y) || button != Left ==> r.0 == p
    ensures HeaderHit(p, x, y) && button == Left ==> r.0.expanded == !p.expanded
    ensures HeaderHit(p, x, y) ==> r.0 == OnHeaderMouseClick(p, button, x, y).0
    ensures HeaderClickFired(button, x, y) in r.1 <==> HeaderHit(p, x, y)
    ensures HeaderMenuShown(x, y) in r.1 <==> HeaderHit(p, x, y) && button == Right && p.hasHeaderContextMenu
    ensures BodyMenuShown(x, y) in r.1 <==> !HeaderHit(p, x, y) && button == Right && p.hasContextMenu
    ensures r.1 == [MouseClickRaised(button, x, y)] +
                   (if HeaderHit(p, x, y) then OnHeaderMouseClick(p, button, x, y).1
                    else if button == Right && p.hasContextMenu then [BodyMenuShown(x, y)]
                    else [])
  {
    if HeaderHit(p, x, y) then
      var (q, fx) := OnHeaderMouseClick(p, button, x, y);
      (q, [MouseClickRaised(button, x, y)] + fx)
    else if p.hasContextMenu && button == Right then
      (p, [MouseClickRaised(button, x, y), BodyMenuShown(x, y)])
    else
      (p, [MouseClickRaised(button, x, y)])
  }

  /** Pointer movement: hovered exactly over the header, with the matching
      cursor and a redraw on every move. Nothing else changes. */
  function OnMouseMove(p: Panel, x: int, y: int): (r: (Panel, seq<Effect>))
    requires p.boundsCreated
    ensures r.0.viewState == Hovered <==> HeaderHit(p, x, y)
    ensures r.0 == p.(viewState := r.0.viewState)
    ensures r.1 == [MouseMoveRaised(x, y),
                    CursorSet(if HeaderHit(p, x, y) then HandCursor else DefaultCursor),
                    Invalidated]
  {
    if HeaderHit(p, x, y) then
      (p.(viewState := Hovered), [MouseMoveRaised(x, y), CursorSet(HandCursor), Invalidated])
    else
      (p.(viewState := Normal), [MouseMoveRaised(x, y), CursorSet(DefaultCursor), Invalidated])
  }

  /** Pointer leaving the control: never hovered afterwards. */
  function OnMouseLeave(p: Panel): (r: (Panel, seq<Effect>))
    ensures r.0.viewState == Normal && r.0 == p.(viewState := Normal)
    ensures Invalidated in r.1 && CursorSet(DefaultCursor) in r.1
    ensures r.1 == [MouseLeaveRaised, CursorSet(DefaultCursor), Invalidated]
  {
    (p.(viewState := Normal), [MouseLeaveRaised, CursorSet(DefaultCursor), Invalidated])
  }

  // ---------------------------------------------------------------------
  // Sequences of user actions
  // ---------------------------------------------------------------------

  /** What a user or the host can do to a panel whose header region exists,
      other than the three setters that assign heights directly. */
  datatype Action =
    | Click(button: MouseButton, x: int, y: int)
    | Move(x: int, y: int)
    | Leave
    | ExpandCall
    | CollapseCall
    | SetExpandedTo(value: bool)
    | Resize(newWidth: int)
    | EndInitCall

  function Step(p: Panel, a: Action): (q: Panel)
    requires p.boundsCreated
    ensures q.boundsCreated
  {
    match a
    case Click(b, x, y) => OnMouseClick(p, b, x, y).0
    case Move(x, y) => OnMouseMove(p, x, y).0
    case Leave => OnMouseLeave(p).0
    case ExpandCall => Expand(p)
    case CollapseCall => Collapse(p)
    case SetExpandedTo(v) => SetExpanded(p, v)
    case Resize(w) => OnResize(p, w).0
    case EndInitCall => EndInit(p)
  }

  /** The panel after the actions, in order. */
  function Run(p: Panel, actions: seq<Action>): (q: Panel)
    requires p.boundsCreated
    ensures q.boundsCreated
    decreases |actions|
  {
    if actions == [] then p else Run(Step(p, actions[0]), actions[1..])
  }

  /** Every action keeps the height in agreement with the expand state, and
      none of them touches the remembered expanded height. */
  lemma StepKeepsConsistent(p: Panel, a: Action)
    requires p.boundsCreated && Consistent(p)
    ensures Consistent(Step(p, a)) && Step(p, a).expandedHeight == p.expandedHeight
  {
    match a
    case Click(b, x, y) =>
      if HeaderHit(p, x, y) && b == Left {
        assert Step(p, a) == (if p.expanded then Collapse(p) else Expand(p));
      }
    case _ =>
  }

  /** The agreement between height and expand state survives any sequence of
      actions, and so does the remembered expanded height. */
  lemma {:induction false} RunKeepsConsistent(p: Panel, actions: seq<Action>)
    requires p.boundsCreated && Consistent(p)
    ensures Consistent(Run(p, actions))
    ensures Run(p, actions).expandedHeight == p.expandedHeight
    decreases |actions|
  {
    if actions != [] {
      StepKeepsConsistent(p, actions[0]);
      RunKeepsConsistent(Step(p, actions[0]), actions[1..]);
    }
  }

  /** Once the geometry matches the header height, no action breaks it. */
  lemma StepKeepsGeometry(p: Panel, a: Action)
    requires GeometryInSync(p)
    ensures GeometryInSync(Step(p, a))
  {
  }

  lemma {:induction false} RunKeepsGeometry(p: Panel, actions: seq<Action>)
    requires GeometryInSync(p)
    ensures GeometryInSync(Run(p, actions))
    decreases |actions|
  {
    if actions != [] {
      StepKeepsGeometry(p, actions[0]);
      RunKeepsGeometry(Step(p, actions[0]), actions[1..]);
    }
  }

  // ---------------------------------------------------------------------
  // Properties relating several calls
  // ---------------------------------------------------------------------

  /** A manual resize while expanded is remembered: expand, set the height,
      collapse and expand again, and the control is as high as was set. */
  lemma ResizeWhileExpandedIsRemembered(p: Panel, v: int)
    ensures Expand(Collapse(SetHeight(Expand(p), v))).height == v
    ensures Collapse(SetHeight(Expand(p), v)).expandedHeight == v
  {
  }

  /** A manual resize while collapsed is forgotten by the next Expand. */
  lemma ResizeWhileCollapsedIsForgotten(p: Panel, v: int)
    ensures Expand(SetHeight(Collapse(p), v)).height == p.expandedHeight
  {
  }

  /** Two left clicks on the header return a consistent panel whose geometry
      is in sync to exactly the state it started in. */
  lemma DoubleHeaderClickRestores(p: Panel, x: int, y: int)
    requires GeometryInSync(p) && Consistent(p) && HeaderHit(p, x, y)
    ensures OnMouseClick(OnMouseClick(p, Left, x, y).0, Left, x, y).0 == p
  {
    var q := OnMouseClick(p, Left, x, y).0;
    assert q == (if p.expanded then Collapse(p) else Expand(p));
  }

  /** Hover follows the header strip: when the header region is in sync
      (whatever the top padding), a move hovers exactly over the top
      `headerHeight` rows of the control. */
  lemma HoverIsHeaderStrip(p: Panel, x: int, y: int)
    requires HeaderInSync(p)
    ensures OnMouseMove(p, x, y).0.viewState == Hovered <==> 0 <= x < p.width && 0 <= y < p.headerHeight
  {
  }

  /** The header region stays in sync through every action and every height
      setter, and a changing header-height assignment brings it in sync from
      any state. So hover is exactly the header strip in every state reached
      from one where the header is in sync. */
  lemma HeaderInSyncPreserved(p: Panel, a: Action, v: int)
    requires HeaderInSync(p)
    ensures HeaderInSync(Step(p, a))
    ensures HeaderInSync(SetHeaderHeight(p, v))
    ensures HeaderInSync(SetHeight(p, v)) && HeaderInSync(SetExpandedHeight(p, v))
  {
  }

  lemma HeaderHeightChangeSyncsHeader(p: Panel, v: int)
    requires p.headerHeight != v
    ensures HeaderInSync(SetHeaderHeight(p, v))
  {
  }

  /** After a header-height assignment the new row `h - 1` is on the header and
      row `h + 1` is not, for every column inside the control, when the
      value changes or the header was already in sync. */
  lemma HeaderHeightHitTest(p: Panel, h: int, x: int)
    requires (HeaderInSync(p) || p.headerHeight != h) && 0 <= x < p.width && h > 0
    ensures HeaderHit(SetHeaderHeight(p, h), x, h - 1)
    ensures !HeaderHit(SetHeaderHeight(p, h), x, h + 1)
  {
  }

  /** Changing the header height rebuilds the header rectangle for the new
      height but leaves the top padding one step behind; the next resize or
      end of initialisation brings it back in sync. */
  lemma HeaderHeightPaddingLags(p: Panel, h: int)
    requires p.headerHeight != h
    ensures var q := SetHeaderHeight(p, h);
            q.headerRectangle == HeaderRect(p.width, h) &&
            q.headerTextBounds == TextBounds(q.headerRectangle, p.rtl) &&
            !GeometryInSync(q) && GeometryInSync(EndInit(q))
  {
  }

  /** A new panel agrees with its expand state only when the host happened to
      give it the default expanded height: initialisation never sets the
      height. */
  lemma InitialConsistentIffDefaultHeight(w: int, h: int, rtl: bool)
    ensures Consistent(Initial(w, h, rtl)) <==> h == 150
  {
  }

  /** Expand, Collapse and an Expanded assignment that changes the state make
      the height agree with the expand state, whatever it was before; an
      assignment of the current state leaves any disagreement in place. */
  lemma ExpandCollapseEstablishConsistent(p: Panel, v: bool)
    ensures Consistent(Expand(p)) && Consistent(Collapse(p))
    ensures v != p.expanded ==> Consistent(SetExpanded(p, v))
    ensures v == p.expanded ==> (Consistent(SetExpanded(p, v)) <==> Consistent(p))
  {
  }

  /** The three setters outside `Action` can each break the agreement between
      height and expand state. */
  lemma HeaderHeightWhileCollapsedBreaksConsistency(p: Panel, h: int)
    requires !p.expanded && Consistent(p) && h != p.headerHeight
    ensures !Consistent(SetHeaderHeight(p, h))
  {
  }

  lemma ExpandedHeightWhileExpandedBreaksConsistency(p: Panel, v: int)
    requires p.expanded && Consistent(p) && v != p.expandedHeight
    ensures !Consistent(SetExpandedHeight(p, v))
  {
  }

  lemma HeightWhileCollapsedBreaksConsistency(p: Panel, v: int)
    requires !p.expanded && Consistent(p) && v != p.headerHeight
    ensures !Consistent(SetHeight(p, v))
  {
  }

  lemma HeightWhileExpandedKeepsConsistency(p: Panel, v: int)
    requires p.expanded
    ensures Consistent(SetHeight(p, v)) && SetHeight(p, v).expandedHeight == v
  {
  }
}
