/** The NaviGroup control: a container that collapses to its header bar.
    Every handler updates the object's fields in place; each method's
    contract ties the fields afterwards to the matching function of module
    GroupModel applied to the fields before, and appends the handler's
    observable effects to a ghost log. */
module Navisuite {
  import opened Geometry
  import opened GroupModel

  class NaviGroup {
    var caption: string
    var expanded: bool
    var headerHeight: int
    var expandedHeight: int
    /** The control's current height, as its base control holds it. */
    var height: int
    /** The control's current width, as its base control holds it. */
    var width: int
    /** Whether text runs right to left, as the hosting form says. */
    var rtl: bool
    var viewState: InputState
    /** False while the header region has not been created (it is null). */
    var boundsCreated: bool
    var headerRectangle: Rect
    var headerTextBounds: Rect
    var padding: Padding
    /** Whether a body context menu and a header context menu are set. */
    var hasContextMenu: bool
    var hasHeaderContextMenu: bool
    /** Effects on the host (events raised, menus shown, redraws), in order. */
    ghost var log: seq<Effect>

    /** The fields the handlers read or write, as one value. */
    function Snapshot(): (p: Panel)
      reads this
      ensures p.expanded == expanded && p.height == height
      ensures p.headerHeight == headerHeight && p.expandedHeight == expandedHeight
    {
      Panel(expanded, headerHeight, expandedHeight, height, width, rtl, viewState,
            boundsCreated, headerRectangle, headerTextBounds, padding,
            hasContextMenu, hasHeaderContextMenu)
    }

    /** A new control of the size and text direction the host gives it; the
        fields start zeroed as in the runtime and are then initialised. */
    constructor (initialWidth: int, initialHeight: int, rightToLeft: bool)
      ensures Snapshot() == Initial(initialWidth, initialHeight, rightToLeft)
      ensures caption == [] && log == []
    {
      caption := [];
      expanded, headerHeight, expandedHeight := false, 0, 0;
      height, width, rtl := initialHeight, initialWidth, rightToLeft;
      viewState := Normal;
      boundsCreated := false;
      headerRectangle, headerTextBounds := Rect(0, 0, 0, 0), Rect(0, 0, 0, 0);
      padding := Padding(0, 0, 0, 0);
      hasContextMenu, hasHeaderContextMenu := false, false;
      log := [];
      new;
      Initialize();
    }

    /** First-time defaults: expanded, 20-pixel header, expanded height 150,
        not hovered, padding 1 on every side. */
    method Initialize()
      modifies this
      ensures expanded && headerHeight == 20 && expandedHeight == 150
      ensures viewState == Normal && padding == Padding(1, 1, 1, 1)
      ensures Snapshot() == old(Snapshot()).(expanded := true, headerHeight := 20, expandedHeight := 150,
                                             viewState := Normal, padding := Padding(1, 1, 1, 1))
      ensures caption == old(caption) && log == old(log)
    {
      expanded := true;
      headerHeight := 20;
      expandedHeight := 150;
      viewState := Normal;
      padding := Padding(1, 1, 1, 1);
    }

    method SetCaption(value: string)
      modifies this
      ensures caption == value
      ensures Snapshot() == old(Snapshot()) && log == old(log)
    {
      caption := value;
    }

    method SetContextMenu(configured: bool)
      modifies this
      ensures hasContextMenu == configured
      ensures Snapshot() == old(Snapshot()).(hasContextMenu := configured)
      ensures caption == old(caption) && log == old(log)
    {
      hasContextMenu := configured;
    }

    method SetHeaderContextMenu(configured: bool)
      modifies this
      ensures hasHeaderContextMenu == configured
      ensures Snapshot() == old(Snapshot()).(hasHeaderContextMenu := configured)
      ensures caption == old(caption) && log == old(log)
    {
      hasHeaderContextMenu := configured;
    }

    /** Rebuilds the header region and text bounds for a header `h` high; the
        top padding comes from the stored header height. */
    method CreateBounds(h: int)
      modifies this
      ensures boundsCreated && headerRectangle == Rect(0, 0, old(width), h)
      ensures padding.top == old(headerHeight) + 2
      ensures Snapshot() == GroupModel.CreateBounds(old(Snapshot()), h)
      ensures caption == old(caption) && log == old(log)
    {
      headerRectangle := Rect(0, 0, width, h);
      boundsCreated := true;
      headerTextBounds := headerRectangle;
      if rtl {
        headerTextBounds := headerTextBounds.(width := headerTextBounds.width - 19);
        headerTextBounds := headerTextBounds.(x := headerTextBounds.x + 16);
      } else {
        headerTextBounds := headerTextBounds.(width := headerTextBounds.width - 16);
        headerTextBounds := headerTextBounds.(x := headerTextBounds.x + 3);
      }
      padding := Padding(padding.left, headerHeight + 2, padding.right, padding.bottom);
    }

    /** The HeaderHeight setter. */
    method SetHeaderHeight(value: int)
      modifies this
      ensures headerHeight == value
      ensures old(headerHeight) == value ==> Snapshot() == old(Snapshot())
      ensures Snapshot() == GroupModel.SetHeaderHeight(old(Snapshot()), value)
      ensures caption == old(caption) && log == old(log)
    {
      if headerHeight != value {
        CreateBounds(value);
      }
      headerHeight := value;
    }

    /** The Height setter: while expanded the new height is remembered. */
    method SetHeight(value: int)
      modifies this
      ensures height == value
      ensures expandedHeight == if old(expanded) then value else old(expandedHeight)
      ensures Snapshot() == GroupModel.SetHeight(old(Snapshot()), value)
      ensures caption == old(caption) && log == old(log)
    {
      height := value;
      if expanded {
        expandedHeight := value;
      }
    }

    /** The ExpandedHeight setter. */
    method SetExpandedHeight(value: int)
      modifies this
      ensures expandedHeight == value && height == old(height)
      ensures Snapshot() == GroupModel.SetExpandedHeight(old(Snapshot()), value)
      ensures caption == old(caption) && log == old(log)
    {
      expandedHeight := value;
    }

    method Expand()
      modifies this
      ensures expanded && height == expandedHeight && expandedHeight == old(expandedHeight)
      ensures Snapshot() == GroupModel.Expand(old(Snapshot()))
      ensures caption == old(caption) && log == old(log)
    {
      expanded := true;
      SetHeight(expandedHeight);
    }

    method Collapse()
      modifies this
      ensures !expanded && height == headerHeight && expandedHeight == old(expandedHeight)
      ensures Snapshot() == GroupModel.Collapse(old(Snapshot()))
      ensures caption == old(caption) && log == old(log)
    {
      expanded := false;
      SetHeight(headerHeight);
    }

    /** The Expanded setter. */
    method SetExpanded(value: bool)
      modifies this
      ensures expanded == value
      ensures old(expanded) == value ==> Snapshot() == old(Snapshot())
      ensures Snapshot() == GroupModel.SetExpanded(old(Snapshot()), value)
      ensures caption == old(caption) && log == old(log)
    {
      if expanded != value {
        if value {
          Expand();
        } else {
          Collapse();
        }
      }
      expanded := value;
    }

    /** End of batch initialisation: geometry for the stored header height. */
    method EndInit()
      modifies this
      ensures GeometryInSync(Snapshot())
      ensures Snapshot() == GroupModel.EndInit(old(Snapshot()))
      ensures caption == old(caption) && log == old(log)
    {
      CreateBounds(headerHeight);
    }

    /** The host has resized the control to `newWidth`. */
    method OnResize(newWidth: int)
      modifies this
      ensures GeometryInSync(Snapshot()) && width == newWidth
      ensures var r := GroupModel.OnResize(old(Snapshot()), newWidth);
              Snapshot() == r.0 && log == old(log) + r.1
      ensures caption == old(caption)
    {
      width := newWidth;
      log := log + [ResizeRaised];
      CreateBounds(headerHeight);
      log := log + [Invalidated];
    }

    /** The control has moved within its parent: only a redraw is requested. */
    method OnLocationChanged()
      modifies this
      ensures Snapshot() == old(Snapshot()) && caption == old(caption)
      ensures log == old(log) + [LocationChangedRaised, Invalidated]
    {
      log := log + [LocationChangedRaised];
      log := log + [Invalidated];
    }

    /** A click on the header region. */
    method OnHeaderMouseClick(button: MouseButton, x: int, y: int)
      modifies this
      ensures expanded == if button == Left then !old(expanded) else old(expanded)
      ensures var r := GroupModel.OnHeaderMouseClick(old(Snapshot()), button, x, y);
              Snapshot() == r.0 && log == old(log) + r.1
      ensures caption == old(caption)
    {
      if button == Left {
        if expanded {
          Collapse();
        } else {
          Expand();
        }
      } else if button == Right {
        if hasHeaderContextMenu {
          log := log + [HeaderMenuShown(x, y)];
        }
      }
      log := log + [HeaderClickFired(button, x, y)];
    }

    /** A click anywhere on the control. */
    method OnMouseClick(button: MouseButton, x: int, y: int)
      requires boundsCreated
      modifies this
      ensures boundsCreated
      ensures var r := GroupModel.OnMouseClick(old(Snapshot()), button, x, y);
              Snapshot() == r.0 && log == old(log) + r.1
      ensures caption == old(caption)
    {
      ghost var before, logBefore := Snapshot(), log;
      var headerClicked := Contains(headerRectangle, x, y);
      if headerClicked {
        log := log + [MouseClickRaised(button, x, y)];
        OnHeaderMouseClick(button, x, y);
        ghost var h := GroupModel.OnHeaderMouseClick(before, button, x, y);
        assert log == logBefore + ([MouseClickRaised(button, x, y)] + h.1);
        assert GroupModel.OnMouseClick(before, button, x, y) == (h.0, [MouseClickRaised(button, x, y)] + h.1);
      } else {
        log := log + [MouseClickRaised(button, x, y)];
        if hasContextMenu && button == Right {
          log := log + [BodyMenuShown(x, y)];
        }
      }
    }

    /** Pointer movement over the control. */
    method OnMouseMove(x: int, y: int)
      requires boundsCreated
      modifies this
      ensures viewState == Hovered <==> Contains(headerRectangle, x, y)
      ensures var r := GroupModel.OnMouseMove(old(Snapshot()), x, y);
              Snapshot() == r.0 && log == old(log) + r.1
      ensures caption == old(caption)
    {
      log := log + [MouseMoveRaised(x, y)];
      if Contains(headerRectangle, x, y) {
        log := log + [CursorSet(HandCursor)];
        viewState := Hovered;
        log := log + [Invalidated];
      } else {
        log := log + [CursorSet(DefaultCursor)];
        viewState := Normal;
        log := log + [Invalidated];
      }
    }

    /** The pointer has left the control. */
    method OnMouseLeave()
      modifies this
      ensures viewState == Normal
      ensures var r := GroupModel.OnMouseLeave(old(Snapshot()));
              Snapshot() == r.0 && log == old(log) + r.1
      ensures caption == old(caption)
    {
      log := log + [MouseLeaveRaised];
      log := log + [CursorSet(DefaultCursor)];
      viewState := Normal;
      log := log + [Invalidated];
    }
  }

  /** The scenario of a manual resize remembered across collapse and expand,
      played on an object. */
  method RememberedResizeScenario(g: NaviGroup)
    modifies g
    ensures g.expanded && g.height == 200 && g.expandedHeight == 200
  {
    g.Expand();
    g.SetHeight(200);
    g.Collapse();
    assert g.expandedHeight == 200;
    g.Expand();
    assert g.height == 200;
  }
}
