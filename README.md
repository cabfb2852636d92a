# NaviGroup expand/collapse model

A Dafny model of `NaviGroup`, the collapsible group panel of Guifreaks
Navisuite. The panel is a WinForms container with a header strip. A left
click on the header collapses the panel to the header or expands it back to
its remembered "expanded height". A right click pops up a header or body
context menu when one is configured. Pointer movement highlights the header.

The model has three modules:

- `Geometry` (`geometry.dfy`): integer rectangles and paddings. It holds the
  point-in-rectangle hit test the header region performs, the header strip,
  the caption's text bounds with their direction-dependent insets, and the
  design-time hatch placeholder.
- `GroupModel` (`group_model.dfy`): the panel's fields as one value (`Panel`)
  and one function per handler, giving the fields and the host effects after
  the call. The lemmas here relate several calls: height follows the expand
  state over any sequence of user actions, manual resizes are remembered only
  while expanded, two header clicks cancel out, hover is exactly the header
  strip whenever the header region is in sync (which every action and
  setter preserves), and the top padding lags one header-height change
  behind.
- `Navisuite` (`navi_group.dfy`): the class `NaviGroup`, with the control's
  fields updated in place by one method per handler and setter. For the
  setters of the heights and the expand state, `CreateBounds`, `EndInit`,
  `OnResize` and the mouse handlers, the contract ties the fields afterwards
  (through `Snapshot()`) to the `GroupModel` function applied to the fields
  before. `Initialize`, `SetCaption`, the two menu setters and
  `OnLocationChanged` state their update directly on the old fields. Every
  method also states how the ghost `log` of host effects grows: events
  raised, menus shown, cursor changes and redraw requests.

Behaviour kept exactly as the code has it:

- `CreateBounds(h)` builds the header rectangle from its argument. It takes
  the top padding from the header height already stored in the object. The
  `HeaderHeight` setter rebuilds the geometry before it stores the new value,
  so the padding reflects the previous header height until the next resize
  or `EndInit` (`GroupModel.HeaderHeightPaddingLags`). In the running
  control, an `Expand` or `Collapse` that changes the height also counts as
  such a resize. The height is assigned to the base control, which raises
  Resize and rebuilds the geometry. The model does not include that
  propagation (see "Left out"). So `GroupModel.DoubleHeaderClickRestores`
  assumes the geometry is already in sync.
- "Height equals the expanded height when expanded, the header height when
  collapsed" is not an invariant of every state:
  - `Expand`, `Collapse` and an `Expanded` assignment that changes the state
    establish it from any state (`GroupModel.ExpandCollapseEstablishConsistent`).
  - Mouse, resize and `EndInit` handlers preserve it but do not establish it
    (`GroupModel.RunKeepsConsistent`). Assigning `Expanded` its current value
    changes nothing, so it neither establishes nor breaks it.
  - A new control need not satisfy it. `Initialize` never sets the height, so
    it holds only when the host's initial height is 150
    (`GroupModel.InitialConsistentIffDefaultHeight`).
  - Three setters can break it: `HeaderHeight` while collapsed,
    `ExpandedHeight` while expanded, and `Height` while collapsed. None of
    them adjusts the other fields; three lemmas exhibit this. The code's own
    comment on the `Height` setter (NaviGroup.cs:166-167) promises only that
    the expanded height follows the height while expanded.
- The header region does not exist until the geometry has been built once by
  `EndInit`, a resize or a header-height change. Before that, a click or a
  move dereferences the null header region (NaviGroup.cs:317, :340) and
  throws a NullReferenceException. The model does not model that failure:
  `OnMouseClick` and `OnMouseMove` require `boundsCreated`, which excludes it.

## Model

| member | source | states |
|---|---|---|
| `Geometry.HeaderRect` | Src/Guifreaks.Navisuite/Controls/NaviGroup.cs:227-228 | a point hits the header region exactly when 0 <= x < width and 0 <= y < the header height |
| `Geometry.TextBounds` | Src/Guifreaks.Navisuite/Controls/NaviGroup.cs:229-239 | text bounds keep the header's Y and height; left inset 16 and right inset 3 for right-to-left text, 3 and 13 otherwise; inside the header when it is wide enough |
| `Geometry.HatchRect` | Src/Guifreaks.Navisuite/Controls/NaviGroup.cs:292-296 | the design-time placeholder starts one pixel below the header, ends two pixels inside the client area's right and bottom edges, and lies in the client area for a non-negative header height |
| `GroupModel.Initial` | Src/Guifreaks.Navisuite/Controls/NaviGroup.cs:207-219 | a new panel is expanded, has header height 20, expanded height 150, state Normal, padding 1 on all sides, no header region yet |
| `GroupModel.SetHeight` | Src/Guifreaks.Navisuite/Controls/NaviGroup.cs:160-171 | the height takes the value; the expanded height follows it only while expanded; nothing else changes |
| `GroupModel.SetExpandedHeight` | Src/Guifreaks.Navisuite/Controls/NaviGroup.cs:151-155 | stores the expanded height without resizing the control |
| `GroupModel.Expand` | Src/Guifreaks.Navisuite/Controls/NaviGroup.cs:246-250 | afterwards expanded, height equals the expanded height, and the expanded height is unchanged |
| `GroupModel.Collapse` | Src/Guifreaks.Navisuite/Controls/NaviGroup.cs:255-259 | afterwards collapsed, height equals the header height, and the expanded height is unchanged |
| `GroupModel.SetExpanded` | Src/Guifreaks.Navisuite/Controls/NaviGroup.cs:125-143 | afterwards Expanded equals the value; assigning the current state changes nothing; a change sets the height to the expanded or header height |
| `GroupModel.CreateBounds` | Src/Guifreaks.Navisuite/Controls/NaviGroup.cs:225-241 | the header region is the argument-high strip of the current width; text bounds follow it; the top padding is the stored header height plus 2 |
| `GroupModel.SetHeaderHeight` | Src/Guifreaks.Navisuite/Controls/NaviGroup.cs:106-117 | afterwards HeaderHeight equals the value; an unchanged value changes nothing; a new value gives the header rectangle (0, 0, width, v), its text bounds and padding top old height + 2, and otherwise exactly what CreateBounds(v) gives; the heights are not adjusted |
| `GroupModel.EndInit` | Src/Guifreaks.Navisuite/Controls/NaviGroup.cs:441-444 | afterwards the geometry and padding match the stored header height |
| `GroupModel.OnResize` | Src/Guifreaks.Navisuite/Controls/NaviGroup.cs:370-375 | afterwards the geometry matches the new width and the stored header height; only the width, the geometry and the top padding change (hover state, text direction, menus, side paddings, heights and expand state are kept); a redraw is requested |
| `GroupModel.OnHeaderMouseClick` | Src/Guifreaks.Navisuite/Controls/NaviGroup.cs:400-425 | a left click toggles the expand state once; other buttons change nothing; the effects are exactly the header menu (only for a right click with a menu configured) followed by the header-click notification, for every button |
| `GroupModel.OnMouseClick` | Src/Guifreaks.Navisuite/Controls/NaviGroup.cs:315-331 | the header-click notification is raised exactly for clicks on the header; a click on the header leaves the panel as the header-click handler does (a left click collapses or expands, with the matching height, and keeps the geometry); any other click changes nothing; the body menu is shown exactly for a right click off the header with a body menu configured; the effects are exactly the MouseClick event followed by the header-click effects or that menu |
| `GroupModel.OnMouseMove` | Src/Guifreaks.Navisuite/Controls/NaviGroup.cs:337-352 | afterwards Hovered exactly when the point hits the header region; hand cursor there, default cursor elsewhere, and a redraw on every move |
| `GroupModel.OnMouseLeave` | Src/Guifreaks.Navisuite/Controls/NaviGroup.cs:358-364 | afterwards Normal, whatever the state before, nothing else changed; the effects are exactly the MouseLeave event, the default cursor and a redraw |
| `GroupModel.StepKeepsConsistent` | Src/Guifreaks.Navisuite/Controls/NaviGroup.cs:246-259 | each click, move, leave, Expand, Collapse, Expanded assignment, resize or EndInit preserves the agreement of the height with the expand state and keeps the expanded height |
| `GroupModel.RunKeepsConsistent` | Src/Guifreaks.Navisuite/Controls/NaviGroup.cs:160-171 | from a state where it holds, over any sequence of such actions the height keeps agreeing with the expand state and the expanded height never changes |
| `GroupModel.StepKeepsGeometry` | Src/Guifreaks.Navisuite/Controls/NaviGroup.cs:225-241 | once the geometry matches the header height, each action keeps it so |
| `GroupModel.RunKeepsGeometry` | Src/Guifreaks.Navisuite/Controls/NaviGroup.cs:370-375 | the same over any sequence of actions |
| `GroupModel.ResizeWhileExpandedIsRemembered` | Src/Guifreaks.Navisuite/Controls/NaviGroup.cs:163-170 | Expand, set height v, Collapse, Expand gives height v |
| `GroupModel.ResizeWhileCollapsedIsForgotten` | Src/Guifreaks.Navisuite/Controls/NaviGroup.cs:168-169 | a height set while collapsed is dropped by the next Expand |
| `GroupModel.DoubleHeaderClickRestores` | Src/Guifreaks.Navisuite/Controls/NaviGroup.cs:402-412 | two left clicks on the header return a consistent panel whose geometry is in sync to exactly its previous state |
| `GroupModel.InitialConsistentIffDefaultHeight` | Src/Guifreaks.Navisuite/Controls/NaviGroup.cs:207-219 | a new panel's height agrees with its expand state exactly when the host's initial height is 150 |
| `GroupModel.ExpandCollapseEstablishConsistent` | Src/Guifreaks.Navisuite/Controls/NaviGroup.cs:125-143 | Expand, Collapse and a changing Expanded assignment make the height agree with the expand state from any state; assigning the current state keeps agreement or disagreement as it was |
| `GroupModel.HoverIsHeaderStrip` | Src/Guifreaks.Navisuite/Controls/NaviGroup.cs:340-351 | with the header region in sync (the top padding may be stale), a move hovers exactly when 0 <= x < width and 0 <= y < header height |
| `GroupModel.HeaderInSyncPreserved` | Src/Guifreaks.Navisuite/Controls/NaviGroup.cs:106-171 | every action and the HeaderHeight, Height and ExpandedHeight setters keep the header region in sync with width, header height and text direction |
| `GroupModel.HeaderHeightChangeSyncsHeader` | Src/Guifreaks.Navisuite/Controls/NaviGroup.cs:111-115 | a changing HeaderHeight assignment brings the header region in sync from any state |
| `GroupModel.HeaderHeightHitTest` | Src/Guifreaks.Navisuite/Controls/NaviGroup.cs:111-114 | after the header height is assigned h (a change, or the header already in sync), row h - 1 is on the header and row h + 1 is not |
| `GroupModel.HeaderHeightPaddingLags` | Src/Guifreaks.Navisuite/Controls/NaviGroup.cs:240 | after a header-height change the rectangle and text bounds are right but the top padding is stale; EndInit restores sync |
| `GroupModel.HeaderHeightWhileCollapsedBreaksConsistency` | Src/Guifreaks.Navisuite/Controls/NaviGroup.cs:109-116 | a new header height while collapsed leaves the height at the old header height |
| `GroupModel.ExpandedHeightWhileExpandedBreaksConsistency` | Src/Guifreaks.Navisuite/Controls/NaviGroup.cs:154 | a new expanded height while expanded does not resize the control |
| `GroupModel.HeightWhileCollapsedBreaksConsistency` | Src/Guifreaks.Navisuite/Controls/NaviGroup.cs:165-169 | a height set while collapsed differs from the header height |
| `GroupModel.HeightWhileExpandedKeepsConsistency` | Src/Guifreaks.Navisuite/Controls/NaviGroup.cs:165-169 | a height set while expanded becomes the expanded height too |
| `Navisuite.NaviGroup.constructor` | Src/Guifreaks.Navisuite/Controls/NaviGroup.cs:72-75 | a new object holds exactly the initial panel and an empty effect log |
| `Navisuite.NaviGroup.Initialize` | Src/Guifreaks.Navisuite/Controls/NaviGroup.cs:207-219 | sets the five defaults and nothing else |
| `Navisuite.NaviGroup.SetCaption` | Src/Guifreaks.Navisuite/Controls/NaviGroup.cs:94-98 | stores the caption and changes nothing else |
| `Navisuite.NaviGroup.SetContextMenu` | Src/Guifreaks.Navisuite/Controls/NaviGroup.cs:176-180 | records whether a body menu is configured and changes nothing else |
| `Navisuite.NaviGroup.SetHeaderContextMenu` | Src/Guifreaks.Navisuite/Controls/NaviGroup.cs:185-189 | records whether a header menu is configured and changes nothing else |
| `Navisuite.NaviGroup.CreateBounds` | Src/Guifreaks.Navisuite/Controls/NaviGroup.cs:225-241 | the fields afterwards are `GroupModel.CreateBounds` of the fields before |
| `Navisuite.NaviGroup.SetHeaderHeight` | Src/Guifreaks.Navisuite/Controls/NaviGroup.cs:106-117 | the fields afterwards are `GroupModel.SetHeaderHeight` of the fields before; an unchanged value changes nothing |
| `Navisuite.NaviGroup.SetHeight` | Src/Guifreaks.Navisuite/Controls/NaviGroup.cs:160-171 | the height takes the value and the expanded height follows it only while expanded |
| `Navisuite.NaviGroup.SetExpandedHeight` | Src/Guifreaks.Navisuite/Controls/NaviGroup.cs:151-155 | stores the expanded height; the height is unchanged |
| `Navisuite.NaviGroup.Expand` | Src/Guifreaks.Navisuite/Controls/NaviGroup.cs:246-250 | expanded, height equals the unchanged expanded height |
| `Navisuite.NaviGroup.Collapse` | Src/Guifreaks.Navisuite/Controls/NaviGroup.cs:255-259 | collapsed, height equals the header height, expanded height unchanged |
| `Navisuite.NaviGroup.SetExpanded` | Src/Guifreaks.Navisuite/Controls/NaviGroup.cs:125-143 | afterwards Expanded equals the value; assigning the current state changes nothing |
| `Navisuite.NaviGroup.EndInit` | Src/Guifreaks.Navisuite/Controls/NaviGroup.cs:441-444 | afterwards the geometry matches the stored header height |
| `Navisuite.NaviGroup.OnResize` | Src/Guifreaks.Navisuite/Controls/NaviGroup.cs:370-375 | afterwards the geometry matches the new width; the log gains the Resize event and a redraw |
| `Navisuite.NaviGroup.OnLocationChanged` | Src/Guifreaks.Navisuite/Controls/NaviGroup.cs:377-381 | no field changes; the log gains the LocationChanged event and a redraw |
| `Navisuite.NaviGroup.OnHeaderMouseClick` | Src/Guifreaks.Navisuite/Controls/NaviGroup.cs:400-425 | a left click toggles the expand state; fields and log follow `GroupModel.OnHeaderMouseClick` |
| `Navisuite.NaviGroup.OnMouseClick` | Src/Guifreaks.Navisuite/Controls/NaviGroup.cs:315-331 | fields and log follow `GroupModel.OnMouseClick` |
| `Navisuite.NaviGroup.OnMouseMove` | Src/Guifreaks.Navisuite/Controls/NaviGroup.cs:337-352 | Hovered exactly when the point is in the header rectangle; fields and log follow `GroupModel.OnMouseMove` |
| `Navisuite.NaviGroup.OnMouseLeave` | Src/Guifreaks.Navisuite/Controls/NaviGroup.cs:358-364 | Normal afterwards; fields and log follow `GroupModel.OnMouseLeave` |
| `Navisuite.RememberedResizeScenario` | Src/Guifreaks.Navisuite/Controls/NaviGroup.cs:160-171 | on an object: Expand, set height 200, Collapse, Expand ends expanded at height 200 with expanded height 200 |

## Left out

- Painting (`OnPaint`, `OnPaintBackground`): the parent-canvas blit and the renderer's drawing calls, fonts and colours. These are calls into the renderer and GDI+. Only the hatch rectangle arithmetic is modelled (`Geometry.HatchRect`).
- Redraw requests, cursor changes, context-menu pop-ups and the base control's events are only recorded as entries in the ghost effect log.
- The `HeaderMouseClick` subscription list and its lock (lines 390-394). The notification is logged as `HeaderClickFired` whether or not anyone has subscribed. Who receives it, and the snapshot behaviour of concurrent removal, are not modelled.
- `BeginInit` (lines 434-436) has an empty body and is not modelled. The `NaviGroup(IContainer)` constructor's registration with its container is not modelled either.
- Base-control behaviour. Assigning the base height would raise the Resize event and rebuild the geometry in the running control, so an `Expand` or `Collapse` that changes the height also brings a stale top padding back in sync there; the model does not do this. A host resize is modelled as `OnResize(newWidth)`, after the host has changed only the width. The control's height changes only through the `Height` setter, `Expand` and `Collapse`.
- The initial size and the text direction come from the hosting form. They are constructor parameters. A later change of the right-to-left setting is not modelled, and the code has no handler that would rebuild the text bounds for it.
- The `Region` object. Header hit-testing is rectangle membership, and a rectangle with a negative extent is taken to contain no point.
- 32-bit integer arithmetic. Heights, widths and the sums `headerHeight + 2` and `width - 19` are unbounded integers, so wrap-around at the `int` limits is not modelled. Negative heights are accepted without validation, as in the code.
- The caption's initial null value is modelled as the empty string.
- Src/Guifreaks.Common/LargeImageIndexEditor.cs is not part of this model. It is a property-grid image editor whose only logic is an index bounds check.
