/** The on-screen overlay: the full-screen click layer of the wall views, the
    back and look buttons, and which decorations are visible in each mode. */
module App {
  import opened Types
  import opened StoreContext

  // ----- Visibility, a function of the mode alone -----

  /** The back buttons (mobile and footer) and the two look buttons are
      mounted: in the two desk views. */
  function ShowNavButtons(m: ViewMode): (b: bool)
    ensures b <==> m == DESK || m == FOCUS
  {
    m != WALL && m != WALL_NO_TITLE
  }

  /** The footer (back button and hint text) is opaque exactly when its
      buttons are mounted. */
  function ShowFooter(m: ViewMode): (b: bool)
    ensures b <==> ShowNavButtons(m)
  {
    m == DESK || m == FOCUS
  }

  /** The two wall views, in which a click anywhere advances the presentation;
      the click layer is mounted exactly in these modes, so in every mode
      exactly one way of navigating is mounted, never both and never neither. */
  function IsTransitionMode(m: ViewMode): (b: bool)
    ensures b <==> !ShowNavButtons(m)
  {
    m == WALL || m == WALL_NO_TITLE
  }

  /** The presentation title is opaque: only in the first wall view, above
      the click layer and never together with the footer. */
  function ShowTitle(m: ViewMode): (b: bool)
    ensures b ==> IsTransitionMode(m) && !ShowFooter(m)
    ensures b <==> IsTransitionMode(m) && m != WALL_NO_TITLE
  {
    m == WALL
  }

  // ----- The handlers, as transitions of the store -----

  /** The back button: FOCUS returns to the desk and forgets the focused
      object; DESK returns to the wall; the wall views ignore it. */
  function Back(st: ViewState): (r: ViewState)
    ensures st.viewMode == FOCUS ==>
              r == st.(viewMode := DESK, focusTarget := None, focusedItemName := None)
    ensures st.viewMode == DESK ==> r == st.(viewMode := WALL)
    ensures IsTransitionMode(st.viewMode) ==> r == st
  {
    match st.viewMode
    case FOCUS => st.(viewMode := DESK, focusTarget := None, focusedItemName := None)
    case DESK => st.(viewMode := WALL)
    case _ => st
  }

  /** The click layer: WALL drops the title, WALL_NO_TITLE moves to the desk;
      the desk views ignore it. */
  function ScreenClick(st: ViewState): (r: ViewState)
    ensures st.viewMode == WALL ==> r == st.(viewMode := WALL_NO_TITLE)
    ensures st.viewMode == WALL_NO_TITLE ==> r == st.(viewMode := DESK)
    ensures ShowNavButtons(st.viewMode) ==> r == st
  {
    match st.viewMode
    case WALL => st.(viewMode := WALL_NO_TITLE)
    case WALL_NO_TITLE => st.(viewMode := DESK)
    case _ => st
  }

  /** The "Look" buttons move the horizontal look offset by half a unit. */
  const LookStep: real := 0.5

  /** "Look Left" moves only the offset, half a unit to the left. */
  function LookLeft(st: ViewState): (r: ViewState)
    ensures r.(lookOffset := st.lookOffset) == st
    ensures r.lookOffset == st.lookOffset - 0.5
  {
    st.(lookOffset := st.lookOffset - LookStep)
  }

  /** "Look Right" moves only the offset, half a unit to the right. */
  function LookRight(st: ViewState): (r: ViewState)
    ensures r.(lookOffset := st.lookOffset) == st
    ensures r.lookOffset == st.lookOffset + 0.5
  {
    st.(lookOffset := st.lookOffset + LookStep)
  }

  /** The look buttons undo each other. */
  lemma LookButtons(st: ViewState)
    ensures LookLeft(LookRight(st)) == st && LookRight(LookLeft(st)) == st
  {
  }

  /** No overlay handler ever enters FOCUS, and all of them keep the store's
      invariant; only Back leaves FOCUS, and it clears both focus cells. */
  lemma OverlayKeepsConsistent(st: ViewState)
    requires Consistent(st)
    ensures Consistent(Back(st)) && Consistent(ScreenClick(st))
    ensures Consistent(LookLeft(st)) && Consistent(LookRight(st))
    ensures Back(st).viewMode != FOCUS
    ensures st.viewMode != FOCUS ==> ScreenClick(st).viewMode != FOCUS
    ensures Back(st).focusTarget.None? && Back(st).focusedItemName.None?
  {
  }

  /** From anywhere, two presses of back reach a wall view, and from either
      wall view two clicks reach the desk. */
  lemma BackAndForth(st: ViewState)
    ensures IsTransitionMode(Back(Back(st)).viewMode)
    ensures IsTransitionMode(st.viewMode) ==> ScreenClick(ScreenClick(st)).viewMode == DESK
  {
  }

  // ----- The handlers as they run against the store -----

  method HandleBack(s: Store)
    modifies s
    ensures s.State() == Back(old(s.State()))
  {
    if s.viewMode == FOCUS {
      s.SetViewMode(DESK);
      s.SetFocusTarget(None);
      s.SetFocusedItemName(None);
    } else if s.viewMode == DESK {
      s.SetViewMode(WALL);
    }
  }

  method HandleScreenClick(s: Store)
    modifies s
    ensures s.State() == ScreenClick(old(s.State()))
  {
    if s.viewMode == WALL {
      s.SetViewMode(WALL_NO_TITLE);
    } else if s.viewMode == WALL_NO_TITLE {
      s.SetViewMode(DESK);
    }
  }

  method HandleLookLeft(s: Store)
    modifies s
    ensures s.State() == LookLeft(old(s.State()))
  {
    s.SetLookOffset(s.lookOffset - LookStep);
  }

  method HandleLookRight(s: Store)
    modifies s
    ensures s.State() == LookRight(old(s.State()))
  {
    s.SetLookOffset(s.lookOffset + LookStep);
  }
}
