/** The process-wide store: four state cells, each with its own setter, handed
    to every component by a provider. */
module StoreContext {
  import opened Types

  /** A snapshot of the four state cells. */
  datatype ViewState = ViewState(
    viewMode: ViewMode,
    focusTarget: Option<FocusTarget>,
    focusedItemName: Option<string>,
    lookOffset: real)

  /** The values the provider starts with. */
  function Initial(): (st: ViewState)
    ensures st.viewMode == WALL
    ensures st.focusTarget.None? && st.focusedItemName.None?
    ensures st.lookOffset == 0.0
  {
    ViewState(WALL, None, None, 0.0)
  }

  /** The store's invariant: a focus target and a focused item exist exactly in FOCUS. */
  predicate Consistent(st: ViewState)
  {
    && (st.focusTarget.Some? <==> st.viewMode == FOCUS)
    && (st.focusedItemName.Some? <==> st.viewMode == FOCUS)
  }

  lemma InitialConsistent()
    ensures Consistent(Initial())
  {
  }

  /** The state held by one provider. Each setter overwrites its own cell and
      nothing else. */
  class Store {
    var viewMode: ViewMode
    var focusTarget: Option<FocusTarget>
    var focusedItemName: Option<string>
    var lookOffset: real

    function State(): ViewState
      reads this
    {
      ViewState(viewMode, focusTarget, focusedItemName, lookOffset)
    }

    /** Mounting a provider. */
    constructor ()
      ensures State() == Initial()
    {
      viewMode := WALL;
      focusTarget := None;
      focusedItemName := None;
      lookOffset := 0.0;
    }

    method SetViewMode(mode: ViewMode)
      modifies this
      ensures State() == old(State()).(viewMode := mode)
    {
      viewMode := mode;
    }

    method SetFocusTarget(target: Option<FocusTarget>)
      modifies this
      ensures State() == old(State()).(focusTarget := target)
    {
      focusTarget := target;
    }

    method SetFocusedItemName(name: Option<string>)
      modifies this
      ensures State() == old(State()).(focusedItemName := name)
    {
      focusedItemName := name;
    }

    method SetLookOffset(offset: real)
      modifies this
      ensures State() == old(State()).(lookOffset := offset)
    {
      lookOffset := offset;
    }
  }

  /** What every clickable desk object (the camera, the film reels, the
      gramophone, a generic item and each book) does to the store when clicked:
      in DESK it records the object's name and focus target and enters FOCUS;
      in every other mode, FOCUS included, the click is ignored. */
  function ClickObject(st: ViewState, name: string, target: FocusTarget): (r: ViewState)
    ensures st.viewMode == DESK ==>
              r == ViewState(FOCUS, Some(target), Some(name), st.lookOffset)
    ensures st.viewMode != DESK ==> r == st
  {
    if st.viewMode == DESK then
      st.(focusTarget := Some(target), focusedItemName := Some(name), viewMode := FOCUS)
    else
      st
  }

  /** The `isFocused` test each clickable object makes: the store is in FOCUS
      and names that object. */
  function Focused(st: ViewState, name: string): (b: bool)
    ensures b ==> st.viewMode == FOCUS && st.focusedItemName == Some(name)
    ensures st.viewMode != FOCUS ==> !b
    ensures b && Consistent(st) ==> st.focusTarget.Some?
  {
    st.viewMode == FOCUS && st.focusedItemName == Some(name)
  }

  /** A click on an object in DESK focuses that object and no other; a click
      in any other mode never changes which object, if any, is focused. */
  lemma ClickObjectFocuses(st: ViewState, name: string, target: FocusTarget, other: string)
    ensures st.viewMode == DESK ==> (Focused(ClickObject(st, name, target), other) <==> other == name)
    ensures st.viewMode != DESK ==> (Focused(ClickObject(st, name, target), other) <==> Focused(st, other))
    ensures Consistent(st) ==> Consistent(ClickObject(st, name, target))
  {
  }

  datatype Result<T> = Ok(value: T) | Err(message: string)

  const OutsideProvider := "useStore must be used within a StoreProvider"

  /** Reading the store: `context` is the nearest provider above the caller,
      if any. Without one the call fails; it never falls back to a default store. */
  function UseStore(context: Option<Store>): (r: Result<Store>)
    ensures r.Ok? <==> context.Some?
    ensures r.Ok? ==> r.value == context.value
    ensures r.Err? ==> r.message == OutsideProvider
  {
    match context
    case None => Err(OutsideProvider)
    case Some(s) => Ok(s)
  }
}
