/** Every handler that writes the store, gathered into one event type, and the
    invariant they keep together: a focus target and a focused object exist
    exactly while the mode is FOCUS. */
module Navigation {
  import opened Types
  import opened StoreContext
  import App
  import Desk
  import InteractiveBook

  /** One user action that reaches the store. */
  datatype Event =
    | ScreenClick
    | Back
    | LookLeft
    | LookRight
    | ClickCamera
    | ClickFilmReels
    | ClickGramophone
    | ClickItem(localPosition: Vec3, name: string, focusOffset: Option<Vec3>)
    | ClickBook(title: string, position: Vec3)

  /** The store after one action, each handler run to completion. */
  function Step(st: ViewState, e: Event): ViewState
  {
    match e
    case ScreenClick => App.ScreenClick(st)
    case Back => App.Back(st)
    case LookLeft => App.LookLeft(st)
    case LookRight => App.LookRight(st)
    case ClickCamera => ClickObject(st, Desk.CameraName, Desk.CameraFocus())
    case ClickFilmReels => ClickObject(st, Desk.FilmReelsName, Desk.FilmReelsFocus())
    case ClickGramophone => ClickObject(st, Desk.GramophoneName, Desk.GramophoneFocus())
    case ClickItem(p, name, offset) => ClickObject(st, name, Desk.ItemFocus(p, offset))
    case ClickBook(title, p) => ClickObject(st, title, InteractiveBook.BookFocus(p))
  }

  function Run(st: ViewState, events: seq<Event>): ViewState
    decreases |events|
  {
    if events == [] then st else Run(Step(st, events[0]), events[1..])
  }

  /** Every handler keeps the invariant. */
  lemma StepConsistent(st: ViewState, e: Event)
    requires Consistent(st)
    ensures Consistent(Step(st, e))
  {
  }

  /** Over any sequence of actions from a consistent store, a focus target
      exists iff a focused object exists iff the mode is FOCUS. */
  lemma {:induction false} RunConsistent(st: ViewState, events: seq<Event>)
    requires Consistent(st)
    ensures Consistent(Run(st, events))
    decreases |events|
  {
    if events != [] {
      StepConsistent(st, events[0]);
      RunConsistent(Step(st, events[0]), events[1..]);
    }
  }

  /** In particular for every sequence of actions since the page loaded. */
  lemma ReachableConsistent(events: seq<Event>)
    ensures var st := Run(Initial(), events);
            (st.focusTarget.Some? <==> st.viewMode == FOCUS)
            && (st.focusedItemName.Some? <==> st.viewMode == FOCUS)
  {
    RunConsistent(Initial(), events);
  }

  /** FOCUS is left only by Back: every other action keeps the mode, the
      focus target and the focused object; only the look offset may move. */
  lemma FocusLeftOnlyByBack(st: ViewState, e: Event)
    requires st.viewMode == FOCUS && !e.Back?
    ensures Step(st, e).viewMode == FOCUS
    ensures Step(st, e).focusTarget == st.focusTarget
    ensures Step(st, e).focusedItemName == st.focusedItemName
  {
  }

  /** The desk is entered only from WALL_NO_TITLE by a click, or from FOCUS by Back. */
  lemma DeskEnteredOnlyThus(st: ViewState, e: Event)
    requires st.viewMode != DESK && Step(st, e).viewMode == DESK
    ensures (st.viewMode == WALL_NO_TITLE && e.ScreenClick?) || (st.viewMode == FOCUS && e.Back?)
  {
  }

  /** Entering the room, inspecting the camera and stepping back, on a fresh
      store: after three actions the camera is focused at its own focus
      target; after the fourth the desk is shown and nothing is focused. */
  method CameraTour() returns (focused: ViewState, back: ViewState)
    ensures focused.viewMode == FOCUS
    ensures focused.focusedItemName == Some("Vintage Camera")
    ensures focused.focusTarget.Some? && focused.focusTarget.value.position == Vec3(-1.45, 1.83, 0.2)
    ensures back.viewMode == DESK && back.focusTarget.None? && back.focusedItemName.None?
    ensures back.lookOffset == 0.0
  {
    var s := new Store();
    App.HandleScreenClick(s);
    App.HandleScreenClick(s);
    Desk.CameraClick(s);
    focused := s.State();
    App.HandleBack(s);
    back := s.State();
  }

  /** On the desk, a click on a book focuses that book by its title and puts
      the camera straight above it. */
  method BookTour(data: BookData) returns (focused: ViewState, isFocused: bool)
    ensures focused.viewMode == FOCUS && focused.focusedItemName == Some(data.title)
    ensures focused.focusTarget == Some(InteractiveBook.BookFocus(data.position))
    ensures isFocused
  {
    var s := new Store();
    var book := new InteractiveBook.Book(data);
    App.HandleScreenClick(s);
    App.HandleScreenClick(s);
    book.HandleBookClick(s);
    focused := s.State();
    isFocused := book.IsFocused(focused);
  }

  /** Reading a book and stepping back: two forward flips turn the cover and
      the first page; once Back has unfocused the book, its timer closes it. */
  method ReadAndLeaveBook(data: BookData) returns (whileReading: int, afterLeaving: int)
    requires data.pages.Some? && |data.pages.value| >= 1
    ensures whileReading == 2 && afterLeaving == 0
  {
    var s := new Store();
    var book := new InteractiveBook.Book(data);
    App.HandleScreenClick(s);
    App.HandleScreenClick(s);
    book.HandleBookClick(s);
    book.NextPage();
    book.NextPage();
    whileReading := book.flippedCount;
    App.HandleBack(s);
    book.FocusTimerFires(s.State());
    afterLeaving := book.flippedCount;
  }
}
