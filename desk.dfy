/** The desk's clickable objects (the vintage camera, the film reels, the
    gramophone and the generic interactable item), which object is focused, and
    the hologram photo carousel each GLB object shows while it is focused. */
module Desk {
  import opened Types
  import opened StoreContext

  // ----- Object names, as stored in `focusedItemName` -----

  const CameraName := "Vintage Camera"
  const FilmReelsName := "Film Rolls"
  const GramophoneName := "Gramophone"

  /** The titles of the three books laid out on the desk. */
  const BookTitles: seq<string> := ["Preview", "In Literature", "Suggestions"]

  /** Every name a click on the desk can store. */
  function DeskObjectNames(): seq<string>
  {
    [CameraName, FilmReelsName, GramophoneName] + BookTitles
  }

  /** The six desk objects have six different names, so the mode and the
      focused name single out at most one object: at most one hologram gallery
      and at most one book's page controls are ever shown. */
  lemma DeskNamesDistinct()
    ensures forall i, j :: 0 <= i < j < |DeskObjectNames()| ==> DeskObjectNames()[i] != DeskObjectNames()[j]
  {
  }

  lemma AtMostOneFocused(st: ViewState, a: string, b: string)
    ensures Focused(st, a) && Focused(st, b) ==> a == b
  {
  }

  // ----- Focus targets -----

  /** Items sit in a group raised by 1.48 onto the desk top. */
  const DeskLift := Vec3(0.0, 1.48, 0.0)

  /** The camera offset a generic item uses when it is given none. */
  const DefaultItemOffset := Vec3(0.0, 1.0, 2.0)

  /** The generic item: its world position approximated by lifting its local
      position onto the desk, looked at straight on. */
  function ItemFocus(localPosition: Vec3, focusOffset: Option<Vec3>): (t: FocusTarget)
    ensures t.target == t.position
    ensures t.position.x == localPosition.x && t.position.z == localPosition.z
    ensures t.position.y == localPosition.y + 1.48
    ensures t.offset == if focusOffset.Some? then focusOffset.value else Vec3(0.0, 1.0, 2.0)
  {
    var worldPos := Add(localPosition, DeskLift);
    FocusTarget(worldPos, if focusOffset.Some? then focusOffset.value else DefaultItemOffset, worldPos)
  }

  /** The camera is viewed from a low angle, in front of it, looking straight
      up at its hologram. The position is hard-coded in the handler. */
  function CameraFocus(): (t: FocusTarget)
    ensures t.offset.y < 0.0 && t.offset.z > 0.0 && t.offset.x == 0.0
    ensures t.target.y > t.position.y
    ensures t.target.x == t.position.x && t.target.z == t.position.z
  {
    var worldPos := Vec3(-1.45, 1.83, 0.2);
    FocusTarget(worldPos, Vec3(0.0, -0.35, 6.0), Add(worldPos, Vec3(0.0, 0.6, 0.0)))
  }

  /** The film reels are viewed from in front, slightly right and above,
      looking up and to the right. The position is hard-coded in the handler. */
  function FilmReelsFocus(): (t: FocusTarget)
    ensures t.offset.x > 0.0 && t.offset.y > 0.0 && t.offset.z > 0.0
    ensures t.target.x > t.position.x && t.target.y > t.position.y
    ensures t.target.z == t.position.z
  {
    var worldPos := Vec3(-1.1, 1.48, 0.1);
    FocusTarget(worldPos, Vec3(0.5, 0.5, 5.0), Add(worldPos, Vec3(0.2, 0.4, 0.0)))
  }

  /** The gramophone is viewed frontally, looking up towards its hologram; its
      focus position is its placement on the desk lifted onto the desk top. */
  function GramophoneFocus(): (t: FocusTarget)
    ensures t.offset.x == 0.0 && t.offset.y == 0.0 && t.offset.z > 0.0
    ensures t.target.y > t.position.y
    ensures t.position == Add(Vec3(1.1, 0.0, -0.2), DeskLift)
  {
    var worldPos := Vec3(1.1, 1.48, -0.2);
    FocusTarget(worldPos, Vec3(0.0, 0.0, 5.0), Add(worldPos, Vec3(0.15, 0.7, 0.0)))
  }

  // ----- Click handlers -----

  /** A click on the generic item. */
  method ItemClick(s: Store, localPosition: Vec3, name: string, focusOffset: Option<Vec3>)
    modifies s
    ensures s.State() == ClickObject(old(s.State()), name, ItemFocus(localPosition, focusOffset))
  {
    if s.viewMode == DESK {
      s.SetFocusTarget(Some(ItemFocus(localPosition, focusOffset)));
      s.SetFocusedItemName(Some(name));
      s.SetViewMode(FOCUS);
    }
  }

  method CameraClick(s: Store)
    modifies s
    ensures s.State() == ClickObject(old(s.State()), CameraName, CameraFocus())
  {
    if s.viewMode == DESK {
      s.SetFocusTarget(Some(CameraFocus()));
      s.SetFocusedItemName(Some(CameraName));
      s.SetViewMode(FOCUS);
    }
  }

  method FilmReelsClick(s: Store)
    modifies s
    ensures s.State() == ClickObject(old(s.State()), FilmReelsName, FilmReelsFocus())
  {
    if s.viewMode == DESK {
      s.SetFocusTarget(Some(FilmReelsFocus()));
      s.SetFocusedItemName(Some(FilmReelsName));
      s.SetViewMode(FOCUS);
    }
  }

  method GramophoneClick(s: Store)
    modifies s
    ensures s.State() == ClickObject(old(s.State()), GramophoneName, GramophoneFocus())
  {
    if s.viewMode == DESK {
      s.SetFocusTarget(Some(GramophoneFocus()));
      s.SetFocusedItemName(Some(GramophoneName));
      s.SetViewMode(FOCUS);
    }
  }

  /** Clicking the camera on the desk shows the camera's gallery (a GLB object
      shows its gallery while it is focused) and hides the other two; clicking
      it anywhere else changes no gallery. */
  lemma CameraClickShowsItsGallery(st: ViewState)
    ensures st.viewMode == DESK ==>
              Focused(ClickObject(st, CameraName, CameraFocus()), CameraName)
              && !Focused(ClickObject(st, CameraName, CameraFocus()), FilmReelsName)
              && !Focused(ClickObject(st, CameraName, CameraFocus()), GramophoneName)
    ensures st.viewMode != DESK ==> ClickObject(st, CameraName, CameraFocus()) == st
  {
  }

  // ----- Hologram gallery -----

  datatype Photo = Photo(url: string, title: string, width: real, height: real)

  const CameraPhotos: seq<Photo> := [
    Photo("/hologram_star.jpg", "", 0.45, 0.65),
    Photo("/hologram_bulb.jpg", "", 0.45, 0.65),
    Photo("/hologram_web.jpg", "", 0.45, 0.65)]

  const FilmPhotos: seq<Photo> := [
    Photo("/stalker.jpg", "", 0.45, 0.65),
    Photo("/holy_motors.jpg", "", 0.45, 0.65),
    Photo("/eraserhead.jpg", "", 0.45, 0.65)]

  const GramophonePhotos: seq<Photo> := [
    Photo("/gaye_su_akyol.jpg", "", 0.5, 0.5),
    Photo("/sgt_peppers.jpg", "", 0.5, 0.5),
    Photo("/pink_floyd_wall.jpg", "", 0.5, 0.5)]

  /** The index after ">" in a carousel of `n` photos. Both operands of the
      remainder are non-negative, so its truncating and Euclidean readings agree. */
  function NextIndex(i: int, n: int): (r: int)
    requires 0 <= i && 0 < n
    ensures 0 <= r < n
  {
    (i + 1) % n
  }

  /** The index after "<": adding `n` first keeps the dividend non-negative. */
  function PrevIndex(i: int, n: int): (r: int)
    requires 0 <= i && 0 < n
    ensures 0 <= r < n
  {
    (i - 1 + n) % n
  }

  /** ">" and "<" undo each other on every valid index. */
  lemma NextPrevInverse(i: int, n: int)
    requires 0 <= i < n
    ensures PrevIndex(NextIndex(i, n), n) == i
    ensures NextIndex(PrevIndex(i, n), n) == i
  {
    if i + 1 < n {
      ModUnique(i + 1, n, 0, i + 1);
      ModUnique(i + n, n, 1, i);
    } else {
      ModUnique(n, n, 1, 0);
      ModUnique(n - 1, n, 0, n - 1);
    }
    if i == 0 {
      ModUnique(n - 1, n, 0, n - 1);
      ModUnique(n, n, 1, 0);
    } else {
      ModUnique(i - 1 + n, n, 1, i - 1);
      ModUnique(i, n, 0, i);
    }
  }

  /** `k` presses of ">". */
  function NextTimes(i: int, n: int, k: nat): (r: int)
    requires 0 <= i && 0 < n
    ensures 0 <= r < n
  {
    if k == 0 then i % n else NextIndex(NextTimes(i, n, k - 1), n)
  }

  /** `k` presses of ">" advance the index by `k` around the carousel. */
  lemma {:induction false} NextTimesAdvances(i: int, n: int, k: nat)
    requires 0 <= i < n
    ensures NextTimes(i, n, k) == (i + k) % n
  {
    if k == 0 {
      ModUnique(i, n, 0, i);
    } else {
      NextTimesAdvances(i, n, k - 1);
      NextOfRemainder(NextTimes(i, n, k - 1), i + k - 1, n);
    }
  }

  lemma MulAtLeast(k: int, n: int)
    requires k >= 1 && n > 0
    ensures k * n >= n
  {
  }

  /** Quotient and remainder are unique. */
  lemma ModUnique(a: int, n: int, q: int, r: int)
    requires 0 < n && 0 <= r < n && a == q * n + r
    ensures a % n == r
  {
    var q', r' := a / n, a % n;
    assert (q - q') * n == r' - r;
    if q > q' {
      MulAtLeast(q - q', n);
      assert false;
    }
    if q < q' {
      MulAtLeast(q' - q, n);
      assert false;
    }
  }

  lemma NextOfRemainder(x: int, a: int, n: int)
    requires 0 <= a && 0 < n && x == a % n
    ensures NextIndex(x, n) == (a + 1) % n
  {
    ModSucc(a, n);
  }

  /** Stepping the remainder is stepping the dividend. */
  lemma ModSucc(a: int, n: int)
    requires 0 <= a && 0 < n
    ensures (a % n + 1) % n == (a + 1) % n
  {
    var q, r := a / n, a % n;
    if r + 1 < n {
      ModUnique(r + 1, n, 0, r + 1);
      ModUnique(a + 1, n, q, r + 1);
    } else {
      assert a + 1 == (q + 1) * n + 0;
      ModUnique(n, n, 1, 0);
      ModUnique(a + 1, n, q + 1, 0);
    }
  }

  /** A full round of ">" returns to the photo it started from. */
  lemma FullRoundReturns(i: int, n: int)
    requires 0 <= i < n
    ensures NextTimes(i, n, n) == i
  {
    NextTimesAdvances(i, n, n);
    ModUnique(i + n, n, 1, i);
  }

  /** The carousel of one focused object: its photo list and the index of the
      photo on show. */
  class HologramGallery {
    const photos: seq<Photo>
    var index: int

    predicate Valid()
      reads this
    {
      0 <= index < |photos|
    }

    function CurrentPhoto(): (p: Photo)
      reads this
      requires Valid()
      ensures p in photos
    {
      photos[index]
    }

    /** Mounting the gallery; an empty list has no photo to show. */
    constructor (photos: seq<Photo>)
      requires |photos| > 0
      ensures Valid() && this.photos == photos && index == 0
    {
      this.photos := photos;
      index := 0;
    }

    method NextPhoto()
      requires Valid()
      modifies this
      ensures Valid()
      ensures index == NextIndex(old(index), |photos|)
    {
      index := (index + 1) % |photos|;
    }

    method PrevPhoto()
      requires Valid()
      modifies this
      ensures Valid()
      ensures index == PrevIndex(old(index), |photos|)
    {
      index := (index - 1 + |photos|) % |photos|;
    }
  }
}
