/** The shared vocabulary of the presentation: view modes, 3D points, focus
    targets and the book content records. */
module Types {

  /** `null`/`undefined` in the original props and state cells. */
  datatype Option<+T> = None | Some(value: T)

  /** The four discrete camera/interaction modes. */
  datatype ViewMode = WALL | WALL_NO_TITLE | DESK | FOCUS

  /** Every member of the enum, in declaration order. */
  function AllModes(): (r: seq<ViewMode>)
    ensures |r| == 4
    ensures forall i, j :: 0 <= i < j < |r| ==> r[i] != r[j]
  {
    [WALL, WALL_NO_TITLE, DESK, FOCUS]
  }

  /** There is no fifth mode. */
  lemma AllModesComplete(m: ViewMode)
    ensures m in AllModes()
  {
  }

  /** A three.js `Vector3`, or a `[number, number, number]` tuple. */
  datatype Vec3 = Vec3(x: real, y: real, z: real)

  function Add(a: Vec3, b: Vec3): Vec3
  {
    Vec3(a.x + b.x, a.y + b.y, a.z + b.z)
  }

  /** Where the camera goes when an object is inspected: the object's world
      position, the camera offset from it and the point looked at. */
  datatype FocusTarget = FocusTarget(position: Vec3, offset: Vec3, target: Vec3)

  /** One leaf of a book: a front side (title and text always present) and an
      optional back side; every styling field is optional. */
  datatype BookPage = BookPage(
    title: string,
    text: string,
    fontSize: Option<real>,
    lineHeight: Option<real>,
    image: Option<string>,
    backTitle: Option<string>,
    backText: Option<string>,
    backFontSize: Option<real>,
    backLineHeight: Option<real>,
    backImage: Option<string>)

  /** A book on the desk: identified by `id`, labelled by `title`, with its
      pages in order. The list is declared required; `None` stands for the
      `undefined` an untyped caller can still pass, which the book component
      treats as an empty list. */
  datatype BookData = BookData(
    id: string,
    title: string,
    color: string,
    position: Vec3,
    rotation: Vec3,
    pages: Option<seq<BookPage>>)
}
