/** One book on the desk: clicking it focuses it; while it is focused its two
    invisible halves flip leaves forward and back; when it loses focus its flip
    count returns to zero. Leaf 0 is the cover, leaf `i + 1` carries page `i`. */
module InteractiveBook {
  import opened Types
  import opened StoreContext

  // ----- Leaves and the flip counter -----

  /** The pages actually rendered: a missing list counts as empty. */
  function SafePages(pages: Option<seq<BookPage>>): (s: seq<BookPage>)
    ensures pages.Some? ==> s == pages.value
    ensures pages.None? ==> s == []
  {
    if pages.Some? then pages.value else []
  }

  /** The cover plus one leaf per page. */
  function TotalLeaves(pages: Option<seq<BookPage>>): (n: nat)
    ensures n >= 1
    ensures pages.None? ==> n == 1
    ensures pages.Some? ==> n == |pages.value| + 1
  {
    |SafePages(pages)| + 1
  }

  /** The right half: turn one more leaf, unless every leaf is already turned. */
  function NextCount(flipped: int, totalLeaves: int): (r: int)
    ensures r == flipped || r == flipped + 1
    ensures r == flipped <==> flipped >= totalLeaves
    ensures 0 <= flipped <= totalLeaves ==> 0 <= r <= totalLeaves
  {
    if flipped < totalLeaves then flipped + 1 else flipped
  }

  /** The left half: turn one leaf back, unless none is turned. */
  function PrevCount(flipped: int): (r: int)
    ensures r == flipped || r == flipped - 1
    ensures r == flipped <==> flipped <= 0
    ensures flipped >= 0 ==> r >= 0
  {
    if flipped > 0 then flipped - 1 else flipped
  }

  /** Where a flip is possible, the two halves undo each other. */
  lemma FlipClamps(flipped: int, totalLeaves: int)
    requires 0 <= flipped <= totalLeaves
    ensures flipped < totalLeaves ==> PrevCount(NextCount(flipped, totalLeaves)) == flipped
    ensures flipped > 0 ==> NextCount(PrevCount(flipped), totalLeaves) == flipped
  {
  }

  datatype Flip = Forward | Backward

  function ApplyFlips(flipped: int, totalLeaves: int, flips: seq<Flip>): int
    decreases |flips|
  {
    if flips == [] then flipped
    else
      var c := if flips[0] == Forward then NextCount(flipped, totalLeaves) else PrevCount(flipped);
      ApplyFlips(c, totalLeaves, flips[1..])
  }

  /** However the reader flips, the counter never leaves `[0, totalLeaves]`,
      and it moves by at most one per flip. */
  lemma {:induction false} FlipsStayInRange(flipped: int, totalLeaves: int, flips: seq<Flip>)
    requires 0 <= flipped <= totalLeaves
    ensures 0 <= ApplyFlips(flipped, totalLeaves, flips) <= totalLeaves
    ensures flipped - |flips| <= ApplyFlips(flipped, totalLeaves, flips) <= flipped + |flips|
    decreases |flips|
  {
    if flips != [] {
      FlipClamps(flipped, totalLeaves);
      var c := if flips[0] == Forward then NextCount(flipped, totalLeaves) else PrevCount(flipped);
      FlipsStayInRange(c, totalLeaves, flips[1..]);
    }
  }

  /** Leaf `k` lies turned over: the first `k + 1` leaves have all been
      turned. The cover (leaf 0) is open as soon as one flip has happened. */
  function LeafOpen(flipped: int, k: int): (b: bool)
    ensures b <==> k + 1 <= flipped
    ensures b && 0 <= k ==> flipped >= 1
  {
    flipped > k
  }

  /** The open/closed state of every leaf, cover first. */
  function Leaves(flipped: int, totalLeaves: nat): (s: seq<bool>)
    ensures |s| == totalLeaves
  {
    seq(totalLeaves, k => LeafOpen(flipped, k))
  }

  function CountOpen(s: seq<bool>): nat
  {
    if s == [] then 0 else CountOpen(s[..|s| - 1]) + (if s[|s| - 1] then 1 else 0)
  }

  /** Open leaves form a prefix: a leaf is open only if every leaf before it is. */
  lemma OpenLeavesPrefix(flipped: int, totalLeaves: nat, j: int, k: int)
    requires 0 <= j <= k < totalLeaves
    ensures Leaves(flipped, totalLeaves)[k] ==> Leaves(flipped, totalLeaves)[j]
  {
  }

  /** The number of open leaves is the flip counter. */
  lemma {:induction false} CountOpenLeaves(flipped: int, totalLeaves: nat)
    requires 0 <= flipped <= totalLeaves
    ensures CountOpen(Leaves(flipped, totalLeaves)) == flipped
  {
    if totalLeaves > 0 {
      var s := Leaves(flipped, totalLeaves);
      if flipped == totalLeaves {
        CountAllOpenPrefix(flipped, totalLeaves - 1);
        assert s[..totalLeaves - 1] == Leaves(flipped, totalLeaves - 1);
      } else {
        CountOpenLeaves(flipped, totalLeaves - 1);
        assert s[..totalLeaves - 1] == Leaves(flipped, totalLeaves - 1);
      }
    }
  }

  /** When every one of the first `m` leaves is open, all `m` count. */
  lemma {:induction false} CountAllOpenPrefix(flipped: int, m: nat)
    requires m < flipped
    ensures CountOpen(Leaves(flipped, m)) == m
  {
    if m > 0 {
      CountAllOpenPrefix(flipped, m - 1);
      assert Leaves(flipped, m)[..m - 1] == Leaves(flipped, m - 1);
    }
  }

  // ----- Page numbers -----

  /** Page `i`'s front and back carry consecutive numbers, odd on the front. */
  function FrontNumber(i: nat): (n: nat)
    ensures n % 2 == 1 && n / 2 == i
  {
    2 * i + 1
  }

  function BackNumber(i: nat): (n: nat)
    ensures n % 2 == 0 && n / 2 == i + 1
    ensures n == FrontNumber(i) + 1
  {
    2 * i + 2
  }

  /** The numbers printed on the pages, in reading order. */
  function PageNumbers(pageCount: nat): seq<nat>
  {
    if pageCount == 0 then [] else PageNumbers(pageCount - 1) + [FrontNumber(pageCount - 1), BackNumber(pageCount - 1)]
  }

  /** The pages are numbered 1, 2, ..., 2 * pageCount without gap or repetition. */
  lemma {:induction false} PageNumbersConsecutive(pageCount: nat)
    ensures |PageNumbers(pageCount)| == 2 * pageCount
    ensures forall k :: 0 <= k < 2 * pageCount ==> PageNumbers(pageCount)[k] == k + 1
  {
    if pageCount > 0 {
      PageNumbersConsecutive(pageCount - 1);
    }
  }

  /** No two sides of any two pages share a number. */
  lemma PageNumbersDistinct(i: nat, j: nat)
    ensures FrontNumber(i) != BackNumber(j)
    ensures FrontNumber(i) == FrontNumber(j) <==> i == j
    ensures BackNumber(i) == BackNumber(j) <==> i == j
  {
  }

  // ----- Back-side content -----

  const DefaultBackText := "The dream continues..."
  const DefaultBackFontSize: real := 0.04
  const DefaultBackLineHeight: real := 1.5

  /** `backTitle || ""`: a given title is shown as given; an absent one is
      empty. */
  function BackTitle(p: BookPage): (t: string)
    ensures p.backTitle.Some? ==> t == p.backTitle.value
    ensures p.backTitle.None? ==> t == ""
  {
    if p.backTitle.Some? && p.backTitle.value != "" then p.backTitle.value else ""
  }

  /** `backText ?? default`: only an absent text takes the default, so the
      back text is empty exactly when it is given as empty. */
  function BackText(p: BookPage): (t: string)
    ensures p.backText.Some? ==> t == p.backText.value
    ensures p.backText.None? ==> t == DefaultBackText
    ensures t == "" <==> p.backText == Some("")
  {
    if p.backText.Some? then p.backText.value else DefaultBackText
  }

  /** `backFontSize || 0.04`: zero counts as absent, so the size is never zero. */
  function BackFontSize(p: BookPage): (f: real)
    ensures f != 0.0
    ensures p.backFontSize.Some? && p.backFontSize.value != 0.0 ==> f == p.backFontSize.value
    ensures p.backFontSize.None? || p.backFontSize.value == 0.0 ==> f == DefaultBackFontSize
  {
    if p.backFontSize.Some? && p.backFontSize.value != 0.0 then p.backFontSize.value else DefaultBackFontSize
  }

  /** `backLineHeight || 1.5`: zero counts as absent, so the height is never zero. */
  function BackLineHeight(p: BookPage): (h: real)
    ensures h != 0.0
    ensures p.backLineHeight.Some? && p.backLineHeight.value != 0.0 ==> h == p.backLineHeight.value
    ensures p.backLineHeight.None? || p.backLineHeight.value == 0.0 ==> h == DefaultBackLineHeight
  {
    if p.backLineHeight.Some? && p.backLineHeight.value != 0.0 then p.backLineHeight.value else DefaultBackLineHeight
  }

  // ----- The component -----

  /** The camera offset for reading: no sideways or depth component, 3.5 up. */
  const TopDownOffset := Vec3(0.0, 3.5, 0.0)

  /** Where the camera goes for a book: straight above its position, looking down at it. */
  function BookFocus(position: Vec3): (t: FocusTarget)
    ensures t.position == position && t.target == position
    ensures t.offset.x == 0.0 && t.offset.z == 0.0 && t.offset.y > 0.0
  {
    FocusTarget(position, TopDownOffset, position)
  }

  /** One mounted book with its flip counter. Its props are a `BookData`. */
  class Book {
    const id: string
    const title: string
    const position: Vec3
    const pages: Option<seq<BookPage>>
    var flippedCount: int

    predicate Valid()
      reads this
    {
      0 <= flippedCount <= TotalLeaves(pages)
    }

    /** Leaf `k` is shown open; only an existing leaf can be. */
    function IsOpen(k: int): (b: bool)
      reads this
      ensures 0 <= k && b ==> flippedCount >= 1
      ensures Valid() && b ==> k < TotalLeaves(pages)
    {
      LeafOpen(flippedCount, k)
    }

    /** Mounting a book: it starts closed. */
    constructor (data: BookData)
      ensures Valid() && flippedCount == 0
      ensures id == data.id && title == data.title && position == data.position && pages == data.pages
    {
      id := data.id;
      title := data.title;
      position := data.position;
      pages := data.pages;
      flippedCount := 0;
    }

    /** The book is focused, and its flip halves are mounted: the store is in
        FOCUS on this book's title, and then a focus target exists. */
    function IsFocused(st: ViewState): (b: bool)
      ensures b ==> st.viewMode == FOCUS && st.focusedItemName == Some(title)
      ensures st.viewMode != FOCUS ==> !b
      ensures b && Consistent(st) ==> st.focusTarget.Some?
    {
      Focused(st, title)
    }

    method HandleBookClick(s: Store)
      modifies s
      ensures s.State() == ClickObject(old(s.State()), title, BookFocus(position))
    {
      if s.viewMode == DESK {
        s.SetFocusedItemName(Some(title));
        s.SetFocusTarget(Some(BookFocus(position)));
        s.SetViewMode(FOCUS);
      }
    }

    method NextPage()
      requires Valid()
      modifies this
      ensures Valid()
      ensures flippedCount == NextCount(old(flippedCount), TotalLeaves(pages))
    {
      if flippedCount < TotalLeaves(pages) {
        flippedCount := flippedCount + 1;
      }
    }

    method PrevPage()
      requires Valid()
      modifies this
      ensures Valid()
      ensures flippedCount == PrevCount(old(flippedCount))
    {
      if flippedCount > 0 {
        flippedCount := flippedCount - 1;
      }
    }

    /** The delayed effect of losing focus, when its timer fires: an unfocused
        book closes; a book focused again in the meantime keeps its pages. */
    method FocusTimerFires(st: ViewState)
      requires Valid()
      modifies this
      ensures Valid()
      ensures flippedCount == if IsFocused(st) then old(flippedCount) else 0
    {
      if !IsFocused(st) {
        flippedCount := 0;
      }
    }
  }

  /** Leaving FOCUS unfocuses every book, so every book's timer closes it. */
  lemma BackUnfocusesBooks(st: ViewState, title: string)
    requires st.viewMode != FOCUS
    ensures !Focused(st, title)
  {
  }
}
