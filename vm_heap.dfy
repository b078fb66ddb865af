/** The `waffle` VM's heap pieces (`vm/src/heap/space.rs`,
    `vm/src/heap/mod.rs`): bump-pointer spaces made of pages, the permanent
    heap and the parser of GC variant names. Addresses are numbers; the
    memory a page commits is given by its start address. */
module VmHeap {
  import opened Wrappers
  import opened WaffleCell
  import opened RegisterFile

  // ---------------------------------------------------------------------------
  // Pages and spaces

  /** The number of `a`-byte units that cover `n` bytes. */
  function Units(n: nat, a: nat): (k: nat)
    requires a > 0
    ensures k * a >= n && (k == 0 || (k - 1) * a < n)
    decreases n
  {
    if n == 0 then 0
    else if n <= a then 1
    else
      var k := Units(n - a, a);
      assert (k + 1) * a == k * a + a;
      k + 1
  }

  /** `align_usize(n, a)` (`vm/src/util/mem.rs`, not part of this model),
      read as rounding `n` up to a multiple of `a`: a whole number of units,
      at least `n` and less than one unit more. */
  function AlignUp(n: nat, a: nat): (r: nat)
    requires a > 0
    ensures r == Units(n, a) * a && n <= r < n + a
  {
    var k := Units(n, a);
    assert k > 0 ==> k * a == (k - 1) * a + a;
    k * a
  }

  /** A page: committed memory from `data` to `limit`, bump-allocated at
      `top`. */
  class Page {
    const data: nat
    var top: nat
    const limit: nat
    const size: nat

    /** `Page::new(size)`: memory committed at `data`, nothing allocated. */
    constructor (size: nat, data: nat)
      ensures this.data == data && top == data && limit == data + size && this.size == size
    {
      this.data := data;
      top := data;
      limit := data + size;
      this.size := size;
    }
  }

  /** Whether each page has room for `bytes` more. */
  ghost function Fits(pages: seq<Page>, bytes: nat): (r: seq<bool>)
    reads pages
    ensures |r| == |pages|
    ensures forall j :: 0 <= j < |pages| ==> (r[j] <==> pages[j].top + bytes <= pages[j].limit)
  {
    if pages == [] then []
    else Fits(pages[..|pages| - 1], bytes) + [pages[|pages| - 1].top + bytes <= pages[|pages| - 1].limit]
  }

  /** The page a search from the back settles on: the last page at index
      `lowest` or above that has room, if any. */
  function Pick(fits: seq<bool>, lowest: nat): (r: Option<nat>)
    ensures r.Some? ==> lowest <= r.value < |fits| && fits[r.value]
  {
    if |fits| <= lowest then Option.None
    else if fits[|fits| - 1] then Some(|fits| - 1)
    else Pick(fits[..|fits| - 1], lowest)
  }

  /** `Pick` without the recursion: it names the last page from `lowest`
      with room, and it is none exactly when no such page has room. */
  lemma {:induction false} PickMeaning(fits: seq<bool>, lowest: nat)
    ensures Pick(fits, lowest).None? <==> forall j :: lowest <= j < |fits| ==> !fits[j]
    ensures Pick(fits, lowest).Some? ==>
      var j := Pick(fits, lowest).value;
      lowest <= j < |fits| && fits[j] && forall k :: j < k < |fits| ==> !fits[k]
    decreases |fits|
  {
    if lowest < |fits| && !fits[|fits| - 1] {
      PickMeaning(fits[..|fits| - 1], lowest);
    }
  }

  /** The even size `allocate` reserves: an odd request is rounded up. */
  function EvenBytes(bytes: nat): (r: nat)
    ensures r % 2 == 0 && bytes <= r <= bytes + 1
  {
    bytes + bytes % 2
  }

  /** The page at the back of a list, if any. */
  function Last(pages: seq<Page>): (r: Option<Page>)
    ensures r.None? <==> pages == []
    ensures r.Some? ==> r.value == pages[|pages| - 1]
  {
    if pages == [] then Option.None else Some(pages[|pages| - 1])
  }

  /** The bytes committed by `pages`. */
  function TotalSize(pages: seq<Page>): nat
  {
    if pages == [] then 0 else TotalSize(pages[..|pages| - 1]) + pages[|pages| - 1].size
  }

  lemma TotalSnoc(pages: seq<Page>, p: Page)
    ensures TotalSize(pages + [p]) == TotalSize(pages) + p.size
  {
    assert (pages + [p])[..|pages|] == pages;
  }

  /** Taking page `n - 1` off the back of what is left of `moved` appends
      it to the pages moved so far. */
  lemma MoveOne(moved: seq<Page>, n: nat)
    requires 0 < n <= |moved|
    ensures Reversed(moved[n - 1..]) == Reversed(moved[n..]) + [moved[n - 1]]
  {
    assert moved[n - 1..] == [moved[n - 1]] + moved[n..];
    ReversedCons(moved[n - 1], moved[n..]);
  }

  /** Reversing the pages keeps their total size. */
  lemma {:induction false} ReversedTotal(pages: seq<Page>)
    ensures TotalSize(Reversed(pages)) == TotalSize(pages)
    decreases |pages|
  {
    if pages != [] {
      var last := pages[|pages| - 1];
      var rest := pages[..|pages| - 1];
      ReversedTotal(rest);
      TotalPrepend(last, Reversed(rest));
    }
  }

  lemma {:induction false} TotalPrepend(p: Page, pages: seq<Page>)
    ensures TotalSize([p] + pages) == p.size + TotalSize(pages)
    decreases |pages|
  {
    if pages != [] {
      var rest := pages[..|pages| - 1];
      assert ([p] + pages)[..|pages|] == [p] + rest;
      TotalPrepend(p, rest);
    }
  }

  class Space {
    var pages: seq<Page>
    /** The page whose `top` and `limit` the space's two pointers refer
        to. */
    var current: Page
    var size: nat
    var sizeLimit: nat
    const pageSize: nat

    /** The space's pointers refer to one of its pages. */
    predicate Valid()
      reads this
    {
      current in pages
    }

    /** `Space::new(page_size)`: one page of `page_size` bytes at `data`,
        current; that page is not counted, so the size and the limit are
        0. */
    constructor (pageSize: nat, data: nat)
      ensures Valid() && |pages| == 1 && current == pages[0] && fresh(current)
      ensures current.top == data && current.limit == data + pageSize
      ensures size == 0 && sizeLimit == 0 && this.pageSize == pageSize
    {
      var page := new Page(pageSize, data);
      pages := [page];
      current := page;
      size := 0;
      this.pageSize := pageSize;
      sizeLimit := 0;
      new;
      ComputeSizeLimit();
    }

    /** `compute_size_limit`: the limit is twice the size. */
    method ComputeSizeLimit()
      modifies this`sizeLimit
      ensures sizeLimit == 2 * size
    {
      sizeLimit := size * 2;
    }

    /** `add_page(n)`: a page of `n` bytes rounded up to the system page
        size `osPage` is committed at `data`, counted in the size, appended
        and made current. */
    method AddPage(n: nat, osPage: nat, data: nat)
      requires osPage > 0
      modifies this`size, this`current, this`pages
      ensures Valid() && fresh(current) && pages == old(pages) + [current]
      ensures current.top == data && current.limit == data + AlignUp(n, osPage)
      ensures current.size == AlignUp(n, osPage) && size == old(size) + current.size
    {
      var realSize := AlignUp(n, osPage);
      var page := new Page(realSize, data);
      size := size + realSize;
      current := page;
      pages := pages + [page];
    }

    /** The loop of `allocate`: starting from the back, each page in turn
        becomes current until the current page has room or the list is used
        up. The result is the index of the next page the loop would try,
        -1 once none is left. */
    method Search(even: nat) returns (head: int)
      requires current.top + even > current.limit
      modifies this`current
      ensures -1 <= head < |pages|
      ensures forall j :: head + 1 < j < |pages| ==> pages[j].top + even > pages[j].limit
      ensures current.top + even <= current.limit ==> head + 1 < |pages| && current == pages[head + 1]
      ensures current.top + even > current.limit ==>
        head == -1 && (pages == [] || current == pages[0])
    {
      head := |pages| - 1;
      while current.top + even > current.limit && head >= 0
        invariant -1 <= head < |pages|
        invariant head + 1 < |pages| ==> current == pages[head + 1]
        invariant head + 1 == |pages| ==> current.top + even > current.limit
        invariant forall j :: head + 1 < j < |pages| ==> pages[j].top + even > pages[j].limit
        decreases head
      {
        current := pages[head];
        head := head - 1;
      }
    }

    /** The search of `allocate` for a page with room, as written: a page
        is added whenever the search used up the list, even when the first
        page, tried last, has room. */
    method FindPage(even: nat, osPage: nat, data: nat) returns (needsGc: bool)
      requires osPage > 0
      requires current.top + even > current.limit
      modifies this`size, this`current, this`pages
      ensures Valid()
      ensures var fits := old(Fits(pages, even));
        match Pick(fits, 1)
        case Some(j) => current == old(pages)[j] && pages == old(pages) && !needsGc &&
                        size == old(size)
        case None => fresh(current) && pages == old(pages) + [current] &&
                     current.top == data && current.limit == data + AlignUp(even, osPage) &&
                     size == old(size) + AlignUp(even, osPage) &&
                     (needsGc <==> old(size) > sizeLimit)
    {
      ghost var fits := Fits(pages, even);
      PickMeaning(fits, 1);
      var head := Search(even);
      needsGc := false;
      if head < 0 {
        if size > sizeLimit {
          needsGc := true;
        }
        AddPage(even, osPage, data);
      } else {
        assert fits[head + 1];
      }
    }

    /** The search as evidently intended: the same walk from the back, but
        a page is added, and a collection possibly requested, only when no
        page has room. */
    method FindPageCorrected(even: nat, osPage: nat, data: nat) returns (needsGc: bool)
      requires osPage > 0
      requires current.top + even > current.limit
      modifies this`size, this`current, this`pages
      ensures Valid()
      ensures var fits := old(Fits(pages, even));
        match Pick(fits, 0)
        case Some(j) => current == old(pages)[j] && pages == old(pages) && !needsGc &&
                        size == old(size)
        case None => fresh(current) && pages == old(pages) + [current] &&
                     current.top == data && current.limit == data + AlignUp(even, osPage) &&
                     size == old(size) + AlignUp(even, osPage) &&
                     (needsGc <==> old(size) > sizeLimit)
    {
      ghost var fits := Fits(pages, even);
      PickMeaning(fits, 0);
      var head := Search(even);
      needsGc := false;
      if current.top + even > current.limit {
        if size > sizeLimit {
          needsGc := true;
        }
        AddPage(even, osPage, data);
      } else {
        assert fits[head + 1];
      }
    }

    /** `allocate(bytes, needs_gc)`, as written. The request is rounded up
        to an even size. If the current page lacks room, `FindPage` picks
        another page or adds one, and reports whether a collection is due.
        The result is the top of the chosen page, which then moves past the
        request; no other page changes. */
    method Allocate(bytes: nat, osPage: nat, data: nat) returns (addr: nat, needsGc: bool)
      requires Valid() && osPage > 0
      modifies this`size, this`current, this`pages, set p | p in pages :: p`top
      ensures Valid()
      ensures var even := EvenBytes(bytes);
        if old(current.top + even <= current.limit) then
          current == old(current) && pages == old(pages) && !needsGc && addr == old(current.top)
        else
          match Pick(old(Fits(pages, even)), 1)
          case Some(j) => current == old(pages)[j] && pages == old(pages) && !needsGc &&
                          addr == old(pages[j].top)
          case None => fresh(current) && pages == old(pages) + [current] && addr == data &&
                       (needsGc <==> old(size) > old(sizeLimit))
      ensures current.top == addr + EvenBytes(bytes) && current.top <= current.limit
      ensures forall p :: p in old(pages) && p != current ==> p.top == old(p.top)
    {
      var even := EvenBytes(bytes);
      var placeInCurrent := current.top + even <= current.limit;
      needsGc := false;
      if !placeInCurrent {
        needsGc := FindPage(even, osPage, data);
      }
      addr := current.top;
      current.top := current.top + even;
    }

    /** `allocate` with the corrected search: a collection is requested
        only when no page had room for the request. */
    method AllocateCorrected(bytes: nat, osPage: nat, data: nat) returns (addr: nat, needsGc: bool)
      requires Valid() && osPage > 0
      modifies this`size, this`current, this`pages, set p | p in pages :: p`top
      ensures Valid()
      ensures var even := EvenBytes(bytes);
        if old(current.top + even <= current.limit) then
          current == old(current) && pages == old(pages) && !needsGc && addr == old(current.top)
        else
          match Pick(old(Fits(pages, even)), 0)
          case Some(j) => current == old(pages)[j] && pages == old(pages) && !needsGc &&
                          addr == old(pages[j].top)
          case None => fresh(current) && pages == old(pages) + [current] && addr == data &&
                       (needsGc <==> old(size) > old(sizeLimit))
      ensures needsGc ==> forall p :: p in old(pages) ==> old(p.top + EvenBytes(bytes) > p.limit)
      ensures current.top == addr + EvenBytes(bytes) && current.top <= current.limit
      ensures forall p :: p in old(pages) && p != current ==> p.top == old(p.top)
    {
      var even := EvenBytes(bytes);
      ghost var fits := Fits(pages, even);
      PickMeaning(fits, 0);
      var placeInCurrent := current.top + even <= current.limit;
      needsGc := false;
      if !placeInCurrent {
        needsGc := FindPageCorrected(even, osPage, data);
      }
      addr := current.top;
      current.top := current.top + even;
    }

    /** `clear`: the size is 0 and every page is dropped. */
    method Clear()
      modifies this`size, this`pages
      ensures size == 0 && pages == []
    {
      size := 0;
      pages := [];
    }

    /** `swap(space)`, as written: after `clear` the loop tests whether
        this space's own list is empty, which it then always is, so no page
        is moved and taking the last page fails. The result is none for
        that failure. */
    method Swap(other: Space) returns (r: Option<()>)
      requires other != this
      modifies this`size, this`pages
      ensures r.None? && pages == [] && size == 0 && other.pages == old(other.pages)
    {
      Clear();
      // The loop moving pages runs while this space's own list is not
      // empty; `clear` has just emptied it, so it moves nothing.
      var last := Last(pages);
      r := if last.Some? then Some(()) else Option.None;
    }

    /** `swap` as evidently intended: the pages of `other` are moved here
        one by one from its back, the size counts them, and the last page
        moved becomes current; the failure remains only when `other` had
        no page. */
    method SwapCorrected(other: Space) returns (r: Option<()>)
      requires other != this
      modifies this`size, this`pages, this`current, other`pages
      ensures pages == Reversed(old(other.pages)) && other.pages == []
      ensures size == TotalSize(old(other.pages))
      ensures r.Some? <==> old(other.pages) != []
      ensures r.Some? ==> Valid() && current == old(other.pages)[0]
    {
      Clear();
      ghost var moved := other.pages;
      while other.pages != []
        invariant other.pages == moved[..|other.pages|]
        invariant pages == Reversed(moved[|other.pages|..])
        invariant size == TotalSize(pages)
        invariant this != other
        decreases |other.pages|
      {
        var n := |other.pages|;
        var p := other.pages[n - 1];
        other.pages := other.pages[..n - 1];
        MoveOne(moved, n);
        TotalSnoc(pages, p);
        pages := pages + [p];
        size := size + p.size;
      }
      assert moved[0..] == moved;
      ReversedTotal(moved);
      var last := Last(pages);
      if last.None? {
        return Option.None;
      }
      current := last.value;
      r := Some(());
    }
  }

  /** The counterexample: a space whose first page has room and whose
      current (last) page is full. The search as written adds a page
      anyway; the intended search takes the first page. */
  lemma FirstPageSkipped()
    ensures Pick([true, false], 1).None?
    ensures Pick([true, false], 0) == Some(0)
  {
  }

  // ---------------------------------------------------------------------------
  // The permanent heap

  class PermanentHeap {
    const space: Space
    var cells: seq<CellPointer>

    predicate Valid()
      reads this, space
    {
      space.Valid()
    }

    /** `PermanentHeap::new(perm_size)`: a space of one page. */
    constructor (permSize: nat, data: nat)
      ensures Valid() && fresh(space) && space.size == 0 && cells == []
    {
      space := new Space(permSize, data);
      cells := [];
    }

    /** `allocate(cell)`: room for one cell (`cellSize` bytes) is taken from
        the space, the pointer to the cell is tagged permanent and recorded
        in `cells`. */
    method Allocate(cell: Cell, cellSize: nat, osPage: nat, data: nat) returns (p: CellPointer)
      requires Valid() && osPage > 0
      modifies this`cells, space`size, space`current, space`pages
      modifies set q | q in space.pages :: q`top
      ensures Valid() && p == CellPointer(cell, true) && p.permanent
      ensures cells == old(cells) + [p]
    {
      var addr, needsGc := space.Allocate(cellSize, osPage, data);
      p := SetPermanent(CellPointer(cell, false));
      cells := cells + [p];
    }

    /** `allocate_empty`: a fresh cell holding no value, without
        prototype, allocated as above. */
    method AllocateEmpty(cellSize: nat, osPage: nat, data: nat) returns (p: CellPointer)
      requires Valid() && osPage > 0
      modifies this`cells, space`size, space`current, space`pages
      modifies set q | q in space.pages :: q`top
      ensures Valid() && p.permanent && p.cell != null && fresh(p.cell)
      ensures p.cell.value == CellValue.None && p.cell.prototype == Option.None
      ensures cells == old(cells) + [p]
    {
      var cell := new Cell(CellValue.None, Option.None);
      p := Allocate(cell, cellSize, osPage, data);
    }
  }

  // ---------------------------------------------------------------------------
  // GC variants

  datatype GCVariant =
    | GenerationalSemispace
    | MarkCompact
    | MarkAndSweep
    | IncrementalMarkCompact
    | IncrementalMarkSweep
    | GenIncMarkSweep

  /** ASCII lower-casing of one character; other characters are kept. */
  function LowerChar(c: char): (r: char)
    ensures 'A' <= c <= 'Z' ==> 'a' <= r <= 'z' && r as int - c as int == 32
    ensures !('A' <= c <= 'Z') ==> r == c
  {
    if 'A' <= c <= 'Z' then (c as int + 32) as char else c
  }

  /** `to_lowercase`, character by character. */
  function ToLower(s: string): (r: string)
    ensures |r| == |s| && forall i :: 0 <= i < |s| ==> r[i] == LowerChar(s[i])
  {
    seq(|s|, i requires 0 <= i < |s| => LowerChar(s[i]))
  }

  /** Lower-casing twice is lower-casing once. */
  lemma LowerIdempotent(s: string)
    ensures ToLower(ToLower(s)) == ToLower(s)
  {
  }

  /** `t` is `s` lower-cased when it is so character by character. */
  lemma LowerIs(s: string, t: string)
    requires |s| == |t| && forall i :: 0 <= i < |s| ==> LowerChar(s[i]) == t[i]
    ensures ToLower(s) == t
  {
  }

  const UNKNOWN_GC_START: string := "Unknown GC Type '"

  /** The variant an already lower-cased name denotes, if any. */
  function Parse(l: string): (r: Option<GCVariant>)
    ensures r.Some? ==> r.value != IncrementalMarkCompact
  {
    if l == "semispace" then Some(GenerationalSemispace)
    else if l == "mark-compact" || l == "mark compact" then Some(MarkCompact)
    else if l == "mark-sweep" || l == "mark and sweep" || l == "mark&sweep" then Some(MarkAndSweep)
    else if l == "incremental mark-sweep" || l == "incremental-mark-sweep" then Some(IncrementalMarkSweep)
    else if l == "generational mark-sweep" then Some(GenIncMarkSweep)
    else Option.None
  }

  /** `GCVariant::from_str`: the lower-cased name is matched against the
      accepted spellings; anything else is an error naming it. */
  function FromStr(s: string): (r: Result<GCVariant>)
    ensures r.Success? ==> r.value != IncrementalMarkCompact
    ensures r.Failure? ==> r.error == UNKNOWN_GC_START + ToLower(s) + "'"
  {
    match Parse(ToLower(s))
    case Some(v) => Success(v)
    case None => Failure(UNKNOWN_GC_START + ToLower(s) + "'")
  }

  /** Parsing ignores case: a name and its lower-cased form parse alike. */
  lemma FromStrIgnoresCase(s: string)
    ensures FromStr(ToLower(s)) == FromStr(s)
  {
    LowerIdempotent(s);
  }

  /** A name for each variant: the command-line name where the variant
      declares one, otherwise one of the spellings `from_str` accepts. */
  function Name(v: GCVariant): string
  {
    match v
    case GenerationalSemispace => "semispace"
    case MarkCompact => "mark-compact"
    case MarkAndSweep => "mark-sweep"
    case IncrementalMarkCompact => "inc-mark-sweep"
    case IncrementalMarkSweep => "incremental-mark-sweep"
    case GenIncMarkSweep => "generational mark-sweep"
  }

  /** The names are written in lower case. */
  lemma NameIsLower(v: GCVariant)
    ensures ToLower(Name(v)) == Name(v)
  {
    match v
    case GenerationalSemispace => LowerIs("semispace", "semispace");
    case MarkCompact => LowerIs("mark-compact", "mark-compact");
    case MarkAndSweep => LowerIs("mark-sweep", "mark-sweep");
    case IncrementalMarkCompact => LowerIs("inc-mark-sweep", "inc-mark-sweep");
    case IncrementalMarkSweep => LowerIs("incremental-mark-sweep", "incremental-mark-sweep");
    case GenIncMarkSweep => LowerIs("generational mark-sweep", "generational mark-sweep");
  }

  /** Every variant but `IncrementalMarkCompact` parses back from its
      name; that one's name is refused. */
  lemma NameRoundTrip(v: GCVariant)
    ensures v != IncrementalMarkCompact ==> FromStr(Name(v)) == Success(v)
    ensures v == IncrementalMarkCompact ==> FromStr(Name(v)).Failure?
  {
    NameIsLower(v);
  }

  /** The other spellings parse too, in any case. */
  lemma OtherSpellings()
    ensures FromStr("Mark Compact") == Success(MarkCompact)
    ensures FromStr("MARK AND SWEEP") == Success(MarkAndSweep)
  {
    LowerIs("Mark Compact", "mark compact");
    LowerIs("MARK AND SWEEP", "mark and sweep");
  }
}
