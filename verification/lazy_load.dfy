/** Videos/js/lazy-load.js: the infinite-scroll grid of the home and channel
    pages. A cursor walks `ALL_VIDEOS_DATA` in batches of `VIDEOS_PER_PAGE`,
    appending each batch to the container; an intersection observer on the
    sentinel asks for the next batch until the list is exhausted. */
module LazyLoad {
  import opened Common

  const MoreMessage := "Cargando más videos..."
  const EndMessage := "Fin de la lista de videos."

  /** The state the script keeps between calls: `currentIndex`, the items
      appended to the container so far, the loading-message element's text
      (`None` when the page has no such element) and whether the observer
      watches the sentinel. */
  datatype Grid<T> = Grid(index: nat, shown: seq<T>, message: Option<string>, observing: bool)

  /** The grid holds exactly the first `index` items, with no gaps or
      repeats. */
  predicate Consistent<T(==)>(data: seq<T>, g: Grid<T>) {
    g.index <= |data| && g.shown == data[..g.index]
  }

  /** `loadMoreVideos()` with `B = VIDEOS_PER_PAGE`. Writing the message
      throws a `TypeError` when the page has no loading-message element;
      both paths write it before anything else. */
  function LoadMore<T>(data: seq<T>, B: nat, g: Grid<T>): (r: Result<Grid<T>>)
  {
    if g.message.None? then Thrown("TypeError")
    else if g.index >= |data| then
      Ok(g.(message := Some(EndMessage), observing := false))
    else
      var end := Min(g.index + B, |data|);
      var more := end < |data|;
      Ok(Grid(end, g.shown + data[g.index..end],
              Some(if more then MoreMessage else EndMessage),
              g.observing && more))
  }

  /** What one call does: it fails exactly when the message element is
      missing; otherwise it keeps the grid consistent, moves the cursor
      forward by at most one batch and never past the end, shows the end
      message exactly when the cursor has reached the end, and stops the
      observer then. */
  lemma LoadMoreSpec<T>(data: seq<T>, B: nat, g: Grid<T>)
    requires Consistent(data, g)
    ensures LoadMore(data, B, g).Thrown? <==> g.message.None?
    ensures LoadMore(data, B, g).Ok? ==>
      var r := LoadMore(data, B, g).value;
      && Consistent(data, r)
      && g.index <= r.index <= g.index + B
      && (r.message == Some(EndMessage) <==> r.index == |data|)
      && (r.message == Some(MoreMessage) <==> r.index < |data|)
      && (r.observing <==> g.observing && r.index < |data|)
  {
    if g.message.Some? && g.index < |data| {
      var end := Min(g.index + B, |data|);
      assert data[..end] == data[..g.index] + data[g.index..end];
    }
  }

  /** A call once the list is exhausted renders nothing and leaves the
      cursor where it is; in particular empty data renders nothing. */
  lemma LoadMoreExhausted<T>(data: seq<T>, B: nat, g: Grid<T>)
    requires g.message.Some? && g.index >= |data|
    ensures LoadMore(data, B, g).Ok?
    ensures LoadMore(data, B, g).value.shown == g.shown
    ensures LoadMore(data, B, g).value.index == g.index
    ensures !LoadMore(data, B, g).value.observing
  {
  }

  /** `k` successive calls, stopping at the first one that throws. */
  function Calls<T>(data: seq<T>, B: nat, g: Grid<T>, k: nat): Result<Grid<T>>
    decreases k
  {
    if k == 0 then Ok(g)
    else match Calls(data, B, g, k - 1)
      case Thrown(e) => Thrown(e)
      case Ok(h) => LoadMore(data, B, h)
  }

  /** From the fresh grid, with a positive batch size, `k` calls show
      exactly the first `min(kB, N)` items, and the end message appears
      from call `k` on exactly when `kB >= N`. */
  lemma {:induction false} CallsPrefix<T>(data: seq<T>, B: nat, msg: string, obs: bool, k: nat)
    requires B > 0
    ensures var r := Calls(data, B, Grid(0, [], Some(msg), obs), k);
      && r.Ok?
      && r.value.index == Min(k * B, |data|)
      && r.value.shown == data[..Min(k * B, |data|)]
      && (k > 0 ==> (r.value.message == Some(EndMessage) <==> k * B >= |data|))
    decreases k
  {
    var g0 := Grid(0, [], Some(msg), obs);
    if k > 0 {
      CallsPrefix(data, B, msg, obs, k - 1);
      var h := Calls(data, B, g0, k - 1).value;
      assert (k - 1) * B + B == k * B;
      LoadMoreSpec(data, B, h);
      if h.index < |data| {
        assert h.index == (k - 1) * B;
      }
    }
  }

  // ---------------------------------------------------------------------
  // The page script
  // ---------------------------------------------------------------------

  /** The page after `DOMContentLoaded`: the script returned before drawing
      anything, threw, or runs the grid. */
  datatype Page<T> = Inert | Failed | Running(grid: Grid<T>)

  /** Lines 13-32 and 165-169: nothing happens without the data or without
      the container or sentinel; otherwise one batch is drawn and only then
      is the sentinel observed. `msg` is the message element's initial text,
      `None` when it is missing. */
  function Start<T>(data: Option<seq<T>>, B: nat, hasContainer: bool, hasSentinel: bool,
                    msg: Option<string>): Page<T>
  {
    if data.None? || !hasContainer || !hasSentinel then Inert
    else match LoadMore(data.value, B, Grid(0, [], msg, false))
      case Thrown(_) => Failed
      case Ok(g) => Running(g.(observing := true))
  }

  /** The observer reporting the sentinel as intersecting. */
  function Intersect<T>(data: seq<T>, B: nat, p: Page<T>): Page<T> {
    if p.Running? && p.grid.observing then
      match LoadMore(data, B, p.grid)
      case Thrown(_) => Failed
      case Ok(g) => Running(g)
    else p
  }

  function Scroll<T>(data: seq<T>, B: nat, p: Page<T>, k: nat): Page<T>
    decreases k
  {
    if k == 0 then p else Intersect(data, B, Scroll(data, B, p, k - 1))
  }

  /** Without the data, the container or the sentinel the page is left
      alone, and a missing message element aborts the start before the
      observer is set up. */
  lemma StartGuards<T>(data: Option<seq<T>>, B: nat, hasContainer: bool, hasSentinel: bool,
                       msg: Option<string>)
    ensures data.None? || !hasContainer || !hasSentinel
      ==> Start(data, B, hasContainer, hasSentinel, msg) == Inert
    ensures data.Some? && hasContainer && hasSentinel
      ==> (Start(data, B, hasContainer, hasSentinel, msg) == Failed <==> msg.None?)
  {
  }

  /** Exactly one batch is drawn before the observer starts, and it starts
      even when that batch was the last one. */
  lemma StartDrawsOneBatch<T>(data: seq<T>, B: nat, msg: string)
    ensures var p := Start(Some(data), B, true, true, Some(msg));
      && p.Running?
      && p.grid.observing
      && p.grid.shown == data[..Min(B, |data|)]
      && (p.grid.message == Some(EndMessage) <==> B >= |data|)
  {
    LoadMoreSpec(data, B, Grid(0, [], Some(msg), false));
  }

  /** When the first batch already held everything, the next intersection
      only stops the observer, and later ones change nothing. */
  lemma ExhaustedFirstBatch<T>(data: seq<T>, B: nat, msg: string)
    requires B >= |data|
    ensures var p := Start(Some(data), B, true, true, Some(msg));
      var q := Intersect(data, B, p);
      && q.Running? && q.grid.shown == p.grid.shown && !q.grid.observing
      && Intersect(data, B, q) == q
  {
    StartDrawsOneBatch(data, B, msg);
  }

  /** After the start and `k` intersections, with a positive batch size,
      the grid shows exactly the first `min((k+1)B, N)` items, and the
      observer is still watching exactly when `k == 0` or more remain. */
  lemma {:induction false} ScrollPrefix<T>(data: seq<T>, B: nat, msg: string, k: nat)
    requires B > 0
    ensures var p := Scroll(data, B, Start(Some(data), B, true, true, Some(msg)), k);
      && p.Running?
      && Consistent(data, p.grid)
      && p.grid.index == Min((k + 1) * B, |data|)
      && p.grid.message.Some?
      && (p.grid.observing <==> k == 0 || (k + 1) * B < |data|)
    decreases k
  {
    var p0 := Start(Some(data), B, true, true, Some(msg));
    if k == 0 {
      StartDrawsOneBatch(data, B, msg);
    } else {
      ScrollPrefix(data, B, msg, k - 1);
      var p := Scroll(data, B, p0, k - 1);
      assert k * B + B == (k + 1) * B;
      LoadMoreSpec(data, B, p.grid);
      if p.grid.index < |data| {
        assert p.grid.index == k * B;
      }
    }
  }
}
