/**
 * Checkerboard removal for generated sprite sheets (`TransparencyHelper`): a breadth-first, 4-way
 * flood fill seeded from every border pixel clears the opaque, low-saturation, very bright or very
 * dark pixels it can reach through such pixels, on a copy of the bitmap.
 *
 * A bitmap is an `array2<Color>` indexed `[x, y]`, `Length0` its width and `Length1` its height;
 * a colour is a Kotlin `Int` in ARGB order and `Color.TRANSPARENT` is 0.
 */
module Transparency {
  import KotlinInt

  /** A 32-bit signed ARGB colour. */
  type Color = c: int | -0x8000_0000 <= c < 0x8000_0000

  /** `Color.TRANSPARENT`. */
  const Transparent: Color := 0

  // ───────────── channels ─────────────

  /** `(c shr 24) and 0xFF`: an arithmetic shift is a division rounding down, the mask a
      non-negative remainder. */
  function Alpha(c: int): (a: int)
    ensures 0 <= a < 0x100
  {
    (c / 0x100_0000) % 0x100
  }

  /** `(c shr 16) and 0xFF`. */
  function Red(c: int): (r: int)
    ensures 0 <= r < 0x100
  {
    (c / 0x1_0000) % 0x100
  }

  /** `(c shr 8) and 0xFF`. */
  function Green(c: int): (g: int)
    ensures 0 <= g < 0x100
  {
    (c / 0x100) % 0x100
  }

  /** `c and 0xFF`. */
  function Blue(c: int): (b: int)
    ensures 0 <= b < 0x100
  {
    c % 0x100
  }

  // ───────────── the background test ─────────────

  function Max3(r: int, g: int, b: int): int
  {
    if r >= g && r >= b then r else if g >= b then g else b
  }

  function Min3(r: int, g: int, b: int): int
  {
    if r <= g && r <= b then r else if g <= b then g else b
  }

  /** `isBackground`: a grey (saturation `max - min` under 30) whose integer brightness
      `(r + g + b) / 3` is above 80 or below 30. */
  function IsBackground(r: int, g: int, b: int): (bg: bool)
    ensures bg <==>
      (-30 < r - g < 30 && -30 < g - b < 30 && -30 < r - b < 30) &&
      !(30 <= KotlinInt.Div(r + g + b, 3) <= 80)
  {
    var saturation := Max3(r, g, b) - Min3(r, g, b);
    if saturation < 30 then
      var brightness := KotlinInt.Div(r + g + b, 3);
      brightness > 80 || brightness < 30
    else false
  }

  /** Swapping channels does not change whether a colour is background. */
  lemma BackgroundIgnoresChannelOrder(r: int, g: int, b: int)
    ensures IsBackground(r, g, b) == IsBackground(g, r, b) == IsBackground(b, g, r) == IsBackground(r, b, g)
  {
    assert r + g + b == g + r + b == b + g + r == r + b + g;
  }

  /** A pixel the fill clears when it reaches it: visible and background. */
  predicate Clearable(c: int)
  {
    Alpha(c) > 0 && IsBackground(Red(c), Green(c), Blue(c))
  }

  // ───────────── grids and trails ─────────────

  /** A pixel position `(x, y)`. */
  type Point = (int, int)

  predicate InGrid(p: Point, w: int, h: int)
  {
    0 <= p.0 < w && 0 <= p.1 < h
  }

  predicate OnBorder(p: Point, w: int, h: int)
  {
    InGrid(p, w, h) && (p.0 == 0 || p.0 == w - 1 || p.1 == 0 || p.1 == h - 1)
  }

  /** 4-neighbours. */
  predicate Adjacent(p: Point, q: Point)
  {
    (p.0 == q.0 && (p.1 == q.1 + 1 || q.1 == p.1 + 1)) ||
    (p.1 == q.1 && (p.0 == q.0 + 1 || q.0 == p.0 + 1))
  }

  /** A 4-connected walk inside the bitmap that starts on its border and whose pixels, except
      possibly the last, are clearable: the fill can arrive at its last pixel. */
  ghost predicate Trail(img: array2<Color>, path: seq<Point>)
    reads img
  {
    |path| > 0 && OnBorder(path[0], img.Length0, img.Length1) &&
    (forall i :: 0 <= i < |path| ==> InGrid(path[i], img.Length0, img.Length1)) &&
    (forall i :: 0 <= i < |path| - 1 ==>
      Adjacent(path[i], path[i + 1]) && Clearable(img[path[i].0, path[i].1]))
  }

  /** Some trail ends at `q`. */
  ghost predicate Approached(img: array2<Color>, q: Point)
    reads img
  {
    exists path :: Trail(img, path) && path[|path| - 1] == q
  }

  /** `p` is clearable and joined to the border by a 4-connected path of clearable pixels. */
  ghost predicate Reached(img: array2<Color>, p: Point)
    reads img
  {
    InGrid(p, img.Length0, img.Length1) && Clearable(img[p.0, p.1]) && Approached(img, p)
  }

  /** Every clearable border pixel is reached. */
  lemma BorderReached(img: array2<Color>, p: Point)
    requires OnBorder(p, img.Length0, img.Length1) && Clearable(img[p.0, p.1])
    ensures Reached(img, p)
  {
    assert Trail(img, [p]);
  }

  /** The fill arrives at every in-grid neighbour of a clearable pixel it arrives at. */
  lemma ApproachSpreads(img: array2<Color>, p: Point, q: Point)
    requires InGrid(p, img.Length0, img.Length1) && Clearable(img[p.0, p.1]) && Approached(img, p)
    requires Adjacent(p, q) && InGrid(q, img.Length0, img.Length1)
    ensures Approached(img, q)
  {
    var path :| Trail(img, path) && path[|path| - 1] == p;
    assert Trail(img, path + [q]);
  }

  /** Reaching spreads to every clearable 4-neighbour. */
  lemma ReachedSpreads(img: array2<Color>, p: Point, q: Point)
    requires Reached(img, p) && Adjacent(p, q) && InGrid(q, img.Length0, img.Length1)
    requires Clearable(img[q.0, q.1])
    ensures Reached(img, q)
  {
    ApproachSpreads(img, p, q);
  }

  /** A reached pixel is joined to the border by a path of reached pixels. */
  lemma ReachedByReached(img: array2<Color>, p: Point) returns (path: seq<Point>)
    requires Reached(img, p)
    ensures Trail(img, path) && path[|path| - 1] == p
    ensures forall i :: 0 <= i < |path| ==> Reached(img, path[i])
  {
    path :| Trail(img, path) && path[|path| - 1] == p;
    forall i | 0 <= i < |path|
      ensures Reached(img, path[i])
    {
      assert Trail(img, path[..i + 1]);
    }
  }

  /** After the fill, nothing is left to reach: removing the checkerboard from its own result
      changes nothing. */
  lemma RefillReachesNothing(bitmap: array2<Color>, result: array2<Color>)
    requires result.Length0 == bitmap.Length0 && result.Length1 == bitmap.Length1
    requires forall x, y :: 0 <= x < bitmap.Length0 && 0 <= y < bitmap.Length1 ==>
      result[x, y] == if Reached(bitmap, (x, y)) then Transparent else bitmap[x, y]
    ensures forall p :: !Reached(result, p)
  {
    forall p
      ensures !Reached(result, p)
    {
      if Reached(result, p) {
        var path :| Trail(result, path) && path[|path| - 1] == p;
        var q: Point := path[0];
        assert Clearable(result[q.0, q.1]);
        BorderUncleared(bitmap, result, q);
      }
    }
  }

  /** After the fill no border pixel is clearable: a clearable one was reached and cleared. */
  lemma BorderUncleared(bitmap: array2<Color>, result: array2<Color>, q: Point)
    requires result.Length0 == bitmap.Length0 && result.Length1 == bitmap.Length1
    requires forall x, y :: 0 <= x < bitmap.Length0 && 0 <= y < bitmap.Length1 ==>
      result[x, y] == if Reached(bitmap, (x, y)) then Transparent else bitmap[x, y]
    requires OnBorder(q, bitmap.Length0, bitmap.Length1)
    ensures !Clearable(result[q.0, q.1])
  {
    var (x, y) := q;
    assert result[x, y] == if Reached(bitmap, (x, y)) then Transparent else bitmap[x, y];
    if !Reached(bitmap, q) && Clearable(bitmap[x, y]) {
      BorderReached(bitmap, q);
    }
  }

  /** A set of positions that holds the whole border and every in-grid neighbour of its clearable
      members holds every reached pixel. */
  lemma {:induction false} ClosedSetHoldsTrail(img: array2<Color>, path: seq<Point>, seen: set<Point>)
    requires Trail(img, path)
    requires forall p :: OnBorder(p, img.Length0, img.Length1) ==> p in seen
    requires forall p, q ::
      (p in seen && InGrid(p, img.Length0, img.Length1) && Clearable(img[p.0, p.1]) &&
       InGrid(q, img.Length0, img.Length1) && Adjacent(p, q)) ==> q in seen
    ensures path[|path| - 1] in seen
    decreases |path|
  {
    if |path| > 1 {
      var prefix := path[..|path| - 1];
      assert Trail(img, prefix);
      ClosedSetHoldsTrail(img, prefix, seen);
      assert path[|path| - 2] == prefix[|prefix| - 1];
    }
  }

  // ───────────── the fill ─────────────

  /** The position of pixel `(x, y)` in the row-major `visited` array of a `w` x `h` bitmap. */
  function Idx(x: int, y: int, w: int, h: int): (i: int)
    requires 0 <= x < w && 0 <= y < h
    ensures 0 <= i < w * h
  {
    MulMono(y, h - 1, w);
    y * w + x
  }

  lemma MulMono(a: int, b: int, w: int)
    requires a <= b && 0 <= w
    ensures a * w <= b * w
  {
    assert b * w - a * w == (b - a) * w;
  }

  /** Distinct pixels have distinct positions in `visited`. */
  lemma IdxInjective(x: int, y: int, x': int, y': int, w: int, h: int)
    requires 0 <= x < w && 0 <= x' < w && 0 <= y < h && 0 <= y' < h
    requires Idx(x, y, w, h) == Idx(x', y', w, h)
    ensures x == x' && y == y'
  {
    if y < y' {
      MulMono(y + 1, y', w);
    } else if y' < y {
      MulMono(y' + 1, y, w);
    }
  }

  /** The in-grid 4-neighbours of `(x, y)`, in the order the fill queues them: left, right, up,
      down. */
  function Neighbours(x: int, y: int, w: int, h: int): (ns: seq<Point>)
    requires 0 <= x < w && 0 <= y < h
    ensures forall n :: n in ns <==> InGrid(n, w, h) && Adjacent((x, y), n)
  {
    (if x > 0 then [(x - 1, y)] else []) +
    (if x < w - 1 then [(x + 1, y)] else []) +
    (if y > 0 then [(x, y - 1)] else []) +
    (if y < h - 1 then [(x, y + 1)] else [])
  }

  /** `seen` is the set of pixels whose `visited` flag is set. */
  ghost predicate Tracks(visited: array<bool>, w: int, h: int, seen: set<Point>)
    reads visited
    requires visited.Length == w * h
  {
    (forall p :: p in seen ==> InGrid(p, w, h)) &&
    (forall x, y :: 0 <= x < w && 0 <= y < h ==> (visited[Idx(x, y, w, h)] <==> (x, y) in seen))
  }

  /** The fill can arrive at every queued pixel and every seen clearable pixel. */
  ghost predicate Arrivals(bitmap: array2<Color>, queue: seq<Point>, seen: set<Point>)
    reads bitmap
  {
    var w, h := bitmap.Length0, bitmap.Length1;
    (forall i :: 0 <= i < |queue| ==> InGrid(queue[i], w, h) && Approached(bitmap, queue[i])) &&
    (forall p :: p in seen && InGrid(p, w, h) && Clearable(bitmap[p.0, p.1]) ==> Approached(bitmap, p))
  }

  /** Every border pixel has been seen or is queued, and so has every in-grid neighbour of a seen
      clearable pixel. */
  ghost predicate Frontier(bitmap: array2<Color>, queue: seq<Point>, seen: set<Point>)
    reads bitmap
  {
    var w, h := bitmap.Length0, bitmap.Length1;
    (forall p :: OnBorder(p, w, h) ==> p in seen || p in queue) &&
    (forall p, q ::
      (p in seen && InGrid(p, w, h) && Clearable(bitmap[p.0, p.1]) && InGrid(q, w, h) && Adjacent(p, q))
        ==> q in seen || q in queue)
  }

  /** Exactly the seen clearable pixels are transparent in the result; the others keep the
      bitmap's colour. */
  ghost predicate Painted(bitmap: array2<Color>, result: array2<Color>, seen: set<Point>)
    reads bitmap, result
    requires result.Length0 == bitmap.Length0 && result.Length1 == bitmap.Length1
  {
    forall x, y :: 0 <= x < bitmap.Length0 && 0 <= y < bitmap.Length1 ==>
      result[x, y] == if (x, y) in seen && Clearable(bitmap[x, y]) then Transparent else bitmap[x, y]
  }

  /** What holds of the fill between two pixels taken off the queue. */
  ghost predicate FillInvariant(bitmap: array2<Color>, result: array2<Color>, visited: array<bool>,
                                queue: seq<Point>, seen: set<Point>)
    reads bitmap, result, visited
  {
    result != bitmap && result.Length0 == bitmap.Length0 && result.Length1 == bitmap.Length1 &&
    visited.Length == bitmap.Length0 * bitmap.Length1 &&
    Tracks(visited, bitmap.Length0, bitmap.Length1, seen) &&
    Arrivals(bitmap, queue, seen) &&
    Frontier(bitmap, queue, seen) &&
    Painted(bitmap, result, seen)
  }

  /** Taking `q` off the queue, seeing it and, when it is clearable, queueing its neighbours keeps
      the arrivals. */
  lemma ArrivalsStep(bitmap: array2<Color>, queue: seq<Point>, seen: set<Point>, pushed: seq<Point>)
    requires Arrivals(bitmap, queue, seen) && queue != []
    requires forall n :: n in pushed ==> InGrid(n, bitmap.Length0, bitmap.Length1) && Adjacent(queue[0], n)
    requires pushed != [] ==> Clearable(bitmap[queue[0].0, queue[0].1])
    ensures Arrivals(bitmap, queue[1..] + pushed, seen + {queue[0]})
  {
    var q := queue[0];
    forall n | n in pushed
      ensures Approached(bitmap, n)
    {
      ApproachSpreads(bitmap, q, n);
    }
  }

  /** Taking `q` off the queue keeps the frontier when `q` is seen now and, if clearable, all its
      in-grid neighbours are queued. */
  lemma FrontierStep(bitmap: array2<Color>, queue: seq<Point>, seen: set<Point>, pushed: seq<Point>)
    requires Frontier(bitmap, queue, seen) && queue != []
    requires InGrid(queue[0], bitmap.Length0, bitmap.Length1) && Clearable(bitmap[queue[0].0, queue[0].1]) ==>
      forall n :: InGrid(n, bitmap.Length0, bitmap.Length1) && Adjacent(queue[0], n) ==> n in pushed
    ensures Frontier(bitmap, queue[1..] + pushed, seen + {queue[0]})
  {
    var w, h := bitmap.Length0, bitmap.Length1;
    var queue', seen' := queue[1..] + pushed, seen + {queue[0]};
    forall p | OnBorder(p, w, h)
      ensures p in seen' || p in queue'
    {
      if p !in seen' {
        InTail(queue, p);
      }
    }
    forall p, q | p in seen' && InGrid(p, w, h) && Clearable(bitmap[p.0, p.1]) && InGrid(q, w, h) && Adjacent(p, q)
      ensures q in seen' || q in queue'
    {
      if p != queue[0] && q !in seen' {
        InTail(queue, q);
      }
    }
  }

  /** Dropping a pixel seen before from the queue keeps the frontier and the arrivals. */
  lemma SkipSeen(bitmap: array2<Color>, queue: seq<Point>, seen: set<Point>)
    requires Frontier(bitmap, queue, seen) && Arrivals(bitmap, queue, seen)
    requires queue != [] && queue[0] in seen
    ensures Frontier(bitmap, queue[1..], seen) && Arrivals(bitmap, queue[1..], seen)
  {
    var w, h := bitmap.Length0, bitmap.Length1;
    forall p | OnBorder(p, w, h)
      ensures p in seen || p in queue[1..]
    {
      if p !in seen {
        InTail(queue, p);
      }
    }
    forall p, q | p in seen && InGrid(p, w, h) && Clearable(bitmap[p.0, p.1]) && InGrid(q, w, h) && Adjacent(p, q)
      ensures q in seen || q in queue[1..]
    {
      if q !in seen {
        InTail(queue, q);
      }
    }
  }

  /** A member of a sequence other than its head is in its tail. */
  lemma InTail<T>(s: seq<T>, p: T)
    requires p in s && p != s[0]
    ensures p in s[1..]
  {
    var i :| 0 <= i < |s| && s[i] == p;
    assert s[1..][i - 1] == p;
  }

  /** A frontier with an empty queue holds every reached pixel. */
  lemma FrontierHoldsReached(bitmap: array2<Color>, seen: set<Point>)
    requires Frontier(bitmap, [], seen)
    ensures forall p :: Reached(bitmap, p) ==> p in seen
  {
    forall p | Reached(bitmap, p)
      ensures p in seen
    {
      var path :| Trail(bitmap, path) && path[|path| - 1] == p;
      ClosedSetHoldsTrail(bitmap, path, seen);
    }
  }

  /** The border pixels, in the order the fill seeds them: the top and bottom rows column by
      column, then the left and right columns row by row. */
  method SeedEdges(width: int, height: int) returns (queue: seq<Point>)
    requires width >= 1 && height >= 1
    ensures forall i :: 0 <= i < |queue| ==> OnBorder(queue[i], width, height)
    ensures forall p :: OnBorder(p, width, height) ==> p in queue
  {
    queue := [];
    var right, bottom := width - 1, height - 1;
    for x := 0 to width
      invariant forall i :: 0 <= i < |queue| ==> OnBorder(queue[i], width, height)
      invariant forall x' :: 0 <= x' < x ==> (x', 0) in queue
      invariant forall x' :: 0 <= x' < x ==> (x', bottom) in queue
    {
      ghost var seeded := queue;
      queue := queue + [(x, 0), (x, bottom)];
      assert forall p :: p in seeded ==> p in queue;
    }
    for y := 0 to height
      invariant forall i :: 0 <= i < |queue| ==> OnBorder(queue[i], width, height)
      invariant forall x' :: 0 <= x' < width ==> (x', 0) in queue
      invariant forall x' :: 0 <= x' < width ==> (x', bottom) in queue
      invariant forall y' :: 0 <= y' < y ==> (0, y') in queue
      invariant forall y' :: 0 <= y' < y ==> (right, y') in queue
    {
      ghost var seeded := queue;
      queue := queue + [(0, y), (right, y)];
      assert forall p :: p in seeded ==> p in queue;
    }
    forall p | OnBorder(p, width, height)
      ensures p in queue
    {
      var (x, y) := p;
      if y == 0 {
        assert (x, 0) in queue;
      } else if y == bottom {
        assert (x, bottom) in queue;
      } else if x == 0 {
        assert (0, y) in queue;
      } else {
        assert (right, y) in queue;
      }
    }
  }

  /**
   * `removeCheckerboard`: a copy of the bitmap in which exactly the pixels reached from the
   * border through clearable pixels are transparent and every other pixel keeps its colour.
   */
  method RemoveCheckerboard(bitmap: array2<Color>) returns (result: array2<Color>)
    requires bitmap.Length0 >= 1 && bitmap.Length1 >= 1
    ensures fresh(result)
    ensures result.Length0 == bitmap.Length0 && result.Length1 == bitmap.Length1
    ensures forall x, y :: 0 <= x < bitmap.Length0 && 0 <= y < bitmap.Length1 ==>
      result[x, y] == if Reached(bitmap, (x, y)) then Transparent else bitmap[x, y]
  {
    var width := bitmap.Length0;
    var height := bitmap.Length1;
    result := new Color[width, height]((x, y) reads bitmap requires 0 <= x < width && 0 <= y < height => bitmap[x, y]);
    var visited := new bool[width * height](_ => false);
    var queue := SeedEdges(width, height);
    FillStarts(bitmap, result, visited, queue);
    Fill(bitmap, result, visited, queue);
  }

  /** The fill loop: visit queued pixels until the queue runs out; then the cleared pixels are
      exactly the reached ones. */
  method Fill(bitmap: array2<Color>, result: array2<Color>, visited: array<bool>, queue0: seq<Point>)
    requires FillInvariant(bitmap, result, visited, queue0, {})
    modifies result, visited
    ensures forall x, y :: 0 <= x < bitmap.Length0 && 0 <= y < bitmap.Length1 ==>
      result[x, y] == if Reached(bitmap, (x, y)) then Transparent else bitmap[x, y]
  {
    var queue := queue0;
    ghost var seen: set<Point> := {};
    while queue != []
      invariant FillInvariant(bitmap, result, visited, queue, seen)
      decreases multiset(visited[..])[false], |queue|
    {
      queue, seen := Visit(bitmap, result, visited, queue, seen);
    }
    FillEnds(bitmap, result, visited, seen);
  }

  /** The copy, the cleared `visited` flags and the seeded border make the fill's invariant hold
      with nothing seen. */
  lemma FillStarts(bitmap: array2<Color>, result: array2<Color>, visited: array<bool>, queue: seq<Point>)
    requires result != bitmap && result.Length0 == bitmap.Length0 && result.Length1 == bitmap.Length1
    requires forall x, y :: 0 <= x < bitmap.Length0 && 0 <= y < bitmap.Length1 ==> result[x, y] == bitmap[x, y]
    requires visited.Length == bitmap.Length0 * bitmap.Length1 && forall i :: 0 <= i < visited.Length ==> !visited[i]
    requires forall i :: 0 <= i < |queue| ==> OnBorder(queue[i], bitmap.Length0, bitmap.Length1)
    requires forall p :: OnBorder(p, bitmap.Length0, bitmap.Length1) ==> p in queue
    ensures FillInvariant(bitmap, result, visited, queue, {})
  {
    forall i | 0 <= i < |queue|
      ensures Approached(bitmap, queue[i])
    {
      assert Trail(bitmap, [queue[i]]);
    }
  }

  /** When the queue runs out, the seen clearable pixels are exactly the reached ones. */
  lemma FillEnds(bitmap: array2<Color>, result: array2<Color>, visited: array<bool>, seen: set<Point>)
    requires FillInvariant(bitmap, result, visited, [], seen)
    ensures forall x, y :: 0 <= x < bitmap.Length0 && 0 <= y < bitmap.Length1 ==>
      result[x, y] == if Reached(bitmap, (x, y)) then Transparent else bitmap[x, y]
  {
    FrontierHoldsReached(bitmap, seen);
  }

  /** One turn of the fill loop: take the next pixel off the queue and, the first time it is
      seen, clear it and queue its neighbours if it is clearable. */
  method Visit(bitmap: array2<Color>, result: array2<Color>, visited: array<bool>,
               queue: seq<Point>, ghost seen: set<Point>)
      returns (queue': seq<Point>, ghost seen': set<Point>)
    requires FillInvariant(bitmap, result, visited, queue, seen) && queue != []
    modifies result, visited
    ensures FillInvariant(bitmap, result, visited, queue', seen')
    ensures multiset(visited[..])[false] < old(multiset(visited[..])[false]) ||
      (multiset(visited[..])[false] == old(multiset(visited[..])[false]) && |queue'| < |queue|)
  {
    var (x, y) := queue[0];
    if visited[Idx(x, y, bitmap.Length0, bitmap.Length1)] {
      SkipSeen(bitmap, queue, seen);
      return queue[1..], seen;
    }
    queue', seen' := VisitFirst(bitmap, result, visited, queue, seen);
  }

  /** The fill's loop body on a pixel it takes off the queue for the first time: mark it, clear it
      when it is clearable and queue its neighbours. */
  method VisitFirst(bitmap: array2<Color>, result: array2<Color>, visited: array<bool>,
                    queue: seq<Point>, ghost seen: set<Point>)
      returns (queue': seq<Point>, ghost seen': set<Point>)
    requires FillInvariant(bitmap, result, visited, queue, seen) && queue != []
    requires !visited[Idx(queue[0].0, queue[0].1, bitmap.Length0, bitmap.Length1)]
    modifies result, visited
    ensures FillInvariant(bitmap, result, visited, queue', seen')
    ensures multiset(visited[..])[false] < old(multiset(visited[..])[false])
  {
    var width := bitmap.Length0;
    var height := bitmap.Length1;
    var (x, y) := queue[0];
    MarkVisited(visited, width, height, seen, x, y);
    seen' := seen + {(x, y)};

    var color := bitmap[x, y];
    var a := Alpha(color);
    var r := Red(color);
    var g := Green(color);
    var b := Blue(color);
    var clear := a > 0 && IsBackground(r, g, b);
    var pushed := if clear then Neighbours(x, y, width, height) else [];
    FrontierStep(bitmap, queue, seen, pushed);
    ArrivalsStep(bitmap, queue, seen, pushed);
    if clear {
      ClearPixel(bitmap, result, seen, x, y);
    } else {
      PaintedSkips(bitmap, result, seen, x, y);
    }
    queue' := queue[1..] + pushed;
  }

  /** `result.setPixel(x, y, Color.TRANSPARENT)` on a clearable pixel the fill sees for the first
      time. */
  method ClearPixel(bitmap: array2<Color>, result: array2<Color>, ghost seen: set<Point>, x: int, y: int)
    requires result != bitmap && result.Length0 == bitmap.Length0 && result.Length1 == bitmap.Length1
    requires 0 <= x < bitmap.Length0 && 0 <= y < bitmap.Length1 && Clearable(bitmap[x, y])
    requires Painted(bitmap, result, seen)
    modifies result
    ensures Painted(bitmap, result, seen + {(x, y)})
  {
    result[x, y] := Transparent;
  }

  /** Seeing a pixel that is not clearable leaves it as it is. */
  lemma PaintedSkips(bitmap: array2<Color>, result: array2<Color>, seen: set<Point>, x: int, y: int)
    requires result.Length0 == bitmap.Length0 && result.Length1 == bitmap.Length1
    requires 0 <= x < bitmap.Length0 && 0 <= y < bitmap.Length1 && !Clearable(bitmap[x, y])
    requires Painted(bitmap, result, seen)
    ensures Painted(bitmap, result, seen + {(x, y)})
  {
  }

  /** `visited[y * width + x] = true`: the flag of `(x, y)` is set and no other flag changes. */
  method MarkVisited(visited: array<bool>, width: int, height: int, ghost seen: set<Point>, x: int, y: int)
    requires visited.Length == width * height && 0 <= x < width && 0 <= y < height
    requires Tracks(visited, width, height, seen) && !visited[Idx(x, y, width, height)]
    modifies visited
    ensures Tracks(visited, width, height, seen + {(x, y)})
    ensures multiset(visited[..])[false] == old(multiset(visited[..])[false]) - 1
  {
    var idx := Idx(x, y, width, height);
    forall x', y' | 0 <= x' < width && 0 <= y' < height && (x', y') != (x, y)
      ensures Idx(x', y', width, height) != idx
    {
      if Idx(x', y', width, height) == idx {
        IdxInjective(x', y', x, y, width, height);
      }
    }
    ghost var before := visited[..];
    visited[idx] := true;
    assert visited[..] == before[idx := true];
  }
}
