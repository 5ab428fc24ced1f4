/** The layout of the topology page, the pure helpers of src/app/topology/page.tsx: the
    dense stage ranking, the feedback flag of an edge, the camera grid and the pipeline
    columns. Coordinates are reals. */
module TopologyLayout {
  import opened Options

  datatype Pos = Pos(x: real, y: real)

  // ----- ranking ------------------------------------------------------------------

  /** How many of the numbers are smaller. */
  function Rank(s: set<int>, x: int): nat {
    |set b | b in s && b < x|
  }

  predicate Ascending(q: seq<int>) {
    forall i, j :: 0 <= i < j < |q| ==> q[i] < q[j]
  }

  function Insert(q: seq<int>, x: int): (r: seq<int>)
    requires Ascending(q)
    ensures Ascending(r) && forall b :: b in r <==> b in q || b == x
  {
    if |q| == 0 then [x]
    else if x == q[0] then q
    else if x < q[0] then
      assert forall b :: b in [x] + q <==> b in q || b == x;
      [x] + q
    else
      var rest := Insert(q[1..], x);
      assert q == [q[0]] + q[1..];
      assert forall i :: 0 <= i < |rest| ==> rest[i] in rest && (rest[i] in q[1..] || rest[i] == x);
      [q[0]] + rest
  }

  lemma HasMember(s: set<int>)
    ensures s == {} || exists x :: x in s
  {
    if forall x :: x !in s {
      assert s == {};
    }
  }

  lemma RankGrows(s: set<int>, x: int, y: int)
    requires x in s && x < y
    ensures Rank(s, x) < Rank(s, y)
  {
    var below, upto := set b | b in s && b < x, set b | b in s && b < y;
    assert below + {x} <= upto;
    SubsetIsSmaller(below + {x}, upto);
  }

  lemma {:induction false} SubsetIsSmaller(a: set<int>, b: set<int>)
    requires a <= b
    ensures |a| <= |b|
  {
    if a != {} {
      HasMember(a);
      var x :| x in a;
      SubsetIsSmaller(a - {x}, b - {x});
    }
  }

  /** Ranking keeps the order of the numbers, both ways. */
  lemma RankKeepsOrder(s: set<int>, x: int, y: int)
    requires x in s && y in s
    ensures Rank(s, x) < Rank(s, y) <==> x < y
  {
    if x < y { RankGrows(s, x, y); }
    if y < x { RankGrows(s, y, x); }
  }

  /** In ascending order the rank is the position. */
  lemma {:induction false} RankIsPosition(q: seq<int>, s: set<int>, i: nat)
    requires Ascending(q) && i < |q| && forall b :: b in q <==> b in s
    ensures Rank(s, q[i]) == i
  {
    var below := set b | b in s && b < q[i];
    forall b ensures b in below <==> b in q[..i] {
      if b in below {
        var j :| 0 <= j < |q| && q[j] == b;
        assert q[..i][j] == b;
      }
      if b in q[..i] {
        var j :| 0 <= j < i && q[..i][j] == b;
        assert q[j] in q;
      }
    }
    SizeOfAscending(q[..i], below);
  }

  lemma {:induction false} SizeOfAscending(q: seq<int>, s: set<int>)
    requires Ascending(q) && forall b :: b in q <==> b in s
    ensures |s| == |q|
  {
    if |q| == 0 {
      if s != {} { HasMember(s); }
    } else {
      var last := q[|q| - 1];
      assert q == q[..|q| - 1] + [last];
      forall b ensures b in q[..|q| - 1] <==> b in s - {last} {
        if b in q[..|q| - 1] {
          var j :| 0 <= j < |q| - 1 && q[..|q| - 1][j] == b;
          assert q[j] == b && b in q;
        }
      }
      SizeOfAscending(q[..|q| - 1], s - {last});
    }
  }

  /** The members in ascending order: `[...s].sort((a, b) => a - b)`. */
  method Order(s: set<int>) returns (q: seq<int>)
    ensures Ascending(q) && forall b :: b in q <==> b in s
  {
    q := [];
    var left := s;
    while left != {}
      invariant left <= s && Ascending(q) && forall b :: b in q <==> b in s - left
      decreases left
    {
      HasMember(left);
      var x :| x in left;
      q := Insert(q, x);
      left := left - {x};
    }
  }

  /** `new Map(order.map((b, i) => [b, i]))`. */
  method Positions(s: set<int>) returns (m: map<int, nat>)
    ensures m.Keys == s && forall b :: b in s ==> m[b] == Rank(s, b)
  {
    var q := Order(s);
    m := map[];
    for i := 0 to |q|
      invariant forall b :: b in m <==> b in q[..i]
      invariant forall b :: b in m ==> b in s && m[b] == Rank(s, b)
    {
      assert q[..i + 1] == q[..i] + [q[i]];
      RankIsPosition(q, s, i);
      assert q[i] in q;
      m := m[q[i] := i];
    }
    assert q[..|q|] == q;
    assert forall b :: b in m.Keys <==> b in s;
  }

  // ----- stages ---------------------------------------------------------------------

  const STAGE_W := 200.0

  datatype ApiNode = ApiNode(id: string, position: Option<Pos>)

  function AuthoredX(nodes: seq<ApiNode>, i: nat): real
    requires i < |nodes|
  {
    if nodes[i].position.Some? then nodes[i].position.value.x else (i * 180) as real
  }

  /** `Math.round`: halves go up. */
  function Round(x: real): int {
    (x + 0.5).Floor
  }

  predicate IsMinX(nodes: seq<ApiNode>, minX: real) {
    && (forall i :: 0 <= i < |nodes| ==> minX <= AuthoredX(nodes, i))
    && (exists i :: 0 <= i < |nodes| && minX == AuthoredX(nodes, i))
  }

  function Bucket(nodes: seq<ApiNode>, minX: real, i: nat): int
    requires i < |nodes|
  {
    Round((AuthoredX(nodes, i) - minX) / STAGE_W)
  }

  function Buckets(nodes: seq<ApiNode>, minX: real): set<int> {
    set i | 0 <= i < |nodes| :: Bucket(nodes, minX, i)
  }

  /** `Math.min` over the authored positions. */
  method MinX(nodes: seq<ApiNode>) returns (least: real)
    requires nodes != []
    ensures IsMinX(nodes, least)
  {
    least := AuthoredX(nodes, 0);
    for i := 1 to |nodes|
      invariant forall k :: 0 <= k < i ==> least <= AuthoredX(nodes, k)
      invariant exists k :: 0 <= k < i && least == AuthoredX(nodes, k)
    {
      if AuthoredX(nodes, i) < least { least := AuthoredX(nodes, i); }
    }
  }

  /** No later node has the id. */
  predicate LastOfItsId(nodes: seq<ApiNode>, i: nat, end: nat)
    requires i < end <= |nodes|
  {
    forall j :: i < j < end ==> nodes[j].id != nodes[i].id
  }

  /** `buildStageIndexById`: of nodes with one id, the last counts. */
  method BuildStageIndexById(nodes: seq<ApiNode>) returns (r: map<string, nat>, minX: real)
    ensures nodes == [] ==> r == map[]
    ensures nodes != [] ==> IsMinX(nodes, minX)
    ensures forall i :: 0 <= i < |nodes| && LastOfItsId(nodes, i, |nodes|) ==>
              nodes[i].id in r && r[nodes[i].id] == Rank(Buckets(nodes, minX), Bucket(nodes, minX, i))
    ensures forall id :: id in r ==> exists i :: 0 <= i < |nodes| && nodes[i].id == id
  {
    if nodes == [] { return map[], 0.0; }
    minX := MinX(nodes);
    var index := Positions(Buckets(nodes, minX));
    var bucketOf := seq(|nodes|, i requires 0 <= i < |nodes| => Bucket(nodes, minX, i));
    r := IndexById(nodes, bucketOf, index);
  }

  method IndexById(nodes: seq<ApiNode>, bucketOf: seq<int>, index: map<int, nat>) returns (r: map<string, nat>)
    requires |bucketOf| == |nodes| && forall i :: 0 <= i < |nodes| ==> bucketOf[i] in index
    ensures forall i :: 0 <= i < |nodes| && LastOfItsId(nodes, i, |nodes|) ==>
              nodes[i].id in r && r[nodes[i].id] == index[bucketOf[i]]
    ensures forall id :: id in r ==> exists i :: 0 <= i < |nodes| && nodes[i].id == id
  {
    r := map[];
    for i := 0 to |nodes|
      invariant forall k :: 0 <= k < i && LastOfItsId(nodes, k, i) ==>
                  nodes[k].id in r && r[nodes[k].id] == index[bucketOf[k]]
      invariant forall id :: id in r ==> exists k :: 0 <= k < i && nodes[k].id == id
    {
      forall k | 0 <= k < i && LastOfItsId(nodes, k, i + 1)
        ensures LastOfItsId(nodes, k, i) && nodes[k].id != nodes[i].id
      {
      }
      r := r[nodes[i].id := index[bucketOf[i]]];
    }
  }

  /** The stages of a payload are 0, 1, 2 and so on without a gap, beginning at 0 for
      the leftmost node. */
  lemma {:induction false} RanksAreDense(s: set<int>, k: nat)
    requires k < |s|
    ensures exists b :: b in s && Rank(s, b) == k
  {
    var top := Greatest(s);
    var rest := s - {top};
    assert |rest| == |s| - 1;
    if k == |s| - 1 {
      assert (set b | b in s && b < top) == rest;
      assert Rank(s, top) == k;
    } else {
      RanksAreDense(rest, k);
      var b :| b in rest && Rank(rest, b) == k;
      assert (set c | c in s && c < b) == (set c | c in rest && c < b);
      assert Rank(s, b) == k;
    }
  }

  lemma {:induction false} Greatest(s: set<int>) returns (top: int)
    requires s != {}
    ensures top in s && forall b :: b in s ==> b <= top
  {
    HasMember(s);
    top :| top in s;
    assert forall b :: b in s ==> b == top || b in s - {top};
    if s - {top} != {} {
      var other := Greatest(s - {top});
      if other > top { top := other; }
    }
  }

  /** Nodes a bucket apart keep their order, and nodes of one bucket share a stage. */
  lemma StagesFollowTheBuckets(nodes: seq<ApiNode>, minX: real, i: nat, j: nat)
    requires i < |nodes| && j < |nodes|
    ensures var s := Buckets(nodes, minX);
            var a, b := Bucket(nodes, minX, i), Bucket(nodes, minX, j);
            (Rank(s, a) < Rank(s, b) <==> a < b) && (Rank(s, a) == Rank(s, b) <==> a == b)
    ensures Bucket(nodes, minX, i) < Bucket(nodes, minX, j) ==> AuthoredX(nodes, i) < AuthoredX(nodes, j)
  {
    var s := Buckets(nodes, minX);
    RankKeepsOrder(s, Bucket(nodes, minX, i), Bucket(nodes, minX, j));
    RankKeepsOrder(s, Bucket(nodes, minX, j), Bucket(nodes, minX, i));
    RoundKeepsOrder((AuthoredX(nodes, i) - minX) / STAGE_W, (AuthoredX(nodes, j) - minX) / STAGE_W);
  }

  /** A bucket is the multiple of 200 nearest to where a node was drawn, counted from the
      leftmost one; a node without a position counts as drawn 180 behind its predecessor. */
  lemma BucketIsNearest(nodes: seq<ApiNode>, minX: real, i: nat)
    requires i < |nodes|
    ensures var drawn := if nodes[i].position.Some? then nodes[i].position.value.x else 180.0 * (i as real);
            var off := drawn - minX - 200.0 * (Bucket(nodes, minX, i) as real);
            -100.0 <= off < 100.0
  {
    var q := (AuthoredX(nodes, i) - minX) / STAGE_W;
    assert q * 200.0 == AuthoredX(nodes, i) - minX;
    assert Round(q) as real <= q + 0.5 < Round(q) as real + 1.0;
  }

  lemma RoundKeepsOrder(a: real, b: real)
    ensures Round(a) < Round(b) ==> a < b
  {
  }

  // ----- the camera grid ---------------------------------------------------------------

  const COL_GAP := 248
  const ROW_GAP := 168.0
  const ORIGIN_X := 40
  const CENTER_Y := 320.0
  const FEED_DX := 132
  const FEED_DY := 72.0

  /** k is n's square root rounded to the nearest integer; for an integer n the root is
      never half way. */
  predicate IsRoundSqrt(n: nat, k: nat) {
    4 * n < (2 * k + 1) * (2 * k + 1) && (k > 0 ==> (2 * k - 1) * (2 * k - 1) <= 4 * n)
  }

  /** `Math.round(Math.sqrt(n))`. */
  function RoundSqrt(n: nat): (k: nat)
    ensures IsRoundSqrt(n, k)
  {
    if n == 0 then 0
    else
      var k := RoundSqrt(n - 1);
      if 4 * n < (2 * k + 1) * (2 * k + 1) then k
      else
        assert (2 * (k + 1) - 1) * (2 * (k + 1) - 1) <= 4 * n;
        assert 4 * (n - 1) < (2 * k + 1) * (2 * k + 1);
        assert (2 * (k + 1) + 1) * (2 * (k + 1) + 1) == (2 * k + 1) * (2 * k + 1) + 8 * k + 8;
        k + 1
  }

  function FeedCols(n: nat): (c: nat)
    ensures n > 0 ==> c >= 2
  {
    if n == 0 then 0 else if RoundSqrt(n) < 2 then 2 else RoundSqrt(n)
  }

  function FeedRows(n: nat): nat
    requires n > 0
  {
    (n + FeedCols(n) - 1) / FeedCols(n)
  }

  /** From three cameras on the grid is square or one row taller. */
  lemma GridIsNearlySquare(n: nat)
    requires n >= 3
    ensures FeedCols(n) <= FeedRows(n) <= FeedCols(n) + 1
  {
    var k := RoundSqrt(n);
    RoundSqrtBounds(n, k);
    DivideUp(n, k);
  }

  lemma RoundSqrtBounds(n: nat, k: nat)
    requires IsRoundSqrt(n, k) && n >= 3
    ensures k >= 2 && k * k - k < n <= k * k + k
  {
    assert (2 * k - 1) * (2 * k - 1) == 4 * (k * k) - 4 * k + 1;
    assert (2 * k + 1) * (2 * k + 1) == 4 * (k * k) + 4 * k + 1;
    assert k == 0 ==> k * k == 0;
    assert k == 1 ==> k * k == 1;
  }

  lemma {:induction false} Scale(k: nat, a: int, b: int)
    ensures a < b ==> k * a + k <= k * b
    decreases b - a
  {
    if a < b {
      assert k * b == k * (b - 1) + k;
      if a < b - 1 { Scale(k, a, b - 1); }
    }
  }

  lemma DivideUp(n: nat, k: nat)
    requires k > 0 && k * k - k < n <= k * k + k
    ensures k <= (n + k - 1) / k <= k + 1
  {
    var q := (n + k - 1) / k;
    var r := (n + k - 1) % k;
    assert n + k - 1 == k * q + r;
    Scale(k, q, k);
    Scale(k, k + 1, q);
    assert k * (k + 1) == k * k + k;
  }

  function LaneWidth(feeds: nat): nat {
    if FeedCols(feeds) > 0 then FeedCols(feeds) * FEED_DX + 80 else 0
  }

  /** Where the i-th of n cameras goes. */
  function FeedSpot(n: nat, i: nat): Pos
    requires i < n
  {
    GridSpot(FeedRows(n), GridCol(i, FeedCols(n)), GridRow(i, FeedCols(n)))
  }

  function GridCol(i: nat, k: nat): (c: nat)
    requires k > 0
    ensures c < k
  {
    i % k
  }

  function GridRow(i: nat, k: nat): nat
    requires k > 0
  {
    i / k
  }

  function GridSpot(rows: int, c: nat, r: nat): Pos {
    Pos((ORIGIN_X + c * FEED_DX) as real,
        CENTER_Y - (((rows - 1) as real) / 2.0) * FEED_DY + (r as real) * FEED_DY)
  }

  // ----- the pipeline columns ------------------------------------------------------------

  datatype Node = Node(id: string, isFeed: bool, position: Pos)

  /** Where the i-th of n services of the pipeline's col-th stage goes. */
  function StageSpot(feeds: nat, col: nat, n: nat, i: nat): Pos
    requires i < n
  {
    Pos((ORIGIN_X + LaneWidth(feeds) + col * COL_GAP) as real,
        CENTER_Y + ((i as real) - ((n - 1) as real) / 2.0) * ROW_GAP)
  }

  predicate UniqueIds(nodes: seq<Node>) {
    forall i, j :: 0 <= i < j < |nodes| ==> nodes[i].id != nodes[j].id
  }

  type Compare = (Node, Node) -> bool

  /** Behind everything it does not sort before, so the sort is stable. */
  function InsertNode(le: Compare, s: seq<Node>, x: Node): (r: seq<Node>)
    ensures |r| == |s| + 1 && forall n :: n in r <==> n in s || n == x
  {
    if |s| == 0 then [x]
    else if le(s[0], x) then
      assert s == [s[0]] + s[1..];
      [s[0]] + InsertNode(le, s[1..], x)
    else [x] + s
  }

  function SortNodes(le: Compare, s: seq<Node>): (r: seq<Node>)
    ensures |r| == |s| && forall n :: n in r <==> n in s
  {
    if |s| == 0 then []
    else
      assert s == s[..|s| - 1] + [s[|s| - 1]];
      InsertNode(le, SortNodes(le, s[..|s| - 1]), s[|s| - 1])
  }

  lemma {:induction false} InsertKeepsIds(le: Compare, s: seq<Node>, x: Node)
    requires UniqueIds(s) && forall n :: n in s ==> n.id != x.id
    ensures UniqueIds(InsertNode(le, s, x))
  {
    if |s| > 0 && le(s[0], x) {
      InsertKeepsIds(le, s[1..], x);
      var r := InsertNode(le, s[1..], x);
      forall k | 0 <= k < |r| ensures r[k].id != s[0].id {
        assert r[k] in r;
      }
    }
  }

  lemma {:induction false} SortKeepsIds(le: Compare, s: seq<Node>)
    requires UniqueIds(s)
    ensures UniqueIds(SortNodes(le, s))
  {
    if |s| > 0 {
      var t := s[..|s| - 1];
      SortKeepsIds(le, t);
      forall n | n in SortNodes(le, t) ensures n.id != s[|s| - 1].id {
        var i :| 0 <= i < |t| && t[i] == n;
      }
      InsertKeepsIds(le, SortNodes(le, t), s[|s| - 1]);
    }
  }

  predicate ByY(a: Node, b: Node) {
    a.position.y <= b.position.y
  }

  ghost predicate TotalOrder(le: Compare) {
    && (forall a, b :: le(a, b) || le(b, a))
    && (forall a, b, c :: le(a, b) && le(b, c) ==> le(a, c))
  }

  ghost predicate Ordered(le: Compare, s: seq<Node>) {
    forall i, j :: 0 <= i < j < |s| ==> le(s[i], s[j])
  }

  lemma {:induction false} SortOrders(le: Compare, s: seq<Node>)
    requires TotalOrder(le)
    ensures Ordered(le, SortNodes(le, s))
  {
    if |s| > 0 {
      SortOrders(le, s[..|s| - 1]);
      InsertOrders(le, SortNodes(le, s[..|s| - 1]), s[|s| - 1]);
    }
  }

  lemma {:induction false} InsertOrders(le: Compare, s: seq<Node>, x: Node)
    requires TotalOrder(le) && Ordered(le, s)
    ensures Ordered(le, InsertNode(le, s, x))
  {
    if |s| == 0 {
    } else if le(s[0], x) {
      InsertOrders(le, s[1..], x);
      var r := InsertNode(le, s[1..], x);
      forall k | 0 <= k < |r| ensures le(s[0], r[k]) {
        assert r[k] in r;
        if r[k] != x { var i :| 0 <= i < |s[1..]| && s[1..][i] == r[k]; assert s[i + 1] == r[k]; }
      }
    } else {
      assert le(x, s[0]);
      forall k | 0 <= k < |s| ensures le(x, s[k]) {
        if k > 0 { assert le(s[0], s[k]); }
      }
    }
  }

  type Saved = map<string, Pos>
  type Stages = map<string, nat>

  /** The nodes nobody has dragged, cameras or services. */
  function Auto(nodes: seq<Node>, saved: Saved, feeds: bool): (r: seq<Node>)
    ensures forall n :: n in r <==> n in nodes && n.id !in saved && n.isFeed == feeds
  {
    if |nodes| == 0 then []
    else
      assert nodes == nodes[..|nodes| - 1] + [nodes[|nodes| - 1]];
      var rest, last := Auto(nodes[..|nodes| - 1], saved, feeds), nodes[|nodes| - 1];
      if last.id !in saved && last.isFeed == feeds then rest + [last] else rest
  }

  lemma {:induction false} AutoKeepsIds(nodes: seq<Node>, saved: Saved, feeds: bool)
    requires UniqueIds(nodes)
    ensures UniqueIds(Auto(nodes, saved, feeds))
  {
    if |nodes| > 0 {
      var t := nodes[..|nodes| - 1];
      AutoKeepsIds(t, saved, feeds);
      var r := Auto(t, saved, feeds);
      forall k | 0 <= k < |r| ensures r[k].id != nodes[|nodes| - 1].id {
        assert r[k] in r;
        var i :| 0 <= i < |t| && t[i] == r[k];
        assert nodes[i] == r[k];
      }
    }
  }

  function StageOf(stages: Stages, id: string): nat {
    if id in stages then stages[id] else 0
  }

  function OfStage(pipeline: seq<Node>, stages: Stages, s: nat): (r: seq<Node>)
    ensures forall n :: n in r <==> n in pipeline && StageOf(stages, n.id) == s
  {
    if |pipeline| == 0 then []
    else
      assert pipeline == pipeline[..|pipeline| - 1] + [pipeline[|pipeline| - 1]];
      var rest, last := OfStage(pipeline[..|pipeline| - 1], stages, s), pipeline[|pipeline| - 1];
      if StageOf(stages, last.id) == s then rest + [last] else rest
  }

  lemma {:induction false} OfStageKeepsIds(pipeline: seq<Node>, stages: Stages, s: nat)
    requires UniqueIds(pipeline)
    ensures UniqueIds(OfStage(pipeline, stages, s))
  {
    if |pipeline| > 0 {
      var t := pipeline[..|pipeline| - 1];
      OfStageKeepsIds(t, stages, s);
      var r := OfStage(t, stages, s);
      forall k | 0 <= k < |r| ensures r[k].id != pipeline[|pipeline| - 1].id {
        assert r[k] in r;
        var i :| 0 <= i < |t| && t[i] == r[k];
        assert pipeline[i] == r[k];
      }
    }
  }

  function UsedStages(pipeline: seq<Node>, stages: Stages): set<int> {
    set n | n in pipeline :: StageOf(stages, n.id)
  }

  function Column(pipeline: seq<Node>, stages: Stages, s: nat): seq<Node> {
    SortNodes(ByY, OfStage(pipeline, stages, s))
  }

  function IndexOf(s: seq<Node>, n: Node): (i: nat)
    requires n in s
    ensures i < |s| && s[i] == n
  {
    if s[0] == n then 0 else IndexOf(s[1..], n) + 1
  }

  function ServiceSpot(pipeline: seq<Node>, stages: Stages, feeds: nat, n: Node): Pos
    requires n in pipeline
  {
    var s := StageOf(stages, n.id);
    var column := Column(pipeline, stages, s);
    StageSpot(feeds, Rank(UsedStages(pipeline, stages), s), |column|, IndexOf(column, n))
  }

  /** Where the layout puts a node that was not dragged. */
  function Spot(le: Compare, nodes: seq<Node>, saved: Saved, stages: Stages, n: Node): Pos
    requires n in nodes && n.id !in saved
  {
    var feeds, pipeline := SortNodes(le, Auto(nodes, saved, true)), Auto(nodes, saved, false);
    if n.isFeed then FeedSpot(|feeds|, IndexOf(feeds, n)) else ServiceSpot(pipeline, stages, |feeds|, n)
  }

  // ----- what the layout promises ---------------------------------------------------------

  predicate Apart(a: Pos, b: Pos) {
    a.x - b.x >= 132.0 || b.x - a.x >= 132.0 || a.y - b.y >= 72.0 || b.y - a.y >= 72.0
  }

  lemma FeedsApart(n: nat, i: nat, j: nat)
    requires i < n && j < n && i != j
    ensures Apart(FeedSpot(n, i), FeedSpot(n, j))
  {
    var k := FeedCols(n);
    CellsDiffer(k, i, j);
    CellsApart(FeedRows(n), GridCol(i, k), GridRow(i, k), GridCol(j, k), GridRow(j, k));
  }

  lemma CellsDiffer(k: nat, i: nat, j: nat)
    requires k > 0 && i != j
    ensures GridCol(i, k) != GridCol(j, k) || GridRow(i, k) != GridRow(j, k)
  {
    assert i == k * (i / k) + i % k && j == k * (j / k) + j % k;
  }

  lemma CellsApart(rows: int, c: nat, r: nat, d: nat, q: nat)
    requires c != d || r != q
    ensures Apart(GridSpot(rows, c, r), GridSpot(rows, d, q))
  {
    if r != q { RowsApart(r, q); }
  }

  lemma RowsApart(r: nat, q: nat)
    requires r != q
    ensures (r as real) * 72.0 - (q as real) * 72.0 >= 72.0 || (q as real) * 72.0 - (r as real) * 72.0 >= 72.0
  {
    if r < q { assert (q as real) >= (r as real) + 1.0; } else { assert (r as real) >= (q as real) + 1.0; }
  }

  lemma ServicesApart(feeds: nat, col1: nat, n1: nat, i: nat, col2: nat, n2: nat, j: nat)
    requires i < n1 && j < n2 && (col1 != col2 || (n1 == n2 && i != j))
    ensures Apart(StageSpot(feeds, col1, n1, i), StageSpot(feeds, col2, n2, j))
    ensures StageSpot(feeds, col1, n1, i).x < StageSpot(feeds, col2, n2, j).x <==> col1 < col2
  {
    if col1 == col2 {
      if i < j { assert (j as real) >= (i as real) + 1.0; } else { assert (i as real) >= (j as real) + 1.0; }
    } else if col1 < col2 {
      assert col2 * COL_GAP >= col1 * COL_GAP + COL_GAP;
    } else {
      assert col1 * COL_GAP >= col2 * COL_GAP + COL_GAP;
    }
  }

  /** Any camera is at least 212 to the left of any service, and exactly that in the last
      column of the grid and the first of the pipeline. */
  lemma CamerasLeftOfServices(n: nat, i: nat, col: nat, m: nat, j: nat)
    requires i < n && j < m
    ensures FeedSpot(n, i).x + 212.0 <= StageSpot(n, col, m, j).x
    ensures col == 0 && i % FeedCols(n) == FeedCols(n) - 1 ==> FeedSpot(n, i).x + 212.0 == StageSpot(n, col, m, j).x
  {
    assert GridCol(i, FeedCols(n)) + 1 <= FeedCols(n);
  }

  /** The cameras fill the grid as one reads, from 40 on the left. */
  predicate ReadBefore(a: Pos, b: Pos) {
    a.y < b.y || (a.y == b.y && a.x < b.x)
  }

  lemma FeedsInReadingOrder(n: nat, i: nat, j: nat)
    requires i < j < n
    ensures ReadBefore(FeedSpot(n, i), FeedSpot(n, j))
    ensures FeedSpot(n, 0).x == 40.0 && FeedSpot(n, i).x >= 40.0
  {
    var k := FeedCols(n);
    RowsFollow(k, i, j);
    if GridRow(i, k) < GridRow(j, k) { RowsApart(GridRow(i, k), GridRow(j, k)); }
  }

  lemma RowsFollow(k: nat, i: nat, j: nat)
    requires k > 0 && i < j
    ensures GridRow(i, k) < GridRow(j, k) || (GridRow(i, k) == GridRow(j, k) && GridCol(i, k) < GridCol(j, k))
  {
    assert i == k * (i / k) + i % k && j == k * (j / k) + j % k;
    Scale(k, j / k, i / k);
  }

  /** Cameras stand in the order of their ids, as one reads. */
  lemma CamerasFollowTheirOrder(le: Compare, nodes: seq<Node>, saved: Saved, stages: Stages, a: Node, b: Node)
    requires TotalOrder(le) && a in nodes && b in nodes && a.id !in saved && b.id !in saved && a.isFeed && b.isFeed
    requires !le(b, a)
    ensures ReadBefore(Spot(le, nodes, saved, stages, a), Spot(le, nodes, saved, stages, b))
  {
    var feeds := SortNodes(le, Auto(nodes, saved, true));
    SortOrders(le, Auto(nodes, saved, true));
    var i, j := IndexOf(feeds, a), IndexOf(feeds, b);
    NotBehind(le, feeds, i, j);
    FeedsInReadingOrder(|feeds|, i, j);
  }

  lemma NotBehind(le: Compare, s: seq<Node>, i: nat, j: nat)
    requires TotalOrder(le) && Ordered(le, s) && i < |s| && j < |s| && !le(s[j], s[i])
    ensures i < j
  {
  }

  /** Services stand on a lattice: columns 248 apart for each stage used in between, and
      168 from one to the next in a column. */
  lemma ServicesOnALattice(feeds: nat, col1: nat, n: nat, i: nat, col2: nat, m: nat, j: nat)
    requires i < n && j < m
    ensures StageSpot(feeds, col2, m, j).x - StageSpot(feeds, col1, n, i).x == 248.0 * (col2 as real - col1 as real)
    ensures n == m ==>
              StageSpot(feeds, col2, m, j).y - StageSpot(feeds, col1, n, i).y == 168.0 * (j as real - i as real)
  {
  }

  lemma StageSpotsMirror(feeds: nat, col: nat, n: nat, i: nat)
    requires i < n
    ensures StageSpot(feeds, col, n, i).y + StageSpot(feeds, col, n, n - 1 - i).y == 640.0
  {
    assert ((n - 1 - i) as real) == ((n - 1) as real) - (i as real);
  }

  lemma {:induction false} IndexOfAt(s: seq<Node>, i: nat)
    requires UniqueIds(s) && i < |s|
    ensures IndexOf(s, s[i]) == i
  {
    if i > 0 {
      assert s[0].id != s[i].id;
      assert s[1..][i - 1] == s[i];
      IndexOfAt(s[1..], i - 1);
    }
  }

  /** A stage column is centred on the row: every service of it has a partner in the same
      stage, drawn as far on the other side of the row, itself if it is on the row. */
  lemma ColumnsAreCentred(le: Compare, nodes: seq<Node>, saved: Saved, stages: Stages, a: Node) returns (b: Node)
    requires UniqueIds(nodes) && a in nodes && a.id !in saved && !a.isFeed
    ensures b in nodes && b.id !in saved && !b.isFeed && StageOf(stages, b.id) == StageOf(stages, a.id)
    ensures Spot(le, nodes, saved, stages, a).x == Spot(le, nodes, saved, stages, b).x
    ensures Spot(le, nodes, saved, stages, a).y + Spot(le, nodes, saved, stages, b).y == 640.0
  {
    AutoKeepsIds(nodes, saved, false);
    b := PartnerInColumn(Auto(nodes, saved, false), stages, |SortNodes(le, Auto(nodes, saved, true))|, a);
  }

  lemma PartnerInColumn(pipeline: seq<Node>, stages: Stages, feeds: nat, a: Node) returns (b: Node)
    requires UniqueIds(pipeline) && a in pipeline
    ensures b in pipeline && StageOf(stages, b.id) == StageOf(stages, a.id)
    ensures ServiceSpot(pipeline, stages, feeds, a).x == ServiceSpot(pipeline, stages, feeds, b).x
    ensures ServiceSpot(pipeline, stages, feeds, a).y + ServiceSpot(pipeline, stages, feeds, b).y == 640.0
  {
    var s := StageOf(stages, a.id);
    var column := Column(pipeline, stages, s);
    OfStageKeepsIds(pipeline, stages, s);
    SortKeepsIds(ByY, OfStage(pipeline, stages, s));
    var i := IndexOf(column, a);
    var j := |column| - 1 - i;
    b := column[j];
    assert b in column;
    IndexOfAt(column, j);
    StageSpotsMirror(feeds, Rank(UsedStages(pipeline, stages), s), |column|, i);
  }

  /** First and last camera row mirror each other about the row. */
  lemma GridIsCentred(n: nat)
    requires n > 0
    ensures FeedSpot(n, 0).y + FeedSpot(n, n - 1).y == 640.0
  {
    var k := FeedCols(n);
    LastRow(n, k);
    assert (n - 1) / k == FeedRows(n) - 1;
  }

  lemma LastRow(n: nat, k: nat)
    requires n > 0 && k > 0
    ensures (n + k - 1) / k == (n - 1) / k + 1
  {
    var q, r := (n - 1) / k, (n - 1) % k;
    assert n - 1 == k * q + r;
    assert n + k - 1 == k * (q + 1) + r;
    DivIs(n + k - 1, k, q + 1, r);
  }

  lemma DivIs(a: nat, k: nat, q: nat, r: nat)
    requires k > 0 && r < k && a == k * q + r
    ensures a / k == q
  {
    assert a == k * (a / k) + a % k;
    Scale(k, a / k, q);
    Scale(k, q, a / k);
  }

  /** Distinct nodes that were not dragged never overlap, whatever the payload. */
  lemma NothingOverlaps(le: Compare, nodes: seq<Node>, saved: Saved, stages: Stages, a: Node, b: Node)
    requires a in nodes && b in nodes && a != b && a.id !in saved && b.id !in saved
    ensures Apart(Spot(le, nodes, saved, stages, a), Spot(le, nodes, saved, stages, b))
    ensures a.isFeed && !b.isFeed ==>
              Spot(le, nodes, saved, stages, a).x + 212.0 <= Spot(le, nodes, saved, stages, b).x
  {
    var feeds, pipeline := SortNodes(le, Auto(nodes, saved, true)), Auto(nodes, saved, false);
    var used := UsedStages(pipeline, stages);
    if a.isFeed && b.isFeed {
      FeedsApart(|feeds|, IndexOf(feeds, a), IndexOf(feeds, b));
    } else if a.isFeed {
      var s, column := StageOf(stages, b.id), Column(pipeline, stages, StageOf(stages, b.id));
      CamerasLeftOfServices(|feeds|, IndexOf(feeds, a), Rank(used, s), |column|, IndexOf(column, b));
    } else if b.isFeed {
      var s, column := StageOf(stages, a.id), Column(pipeline, stages, StageOf(stages, a.id));
      CamerasLeftOfServices(|feeds|, IndexOf(feeds, b), Rank(used, s), |column|, IndexOf(column, a));
    } else {
      var s, t := StageOf(stages, a.id), StageOf(stages, b.id);
      var c, d := Column(pipeline, stages, s), Column(pipeline, stages, t);
      RankKeepsOrder(used, s, t);
      RankKeepsOrder(used, t, s);
      ServicesApart(|feeds|, Rank(used, s), |c|, IndexOf(c, a), Rank(used, t), |d|, IndexOf(d, b));
    }
  }

  // ----- feedback edges --------------------------------------------------------------------

  datatype Edge = Edge(source: string, target: string)

  /** The flag `mergeTopologyEdges` gives an edge. */
  predicate Feedback(stages: Stages, e: Edge) {
    StageOf(stages, e.target) < StageOf(stages, e.source)
  }

  /** An edge between services is called feedback exactly when it is drawn going left. */
  lemma FeedbackIsDrawnLeftward(
    le: Compare, nodes: seq<Node>, saved: Saved, stages: Stages, source: Node, target: Node)
    requires source in nodes && target in nodes && source.id !in saved && target.id !in saved
    requires !source.isFeed && !target.isFeed
    ensures Feedback(stages, Edge(source.id, target.id)) <==>
              Spot(le, nodes, saved, stages, target).x < Spot(le, nodes, saved, stages, source).x
    ensures Feedback(stages, Edge(source.id, target.id)) <==>
              source.id in stages && (if target.id in stages then stages[target.id] else 0) < stages[source.id]
  {
    var feeds, pipeline := SortNodes(le, Auto(nodes, saved, true)), Auto(nodes, saved, false);
    var used := UsedStages(pipeline, stages);
    var s, t := StageOf(stages, source.id), StageOf(stages, target.id);
    RankKeepsOrder(used, t, s);
    RankKeepsOrder(used, s, t);
    var c, d := Column(pipeline, stages, s), Column(pipeline, stages, t);
    if s != t {
      ServicesApart(|feeds|, Rank(used, t), |d|, IndexOf(d, target), Rank(used, s), |c|, IndexOf(c, source));
    }
  }

  /** Services of one stage are stacked in the order of their authored y. */
  lemma StackFollowsAuthoredY(
    le: Compare, nodes: seq<Node>, saved: Saved, stages: Stages, a: Node, b: Node)
    requires a in nodes && b in nodes && a.id !in saved && b.id !in saved && !a.isFeed && !b.isFeed
    requires StageOf(stages, a.id) == StageOf(stages, b.id) && a.position.y < b.position.y
    ensures Spot(le, nodes, saved, stages, a).y < Spot(le, nodes, saved, stages, b).y
  {
    StackFollowsY(Auto(nodes, saved, false), stages, |SortNodes(le, Auto(nodes, saved, true))|, a, b);
  }

  /** `a` stands before `b` in the list. */
  ghost predicate Before(s: seq<Node>, a: Node, b: Node) {
    exists i, j :: 0 <= i < j < |s| && s[i] == a && s[j] == b
  }

  lemma BeforeInBoth(s: seq<Node>, t: seq<Node>, a: Node, b: Node)
    requires Before(s, a, b) || (a in s && b in t)
    ensures Before(s + t, a, b)
  {
    if Before(s, a, b) {
      var i, j :| 0 <= i < j < |s| && s[i] == a && s[j] == b;
      assert (s + t)[i] == a && (s + t)[j] == b;
    } else {
      var i, j :| 0 <= i < |s| && 0 <= j < |t| && s[i] == a && t[j] == b;
      assert (s + t)[i] == a && (s + t)[|s| + j] == b;
    }
  }

  lemma BeforeBehind(head: Node, s: seq<Node>, a: Node, b: Node)
    requires Before(s, a, b) || (a == head && b in s)
    ensures Before([head] + s, a, b)
  {
    if Before(s, a, b) {
      var i, j :| 0 <= i < j < |s| && s[i] == a && s[j] == b;
      assert ([head] + s)[i + 1] == a && ([head] + s)[j + 1] == b;
    } else {
      var j :| 0 <= j < |s| && s[j] == b;
      assert ([head] + s)[0] == a && ([head] + s)[j + 1] == b;
    }
  }

  lemma BeforeWithoutLast(s: seq<Node>, a: Node, b: Node)
    requires |s| > 0 && Before(s, a, b)
    ensures a in s[..|s| - 1] && (Before(s[..|s| - 1], a, b) || b == s[|s| - 1])
  {
    var i, j :| 0 <= i < j < |s| && s[i] == a && s[j] == b;
    assert s[..|s| - 1][i] == a && (j < |s| - 1 ==> s[..|s| - 1][j] == b);
  }

  lemma BeforeWithoutFirst(s: seq<Node>, a: Node, b: Node)
    requires |s| > 0 && Before(s, a, b)
    ensures b in s[1..] && (Before(s[1..], a, b) || a == s[0])
  {
    var i, j :| 0 <= i < j < |s| && s[i] == a && s[j] == b;
    assert s[1..][j - 1] == b && (i > 0 ==> s[1..][i - 1] == a);
  }

  lemma {:induction false} InsertKeepsBefore(le: Compare, s: seq<Node>, x: Node, a: Node, b: Node)
    requires Before(s, a, b)
    ensures Before(InsertNode(le, s, x), a, b)
  {
    if le(s[0], x) {
      BeforeWithoutFirst(s, a, b);
      if Before(s[1..], a, b) { InsertKeepsBefore(le, s[1..], x, a, b); }
      BeforeBehind(s[0], InsertNode(le, s[1..], x), a, b);
    } else {
      BeforeBehind(x, s, a, b);
    }
  }

  lemma {:induction false} InsertBehind(le: Compare, s: seq<Node>, x: Node, a: Node)
    requires TotalOrder(le) && Ordered(le, s) && a in s && le(a, x)
    ensures Before(InsertNode(le, s, x), a, x)
  {
    var k :| 0 <= k < |s| && s[k] == a;
    assert le(s[0], x) by { if k > 0 { assert le(s[0], s[k]); } }
    if k > 0 {
      assert s[1..][k - 1] == a;
      InsertBehind(le, s[1..], x, a);
    }
    BeforeBehind(s[0], InsertNode(le, s[1..], x), a, x);
  }

  /** The sort is stable. */
  lemma {:induction false} SortKeepsBefore(le: Compare, s: seq<Node>, a: Node, b: Node)
    requires TotalOrder(le) && Before(s, a, b) && le(a, b)
    ensures Before(SortNodes(le, s), a, b)
  {
    var t := s[..|s| - 1];
    BeforeWithoutLast(s, a, b);
    if Before(t, a, b) {
      SortKeepsBefore(le, t, a, b);
      InsertKeepsBefore(le, SortNodes(le, t), s[|s| - 1], a, b);
    } else {
      SortOrders(le, t);
      InsertBehind(le, SortNodes(le, t), b, a);
    }
  }

  lemma {:induction false} AutoKeepsBefore(nodes: seq<Node>, saved: Saved, feeds: bool, a: Node, b: Node)
    requires Before(nodes, a, b) && a.id !in saved && b.id !in saved && a.isFeed == feeds && b.isFeed == feeds
    ensures Before(Auto(nodes, saved, feeds), a, b)
  {
    var t, last := nodes[..|nodes| - 1], nodes[|nodes| - 1];
    BeforeWithoutLast(nodes, a, b);
    if Before(t, a, b) { AutoKeepsBefore(t, saved, feeds, a, b); }
    BeforeInBoth(Auto(t, saved, feeds), [last], a, b);
  }

  lemma {:induction false} OfStageKeepsBefore(pipeline: seq<Node>, stages: Stages, s: nat, a: Node, b: Node)
    requires Before(pipeline, a, b) && StageOf(stages, a.id) == s && StageOf(stages, b.id) == s
    ensures Before(OfStage(pipeline, stages, s), a, b)
  {
    var t, last := pipeline[..|pipeline| - 1], pipeline[|pipeline| - 1];
    BeforeWithoutLast(pipeline, a, b);
    if Before(t, a, b) { OfStageKeepsBefore(t, stages, s, a, b); }
    BeforeInBoth(OfStage(t, stages, s), [last], a, b);
  }

  /** And those with one authored y in the order of the payload. */
  lemma TiesFollowThePayload(le: Compare, nodes: seq<Node>, saved: Saved, stages: Stages, a: Node, b: Node)
    requires UniqueIds(nodes) && Before(nodes, a, b) && a.id !in saved && b.id !in saved && !a.isFeed && !b.isFeed
    requires StageOf(stages, a.id) == StageOf(stages, b.id) && a.position.y == b.position.y
    ensures a in nodes && b in nodes
    ensures Spot(le, nodes, saved, stages, a).y < Spot(le, nodes, saved, stages, b).y
  {
    var pipeline, s := Auto(nodes, saved, false), StageOf(stages, a.id);
    AutoKeepsBefore(nodes, saved, false, a, b);
    OfStageKeepsBefore(pipeline, stages, s, a, b);
    SortKeepsBefore(ByY, OfStage(pipeline, stages, s), a, b);
    AutoKeepsIds(nodes, saved, false);
    OfStageKeepsIds(pipeline, stages, s);
    SortKeepsIds(ByY, OfStage(pipeline, stages, s));
    var column := Column(pipeline, stages, s);
    var i, j :| 0 <= i < j < |column| && column[i] == a && column[j] == b;
    IndexOfAt(column, i);
    IndexOfAt(column, j);
    LowerInTheStack(|SortNodes(le, Auto(nodes, saved, true))|, Rank(UsedStages(pipeline, stages), s), |column|, i, j);
  }

  lemma StackFollowsY(pipeline: seq<Node>, stages: Stages, feeds: nat, a: Node, b: Node)
    requires a in pipeline && b in pipeline && StageOf(stages, a.id) == StageOf(stages, b.id)
    requires a.position.y < b.position.y
    ensures ServiceSpot(pipeline, stages, feeds, a).y < ServiceSpot(pipeline, stages, feeds, b).y
  {
    var s := StageOf(stages, a.id);
    var column := Column(pipeline, stages, s);
    var i, j := IndexOf(column, a), IndexOf(column, b);
    if j < i { ColumnByY(pipeline, stages, s, j, i); }
    LowerInTheStack(feeds, Rank(UsedStages(pipeline, stages), s), |column|, i, j);
  }

  lemma ColumnByY(pipeline: seq<Node>, stages: Stages, s: nat, i: nat, j: nat)
    requires i < j < |Column(pipeline, stages, s)|
    ensures Column(pipeline, stages, s)[i].position.y <= Column(pipeline, stages, s)[j].position.y
  {
    SortOrders(ByY, OfStage(pipeline, stages, s));
    assert ByY(Column(pipeline, stages, s)[i], Column(pipeline, stages, s)[j]);
  }

  lemma LowerInTheStack(feeds: nat, col: nat, n: nat, i: nat, j: nat)
    requires i < j < n
    ensures StageSpot(feeds, col, n, i).y < StageSpot(feeds, col, n, j).y
  {
    assert (j as real) >= (i as real) + 1.0;
  }

  // ----- the layout itself ------------------------------------------------------------------

  /** `applyFlowLayout`; ids are the keys of the graph. */
  method ApplyFlowLayout(le: Compare, nodes: seq<Node>, saved: Saved, stages: Stages) returns (r: seq<Node>)
    requires UniqueIds(nodes)
    ensures |r| == |nodes|
    ensures forall k :: 0 <= k < |nodes| ==>
              r[k] == if nodes[k].id in saved then nodes[k]
                      else nodes[k].(position := Spot(le, nodes, saved, stages, nodes[k]))
  {
    if forall n :: n in nodes ==> n.id in saved { return nodes; }
    var placed := PlaceAll(le, nodes, saved, stages);
    r := seq(|nodes|, k requires 0 <= k < |nodes| => Moved(nodes[k], saved, placed));
    forall k | 0 <= k < |nodes| && nodes[k].id !in saved
      ensures r[k] == nodes[k].(position := Spot(le, nodes, saved, stages, nodes[k]))
    {
      assert nodes[k] in nodes;
    }
  }

  function Moved(n: Node, saved: Saved, placed: map<string, Pos>): Node {
    if n.id in saved then n else n.(position := if n.id in placed then placed[n.id] else n.position)
  }

  /** The positions of all nodes nobody dragged: the cameras first, then the services. */
  method PlaceAll(le: Compare, nodes: seq<Node>, saved: Saved, stages: Stages) returns (placed: map<string, Pos>)
    requires UniqueIds(nodes)
    ensures forall n :: n in nodes && n.id !in saved ==>
              n.id in placed && placed[n.id] == Spot(le, nodes, saved, stages, n)
  {
    var feeds := SortNodes(le, Auto(nodes, saved, true));
    var pipeline := Auto(nodes, saved, false);
    AutoKeepsIds(nodes, saved, true);
    AutoKeepsIds(nodes, saved, false);
    SortKeepsIds(le, Auto(nodes, saved, true));
    var cameras := PlaceFeeds(feeds);
    placed := PlacePipeline(pipeline, stages, |feeds|, cameras);
    forall n | n in nodes && n.id !in saved
      ensures n.id in placed && placed[n.id] == Spot(le, nodes, saved, stages, n)
    {
      if n.isFeed {
        assert n in feeds;
        forall m | m in pipeline ensures m.id != n.id { OneNodePerId(nodes, m, n); }
      } else {
        assert n in pipeline;
      }
    }
  }

  lemma OneNodePerId(nodes: seq<Node>, a: Node, b: Node)
    requires UniqueIds(nodes) && a in nodes && b in nodes && a != b
    ensures a.id != b.id
  {
  }

  method PlaceFeeds(feeds: seq<Node>) returns (placed: map<string, Pos>)
    requires UniqueIds(feeds)
    ensures forall n :: n in feeds ==> n.id in placed && placed[n.id] == FeedSpot(|feeds|, IndexOf(feeds, n))
    ensures forall id :: id in placed ==> exists n :: n in feeds && n.id == id
  {
    placed := map[];
    for i := 0 to |feeds|
      invariant forall k :: 0 <= k < i ==> feeds[k].id in placed && placed[feeds[k].id] == FeedSpot(|feeds|, k)
      invariant forall id :: id in placed ==> exists n :: n in feeds && n.id == id
    {
      placed := placed[feeds[i].id := FeedSpot(|feeds|, i)];
    }
  }

  method PlacePipeline(pipeline: seq<Node>, stages: Stages, feeds: nat, before: map<string, Pos>)
    returns (placed: map<string, Pos>)
    requires UniqueIds(pipeline)
    ensures forall n :: n in pipeline ==> n.id in placed && placed[n.id] == ServiceSpot(pipeline, stages, feeds, n)
    ensures Keeps(before, placed, pipeline)
  {
    placed := before;
    var used := UsedStages(pipeline, stages);
    var colOf := Positions(used);
    var left := used;
    while left != {}
      invariant left <= used && Keeps(before, placed, pipeline)
      invariant forall s: nat :: s !in left ==> InPlace(pipeline, stages, feeds, s, placed)
      decreases left
    {
      HasMember(left);
      var s :| s in left;
      ghost var was := placed;
      placed := PlaceColumn(pipeline, stages, feeds, s, colOf[s], placed);
      AnotherColumn(pipeline, stages, feeds, s, left, was, placed);
      ColumnKeeps(pipeline, stages, s, before, was, placed);
      left := left - {s};
    }
    AllInPlace(pipeline, stages, feeds, placed);
  }

  lemma AnotherColumn(pipeline: seq<Node>, stages: Stages, feeds: nat, s: nat, left: set<int>,
                      was: map<string, Pos>, placed: map<string, Pos>)
    requires forall t: nat :: t !in left ==> InPlace(pipeline, stages, feeds, t, was)
    requires InPlace(pipeline, stages, feeds, s, placed) && Keeps(was, placed, Column(pipeline, stages, s))
    ensures forall t: nat :: t !in left - {s} ==> InPlace(pipeline, stages, feeds, t, placed)
  {
    forall t: nat | t !in left - {s} && t != s ensures InPlace(pipeline, stages, feeds, t, placed) {
      OtherColumnsStay(pipeline, stages, feeds, s, t, was, placed);
    }
  }

  lemma ColumnKeeps(pipeline: seq<Node>, stages: Stages, s: nat,
                    before: map<string, Pos>, was: map<string, Pos>, placed: map<string, Pos>)
    requires Keeps(before, was, pipeline) && Keeps(was, placed, Column(pipeline, stages, s))
    ensures Keeps(before, placed, pipeline)
  {
  }

  lemma AllInPlace(pipeline: seq<Node>, stages: Stages, feeds: nat, placed: map<string, Pos>)
    requires forall s: nat :: InPlace(pipeline, stages, feeds, s, placed)
    ensures forall n :: n in pipeline ==> n.id in placed && placed[n.id] == ServiceSpot(pipeline, stages, feeds, n)
  {
    forall n | n in pipeline
      ensures n.id in placed && placed[n.id] == ServiceSpot(pipeline, stages, feeds, n)
    {
      assert InPlace(pipeline, stages, feeds, StageOf(stages, n.id), placed);
    }
  }

  /** Only entries of the given nodes change. */
  ghost predicate Keeps(before: map<string, Pos>, after: map<string, Pos>, touched: seq<Node>) {
    forall id :: id in before && (forall n :: n in touched ==> n.id != id) ==> id in after && after[id] == before[id]
  }

  ghost predicate InPlace(pipeline: seq<Node>, stages: Stages, feeds: nat, s: nat, placed: map<string, Pos>) {
    forall n :: n in pipeline && StageOf(stages, n.id) == s ==>
      n.id in placed && placed[n.id] == ServiceSpot(pipeline, stages, feeds, n)
  }

  lemma OtherColumnsStay(pipeline: seq<Node>, stages: Stages, feeds: nat, s: nat, t: nat,
                         before: map<string, Pos>, after: map<string, Pos>)
    requires s != t && InPlace(pipeline, stages, feeds, t, before)
    requires Keeps(before, after, Column(pipeline, stages, s))
    ensures InPlace(pipeline, stages, feeds, t, after)
  {
  }

  method PlaceColumn(pipeline: seq<Node>, stages: Stages, feeds: nat, s: nat, col: nat, before: map<string, Pos>)
    returns (placed: map<string, Pos>)
    requires UniqueIds(pipeline) && col == Rank(UsedStages(pipeline, stages), s)
    ensures InPlace(pipeline, stages, feeds, s, placed)
    ensures Keeps(before, placed, Column(pipeline, stages, s))
  {
    OfStageKeepsIds(pipeline, stages, s);
    SortKeepsIds(ByY, OfStage(pipeline, stages, s));
    placed := Stack(Column(pipeline, stages, s), feeds, col, before);
  }

  method Stack(column: seq<Node>, feeds: nat, col: nat, before: map<string, Pos>) returns (placed: map<string, Pos>)
    requires UniqueIds(column)
    ensures forall k :: 0 <= k < |column| ==>
              column[k].id in placed && placed[column[k].id] == StageSpot(feeds, col, |column|, k)
    ensures Keeps(before, placed, column)
  {
    placed := before;
    for i := 0 to |column|
      invariant forall k :: 0 <= k < i ==>
                  column[k].id in placed && placed[column[k].id] == StageSpot(feeds, col, |column|, k)
      invariant Keeps(before, placed, column)
    {
      assert column[i] in column;
      placed := placed[column[i].id := StageSpot(feeds, col, |column|, i)];
    }
  }
}
