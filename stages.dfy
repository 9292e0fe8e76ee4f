/**
 * The stage: the grid of fields built from the stage props, the links between neighbouring
 * fields, the flattening `matrix` getter, the hand-out of spawn fields to users, and the user-move
 * step that the stage manager's key handler performs.
 */
module Stages {
  import opened Wrappers
  import opened Fields
  import opened Players
  import Controls

  /** The `size` prop: `maps` as [rows, cols] and `field` as [width, height], any entry may be missing. */
  datatype SizeProps = SizeProps(maps: Option<(nat, nat)>, fieldWidth: Option<int>, fieldHeight: Option<int>)

  /**
   * The props makeMatrix reads: the map size (`size.maps`, or [5, 5]), the field size
   * (`size.field`, either entry may be missing), the goal, spawn and wall coordinate lists as
   * [x, y] pairs, and whether a `size` prop was given at all (reading "size.field" throws otherwise).
   */
  datatype StageProps = StageProps(rows: nat, cols: nat, fieldWidth: Option<int>, fieldHeight: Option<int>,
                                   goal: seq<Point>, spawn: seq<Point>, wall: seq<Point>, sized: bool)

  /** The width every field of the stage gets (the Field constructor's fallback to 50). */
  function CellWidth(p: StageProps): int {
    Fallback(p.fieldWidth, 50)
  }

  function CellHeight(p: StageProps): int {
    Fallback(p.fieldHeight, 50)
  }

  /** The type of the field at column x, row y: goal before spawn before wall; road otherwise. */
  function KindOf(p: StageProps, x: int, y: int): (k: FieldType)
    ensures k != Init
    ensures k == Goal <==> Point(x, y) in p.goal
    ensures k == Spawn <==> Point(x, y) !in p.goal && Point(x, y) in p.spawn
    ensures k == Wall <==> Point(x, y) !in p.goal && Point(x, y) !in p.spawn && Point(x, y) in p.wall
    ensures k == Road <==> Point(x, y) !in p.goal && Point(x, y) !in p.spawn && Point(x, y) !in p.wall
  {
    var c := Point(x, y);
    if c in p.goal then Goal
    else if c in p.spawn then Spawn
    else if c in p.wall then Wall
    else Road
  }

  /** The corners makeMatrix gives the field at column x, row y. */
  function CornersOf(p: StageProps, x: int, y: int): (r: Corners)
  {
    var w, h := CellWidth(p), CellHeight(p);
    Corners(Point(w * x, h * y), Point(w * (x + 1), h * y), Point(w * (x + 1), h * (y + 1)), Point(w * x, h * (y + 1)))
  }

  /**
   * The field at column x, row y starts at x cell widths and y cell heights from the origin;
   * neighbouring fields share their edges, and each field is one cell size wide and high.
   */
  lemma CornersTile(p: StageProps, x: int, y: int)
    ensures CornersOf(p, x, y).p1 == Point(CellWidth(p) * x, CellHeight(p) * y)
    ensures CornersOf(p, x, y).p2 == CornersOf(p, x + 1, y).p1
    ensures CornersOf(p, x, y).p3 == CornersOf(p, x + 1, y).p4
    ensures CornersOf(p, x, y).p4 == CornersOf(p, x, y + 1).p1
    ensures CornersOf(p, x, y).p3 == CornersOf(p, x, y + 1).p2
    ensures CornersOf(p, x, y).p2.x - CornersOf(p, x, y).p1.x == CellWidth(p)
    ensures CornersOf(p, x, y).p4.y - CornersOf(p, x, y).p1.y == CellHeight(p)
  {
    var w, h := CellWidth(p), CellHeight(p);
    assert w * (x + 1) == w * x + w;
    assert h * (y + 1) == h * y + h;
  }

  /** `f` is what makeMatrix creates for column x, row y (the props fixed at construction). */
  predicate CellIs(f: Field, p: StageProps, x: int, y: int) {
    && f.index == y * p.cols + x
    && f.offset == Point(x, y)
    && f.kind == KindOf(p, x, y)
    && f.size == Size(CellWidth(p), CellHeight(p))
  }

  /** Every row of `m` has `p.cols` fields, and the field at row r, column c is the one for (c, r). */
  predicate Laid(m: seq<seq<Field>>, p: StageProps) {
    forall r :: 0 <= r < |m| ==> |m[r]| == p.cols && forall c :: 0 <= c < p.cols ==> CellIs(m[r][c], p, c, r)
  }

  /** The fields of a matrix. */
  function CellSet(m: seq<seq<Field>>): set<Field> {
    set r, c | 0 <= r < |m| && 0 <= c < |m[r]| :: m[r][c]
  }

  /** Every field of `m` has the corners of its position. */
  ghost predicate Placed(m: seq<seq<Field>>, p: StageProps)
    reads CellSet(m)
  {
    forall r, c :: 0 <= r < |m| && 0 <= c < |m[r]| ==> m[r][c].pos == CornersOf(p, c, r)
  }

  /** No field of `m` is linked to anything. */
  ghost predicate Unlinked(m: seq<seq<Field>>)
    reads CellSet(m)
  {
    forall r, c :: 0 <= r < |m| && 0 <= c < |m[r]| ==> m[r][c].link == NoLinks
  }

  // ---------------------------------------------------------------------------
  // Flattening: `matrix.reduce((prev, crnt) => [].concat(prev, crnt))`
  // ---------------------------------------------------------------------------

  /** The rows of `m` one after another. */
  function Flatten(m: seq<seq<Field>>): (r: seq<Field>)
  {
    if m == [] then [] else Flatten(m[..|m| - 1]) + m[|m| - 1]
  }

  /** In a matrix of rows of `cols` fields, the field at row r, column c sits at r*cols + c of the flattening. */
  lemma {:induction false} FlattenAt(m: seq<seq<Field>>, cols: nat, r: nat, c: nat)
    requires forall i :: 0 <= i < |m| ==> |m[i]| == cols
    requires r < |m| && c < cols
    ensures |Flatten(m)| == |m| * cols
    ensures r * cols + c < |Flatten(m)| && Flatten(m)[r * cols + c] == m[r][c]
    decreases |m|
  {
    var n := |m|;
    var init := m[..n - 1];
    FlattenLength(init, cols);
    assert Flatten(m) == Flatten(init) + m[n - 1];
    assert n * cols == (n - 1) * cols + cols;
    if r < n - 1 {
      FlattenAt(init, cols, r, c);
    } else {
      assert r * cols == (n - 1) * cols;
    }
  }

  /** A matrix of rows of `cols` fields flattens to |m| * cols fields. */
  lemma {:induction false} FlattenLength(m: seq<seq<Field>>, cols: nat)
    requires forall i :: 0 <= i < |m| ==> |m[i]| == cols
    ensures |Flatten(m)| == |m| * cols
    decreases |m|
  {
    if m != [] {
      FlattenLength(m[..|m| - 1], cols);
      assert |m| * cols == (|m| - 1) * cols + cols;
    }
  }

  /**
   * Flattening a laid-out matrix lists the fields in row-major order: the field at position i
   * has index i, lies inside the grid, and is the matrix entry at its own offset.
   */
  lemma {:induction false} FlattenLaid(m: seq<seq<Field>>, p: StageProps)
    requires Laid(m, p)
    ensures |Flatten(m)| == |m| * p.cols
    ensures forall i :: 0 <= i < |Flatten(m)| ==>
              && Flatten(m)[i].index == i
              && 0 <= Flatten(m)[i].offset.x < p.cols && 0 <= Flatten(m)[i].offset.y < |m|
              && Flatten(m)[i] == m[Flatten(m)[i].offset.y][Flatten(m)[i].offset.x]
    decreases |m|
  {
    if m != [] {
      var n := |m|;
      var init := m[..n - 1];
      FlattenLaid(init, p);
      var f := Flatten(m);
      assert f == Flatten(init) + m[n - 1];
      assert |f| == (n - 1) * p.cols + p.cols;
      forall i | 0 <= i < |f|
        ensures f[i].index == i && 0 <= f[i].offset.x < p.cols && 0 <= f[i].offset.y < n
        ensures f[i] == m[f[i].offset.y][f[i].offset.x]
      {
        if i >= (n - 1) * p.cols {
          var c := i - (n - 1) * p.cols;
          assert f[i] == m[n - 1][c];
        }
      }
    }
  }

  // ---------------------------------------------------------------------------
  // The per-type lists: goals, spawners, walls, roads
  // ---------------------------------------------------------------------------

  /** The fields of `s` of type `k`, in the order of `s`. */
  function OfKind(s: seq<Field>, k: FieldType): seq<Field> {
    if s == [] then []
    else OfKind(s[..|s| - 1], k) + (if s[|s| - 1].kind == k then [s[|s| - 1]] else [])
  }

  /** A field is in the list of type `k` exactly when it is in `s` and has type `k`. */
  lemma {:induction false} OfKindMembers(s: seq<Field>, k: FieldType, f: Field)
    ensures f in OfKind(s, k) <==> f in s && f.kind == k
  {
    if s != [] {
      var init, last := s[..|s| - 1], s[|s| - 1];
      OfKindMembers(init, k, f);
      assert s == init + [last];
    }
  }

  /** Indices strictly increase along the sequence. */
  predicate Increasing(s: seq<Field>) {
    forall i, j :: 0 <= i < j < |s| ==> s[i].index < s[j].index
  }

  /** Picking out fields keeps every index below a bound that all of `s` respects. */
  lemma {:induction false} OfKindBelow(s: seq<Field>, k: FieldType, b: int)
    requires forall i :: 0 <= i < |s| ==> s[i].index < b
    ensures forall i :: 0 <= i < |OfKind(s, k)| ==> OfKind(s, k)[i].index < b
  {
    if s != [] {
      var init := s[..|s| - 1];
      OfKindBelow(init, k, b);
    }
  }

  /** Picking out the fields of one type keeps the order. */
  lemma {:induction false} OfKindIncreasing(s: seq<Field>, k: FieldType)
    requires Increasing(s)
    ensures Increasing(OfKind(s, k))
  {
    if s != [] {
      var init, last := s[..|s| - 1], s[|s| - 1];
      OfKindIncreasing(init, k);
      OfKindBelow(init, k, last.index);
    }
  }

  /** Appending one field extends the list of its type by it and leaves the others alone. */
  lemma OfKindSnoc(s: seq<Field>, f: Field, k: FieldType)
    ensures OfKind(s + [f], k) == OfKind(s, k) + (if f.kind == k then [f] else [])
  {
    assert (s + [f])[..|s|] == s;
  }

  /** The four lists makeMatrix collects, in the order goals, spawners, walls, roads. */
  datatype Buckets = Buckets(goals: seq<Field>, spawners: seq<Field>, walls: seq<Field>, roads: seq<Field>)

  /** The four type lists of a scan. */
  function ByKind(s: seq<Field>): Buckets {
    Buckets(OfKind(s, Goal), OfKind(s, Spawn), OfKind(s, Wall), OfKind(s, Road))
  }

  /** makeMatrix's push of a new field: onto goals, spawners or walls by its type, else onto roads. */
  function Push(b: Buckets, f: Field): Buckets {
    if f.kind == Goal then b.(goals := b.goals + [f])
    else if f.kind == Spawn then b.(spawners := b.spawners + [f])
    else if f.kind == Wall then b.(walls := b.walls + [f])
    else b.(roads := b.roads + [f])
  }

  /** The four lists taken together. */
  function Contents(b: Buckets): multiset<Field> {
    multiset(b.goals) + multiset(b.spawners) + multiset(b.walls) + multiset(b.roads)
  }

  /** Scanning one more field that is not Init pushes it onto the lists of the scan so far. */
  lemma ByKindSnoc(s: seq<Field>, f: Field)
    requires f.kind != Init
    ensures ByKind(s + [f]) == Push(ByKind(s), f)
  {
    OfKindSnoc(s, f, Goal);
    OfKindSnoc(s, f, Spawn);
    OfKindSnoc(s, f, Wall);
    OfKindSnoc(s, f, Road);
  }

  /** A push adds the field to exactly one list. */
  lemma ContentsPush(b: Buckets, f: Field)
    ensures Contents(Push(b, f)) == Contents(b) + multiset{f}
  {
    var (g, sp, w, r) := (multiset(b.goals), multiset(b.spawners), multiset(b.walls), multiset(b.roads));
    if f.kind == Goal {
      assert multiset(b.goals + [f]) == g + multiset{f};
    } else if f.kind == Spawn {
      assert multiset(b.spawners + [f]) == sp + multiset{f};
    } else if f.kind == Wall {
      assert multiset(b.walls + [f]) == w + multiset{f};
    } else {
      assert multiset(b.roads + [f]) == r + multiset{f};
    }
  }

  /** Without Init fields, the four type lists together hold every field exactly as often as `s` does. */
  lemma {:induction false} OfKindPartition(s: seq<Field>)
    requires forall i :: 0 <= i < |s| ==> s[i].kind != Init
    ensures Contents(ByKind(s)) == multiset(s)
  {
    if s != [] {
      var init, last := s[..|s| - 1], s[|s| - 1];
      OfKindPartition(init);
      assert s == init + [last];
      ByKindSnoc(init, last);
      ContentsPush(ByKind(init), last);
    }
  }

  /**
   * The lists makeMatrix collects split the grid by type: together they hold each field once,
   * and each is in row-major (index) order.
   */
  lemma TypeListsPartition(m: seq<seq<Field>>, p: StageProps)
    requires Laid(m, p)
    ensures Contents(ByKind(Flatten(m))) == multiset(Flatten(m))
    ensures forall k :: Increasing(OfKind(Flatten(m), k))
  {
    var s := Flatten(m);
    FlattenLaid(m, p);
    forall k ensures Increasing(OfKind(s, k)) {
      OfKindIncreasing(s, k);
    }
    OfKindPartition(s);
  }

  // ---------------------------------------------------------------------------
  // Links: makeMatrixLink
  // ---------------------------------------------------------------------------

  /** `m` has `rows` rows of `cols` fields. */
  predicate Shaped(m: seq<seq<Field>>, rows: nat, cols: nat) {
    |m| == rows && forall r :: 0 <= r < rows ==> |m[r]| == cols
  }

  /** The links makeMatrixLink gives the field at column x, row y: the orthogonal neighbour inside the grid, else null. */
  function Neighbours(m: seq<seq<Field>>, p: StageProps, x: int, y: int): (r: Links)
    requires Shaped(m, p.rows, p.cols) && 0 <= x < p.cols && 0 <= y < p.rows
    ensures (r.up == null <==> y == 0) && (r.down == null <==> y == p.rows - 1)
    ensures (r.left == null <==> x == 0) && (r.right == null <==> x == p.cols - 1)
    ensures r.up != null ==> r.up == m[y - 1][x]
    ensures r.down != null ==> r.down == m[y + 1][x]
    ensures r.left != null ==> r.left == m[y][x - 1]
    ensures r.right != null ==> r.right == m[y][x + 1]
  {
    Links(if y > 0 then m[y - 1][x] else null,
          if y < p.rows - 1 then m[y + 1][x] else null,
          if x > 0 then m[y][x - 1] else null,
          if x < p.cols - 1 then m[y][x + 1] else null)
  }

  /** Every field of `m` carries the links of its position. */
  ghost predicate Linked(m: seq<seq<Field>>, p: StageProps)
    reads CellSet(m)
    requires Shaped(m, p.rows, p.cols)
  {
    forall r, c :: 0 <= r < p.rows && 0 <= c < p.cols ==> m[r][c].link == Neighbours(m, p, c, r)
  }

  /**
   * Links are mutual: A.RIGHT is B exactly when B.LEFT is A, and A.DOWN is B exactly when B.UP is A.
   * (Walls are linked like any field, and nothing wraps around the edges.)
   */
  lemma NeighboursMutual(m: seq<seq<Field>>, p: StageProps, x: int, y: int, x': int, y': int)
    requires Shaped(m, p.rows, p.cols) && Laid(m, p)
    requires 0 <= x < p.cols && 0 <= y < p.rows && 0 <= x' < p.cols && 0 <= y' < p.rows
    ensures Neighbours(m, p, x, y).right == m[y'][x'] <==> Neighbours(m, p, x', y').left == m[y][x]
    ensures Neighbours(m, p, x, y).down == m[y'][x'] <==> Neighbours(m, p, x', y').up == m[y][x]
  {
    var a, b := m[y][x], m[y'][x'];
    assert a.offset == Point(x, y) && b.offset == Point(x', y');
    if x < p.cols - 1 { assert m[y][x + 1].offset == Point(x + 1, y); }
    if y < p.rows - 1 { assert m[y + 1][x].offset == Point(x, y + 1); }
    if x' > 0 { assert m[y'][x' - 1].offset == Point(x' - 1, y'); }
    if y' > 0 { assert m[y' - 1][x'].offset == Point(x', y' - 1); }
  }

  /** What the `matrix` getter returns: the flattened fields when there is more than one row, else the matrix itself. */
  datatype View = Rows(rows: seq<seq<Field>>) | Cells(cells: seq<Field>)

  function MatrixView(m: seq<seq<Field>>): (r: View)
    ensures |m| <= 1 ==> r == Rows(m)
    ensures |m| > 1 ==> r.Cells?
  {
    if |m| > 1 then Cells(Flatten(m)) else Rows(m)
  }

  /**
   * With more than one row the getter lists the field at row r, column c at position r*cols + c;
   * with zero or one row it hands back the matrix unflattened.
   */
  lemma MatrixViewRowMajor(m: seq<seq<Field>>, cols: nat, r: nat, c: nat)
    requires forall i :: 0 <= i < |m| ==> |m[i]| == cols
    requires r < |m| && c < cols
    ensures |m| <= 1 ==> MatrixView(m) == Rows(m)
    ensures |m| > 1 ==> MatrixView(m).Cells? && |MatrixView(m).cells| == |m| * cols
    ensures |m| > 1 ==> r * cols + c < |MatrixView(m).cells| && MatrixView(m).cells[r * cols + c] == m[r][c]
  {
    FlattenAt(m, cols, r, c);
  }

  // ---------------------------------------------------------------------------
  // Spawn assignment
  // ---------------------------------------------------------------------------

  /** The spawner that handing out `spawners` to `users[..n]` in order last gave to `u`, if any. */
  function AssignedSpawn(users: seq<Player>, spawners: seq<Field>, u: Player, n: nat): (r: Option<Field>)
    requires n <= |users|
    ensures r.Some? ==> u in users[..n] && r.value in spawners
  {
    if n == 0 then None
    else if users[n - 1] == u && n - 1 < |spawners| then Some(spawners[n - 1])
    else AssignedSpawn(users, spawners, u, n - 1)
  }

  /** With distinct users, the k-th user gets the k-th spawner when there is one, and none otherwise. */
  lemma {:induction false} DistinctUsersSpawn(users: seq<Player>, spawners: seq<Field>, k: nat, n: nat)
    requires forall i, j :: 0 <= i < j < |users| ==> users[i] != users[j]
    requires k < |users| && n <= |users|
    ensures AssignedSpawn(users, spawners, users[k], n) == if k < n && k < |spawners| then Some(spawners[k]) else None
  {
    if n > 0 {
      DistinctUsersSpawn(users, spawners, k, n - 1);
    }
  }

  /** A user that does not occur in the list is never handed a spawner. */
  lemma {:induction false} AbsentUserSpawn(users: seq<Player>, spawners: seq<Field>, u: Player, n: nat)
    requires n <= |users| && u !in users
    ensures AssignedSpawn(users, spawners, u, n) == None
  {
    if n > 0 {
      AbsentUserSpawn(users, spawners, u, n - 1);
    }
  }

  /**
   * The body of makeMatrix's inner loop for column c, row r: a new field of the type the props
   * give that cell, with index `idx`, placed at its corners (its own size times its column and row).
   */
  method NewCell(p: StageProps, c: int, r: int, idx: int) returns (f: Field)
    requires idx == r * p.cols + c
    ensures fresh(f) && CellIs(f, p, c, r)
    ensures f.pos == CornersOf(p, c, r) && f.link == NoLinks
  {
    var kind := KindOf(p, c, r);
    f := new Field(Some(kind), Some(idx), Some(c), Some(r), p.fieldWidth, p.fieldHeight);
    var fw, fh := f.size.width, f.size.height;
    f.SetPos(Point(fw * c, fh * r), Point(fw * (c + 1), fh * r),
             Point(fw * (c + 1), fh * (r + 1)), Point(fw * c, fh * (r + 1)));
  }

  /** The fields of `row` have the corners of their places in row r and no links. */
  ghost predicate RowPlaced(row: seq<Field>, p: StageProps, r: int)
    reads set f | f in row
  {
    forall c :: 0 <= c < |row| ==> row[c].pos == CornersOf(p, c, r) && row[c].link == NoLinks
  }

  /**
   * One step of makeMatrix's inner loop: the new field for column c of row r joins the row and
   * the list of its type.
   */
  method AddCell(p: StageProps, c: nat, r: nat, idx: int, ghost seen: seq<Field>, row: seq<Field>, lists: Buckets)
    returns (f: Field, row': seq<Field>, lists': Buckets)
    requires idx == r * p.cols + c && |row| == c
    requires (forall cc :: 0 <= cc < c ==> CellIs(row[cc], p, cc, r)) && RowPlaced(row, p, r)
    requires lists == ByKind(seen + row)
    ensures fresh(f) && row' == row + [f] && f.size == Size(CellWidth(p), CellHeight(p))
    ensures (forall cc :: 0 <= cc <= c ==> CellIs(row'[cc], p, cc, r)) && RowPlaced(row', p, r)
    ensures lists' == ByKind(seen + row')
  {
    f := NewCell(p, c, r, idx);
    ByKindSnoc(seen + row, f);
    lists' := Push(lists, f);
    assert seen + (row + [f]) == (seen + row) + [f];
    row' := row + [f];
  }

  /**
   * One pass of makeMatrix's inner loop: the fields of row r, created left to right with indices
   * from `mIdx`, each added to the list of its type; the row's widths are added to `wd` on the
   * first row only, and the first field's height to `ht`.
   */
  method LayRow(p: StageProps, r: nat, mIdx: int, ghost seen: seq<Field>, lists: Buckets, wd: int, ht: int)
    returns (row: seq<Field>, lists': Buckets, wd': int, ht': int)
    requires mIdx == r * p.cols
    requires lists == ByKind(seen)
    ensures |row| == p.cols
    ensures forall c :: 0 <= c < p.cols ==> CellIs(row[c], p, c, r)
    ensures RowPlaced(row, p, r) && forall c :: 0 <= c < p.cols ==> fresh(row[c])
    ensures lists' == ByKind(seen + row)
    ensures wd' == wd + (if r == 0 then p.cols * CellWidth(p) else 0)
    ensures ht' == ht + (if p.cols > 0 then CellHeight(p) else 0)
  {
    row, lists', wd', ht' := [], lists, wd, ht;
    var idx := mIdx;
    var c := 0;
    assert seen + row == seen;
    while c < p.cols
      invariant 0 <= c <= p.cols && |row| == c
      invariant idx == mIdx + c
      invariant forall cc :: 0 <= cc < c ==> CellIs(row[cc], p, cc, r)
      invariant RowPlaced(row, p, r) && forall cc :: 0 <= cc < c ==> fresh(row[cc])
      invariant lists' == ByKind(seen + row)
      invariant r == 0 ==> wd' == wd + c * CellWidth(p)
      invariant r != 0 ==> wd' == wd
      invariant ht' == ht + (if c > 0 then CellHeight(p) else 0)
    {
      var f;
      f, row, lists' := AddCell(p, c, r, idx, seen, row, lists');
      var fw, fh := f.size.width, f.size.height;
      idx := idx + 1;
      if r == 0 {
        assert (c + 1) * CellWidth(p) == c * CellWidth(p) + CellWidth(p);
        wd' := wd' + fw;
      }
      if c == 0 {
        ht' := ht' + fh;
      }
      c := c + 1;
    }
  }

  /**
   * A rows x cols matrix of laid-out, placed fields, with the total width (the first row's
   * widths), the total height (the first column's heights) and the four type lists in scan order.
   */
  ghost predicate Grid(m: seq<seq<Field>>, p: StageProps, lists: Buckets, wd: int, ht: int)
    reads CellSet(m)
  {
    && |m| == p.rows && Laid(m, p) && Placed(m, p)
    && wd == (if p.rows > 0 then p.cols * CellWidth(p) else 0)
    && ht == (if p.cols > 0 then p.rows * CellHeight(p) else 0)
    && lists == ByKind(Flatten(m))
  }

  /** Appending the fields makeMatrix creates for the next row keeps the matrix laid out, and its flattening grows by that row. */
  lemma LaidSnoc(m: seq<seq<Field>>, row: seq<Field>, p: StageProps)
    requires Laid(m, p) && |row| == p.cols
    requires forall c :: 0 <= c < p.cols ==> CellIs(row[c], p, c, |m|)
    ensures Laid(m + [row], p) && Flatten(m + [row]) == Flatten(m) + row
  {
    assert (m + [row])[..|m|] == m;
  }

  /**
   * makeMatrix's two loops (run by LayGrid), restated as one Grid fact: the rows x cols matrix of
   * new fields in scan order, the four type lists, the total width (the first row's widths) and
   * the total height (the first column's heights).
   */
  method LayRows(p: StageProps)
    returns (m: seq<seq<Field>>, lists: Buckets, wd: int, ht: int)
    ensures Grid(m, p, lists, wd, ht) && Unlinked(m)
    ensures forall f :: f in CellSet(m) ==> fresh(f)
  {
    m, lists, wd, ht := LayGrid(p);
  }

  /** The two layout loops, with the new fields' freshness, corners and links stated row by row. */
  method LayGrid(p: StageProps)
    returns (m: seq<seq<Field>>, lists: Buckets, wd: int, ht: int)
    ensures |m| == p.rows && Laid(m, p) && lists == ByKind(Flatten(m))
    ensures wd == (if p.rows > 0 then p.cols * CellWidth(p) else 0)
    ensures ht == (if p.cols > 0 then p.rows * CellHeight(p) else 0)
    ensures forall r :: 0 <= r < p.rows ==> RowPlaced(m[r], p, r)
    ensures forall r, c :: 0 <= r < p.rows && 0 <= c < p.cols ==> fresh(m[r][c])
  {
    lists := Buckets([], [], [], []);
    wd, ht := 0, 0;
    var mIdx := 0;
    m := [];
    var r := 0;
    while r < p.rows
      invariant 0 <= r <= p.rows && |m| == r && Laid(m, p)
      invariant forall rr :: 0 <= rr < r ==> RowPlaced(m[rr], p, rr)
      invariant forall rr, cc :: 0 <= rr < r && 0 <= cc < p.cols ==> fresh(m[rr][cc])
      invariant lists == ByKind(Flatten(m))
      invariant mIdx == r * p.cols
      invariant wd == (if r > 0 then p.cols * CellWidth(p) else 0)
      invariant ht == (if p.cols > 0 then r * CellHeight(p) else 0)
    {
      var row;
      row, lists, wd, ht := LayRow(p, r, mIdx, Flatten(m), lists, wd, ht);
      LaidSnoc(m, row, p);
      assert (r + 1) * CellHeight(p) == r * CellHeight(p) + CellHeight(p);
      assert (r + 1) * p.cols == r * p.cols + p.cols;
      m := m + [row];
      mIdx := mIdx + p.cols;
      r := r + 1;
    }
  }

  /** `f` lies inside the grid and carries the links of its offset. */
  ghost predicate LinkedCell(m: seq<seq<Field>>, p: StageProps, f: Field)
    reads f
  {
    && Shaped(m, p.rows, p.cols)
    && 0 <= f.offset.x < p.cols && 0 <= f.offset.y < p.rows
    && f.link == Neighbours(m, p, f.offset.x, f.offset.y)
  }

  /** Linking every field of the flattening by its offset links every cell of the matrix. */
  lemma LinkedByScan(m: seq<seq<Field>>, p: StageProps)
    requires |m| == p.rows && Laid(m, p)
    requires forall j :: 0 <= j < |Flatten(m)| ==> LinkedCell(m, p, Flatten(m)[j])
    ensures Linked(m, p)
  {
    forall r, c | 0 <= r < p.rows && 0 <= c < p.cols
      ensures m[r][c].link == Neighbours(m, p, c, r)
    {
      FlattenAt(m, p.cols, r, c);
    }
  }

  /** One step of makeMatrixLink's pass: the links of the field at its offset, null past the edges. */
  method LinkField(m: seq<seq<Field>>, p: StageProps, field: Field)
    requires |m| == p.rows && Laid(m, p)
    requires 0 <= field.offset.x < p.cols && 0 <= field.offset.y < p.rows
    requires field == m[field.offset.y][field.offset.x]
    modifies field
    ensures LinkedCell(m, p, field) && field.pos == old(field.pos)
  {
    var maxX, maxY := p.cols - 1, p.rows - 1;
    var x, y := field.offset.x, field.offset.y;
    var up, down, left, right: Field? := null, null, null, null;
    if x > 0 { left := m[y][x - 1]; }
    if x < maxX { right := m[y][x + 1]; }
    if y > 0 { up := m[y - 1][x]; }
    if y < maxY { down := m[y + 1][x]; }
    field.SetLink(up, down, left, right);
  }

  /**
   * makeMatrixLink's pass over the flattened matrix: each field, in scan order, gets as links the
   * fields beside it inside the grid (null past the edges, where MAX_X = cols - 1, MAX_Y = rows - 1).
   */
  method LinkAll(m: seq<seq<Field>>, p: StageProps)
    requires |m| == p.rows && Laid(m, p)
    modifies CellSet(m)
    ensures Linked(m, p)
    ensures forall f :: f in CellSet(m) ==> f.pos == old(f.pos)
  {
    var flat := Flatten(m);
    FlattenLaid(m, p);
    var k := 0;
    while k < |flat|
      invariant 0 <= k <= |flat|
      invariant forall j :: 0 <= j < k ==> LinkedCell(m, p, flat[j])
      invariant forall f :: f in CellSet(m) ==> f.pos == old(f.pos)
    {
      LinkField(m, p, flat[k]);
      k := k + 1;
    }
    LinkedByScan(m, p);
  }

  /**
   * After the hand-out, `u` stands on the spawner it was given and has its offset, or, given none,
   * still has the field and offset it had before.
   */
  predicate SpawnedAs(u: Player, given: Option<Field>, field: Field?, offset: Point)
    reads u
  {
    match given
    case Some(f) => u.field == f && u.offset == f.offset
    case None => u.field == field && u.offset == offset
  }

  class Stage {
    const props: StageProps
    /** `props.users` */
    const users: seq<Player>
    /** `state.maps.matrix`: rows of fields */
    var matrix: seq<seq<Field>>
    /** `state.maps.width` and `state.maps.height` */
    var width: int
    var height: int
    /** `state.insts.spawners`, `goals`, `walls`, `roads` */
    var spawners: seq<Field>
    var goals: seq<Field>
    var walls: seq<Field>
    var roads: seq<Field>

    /**
     * `new Stage(props)`: the map size is `size.maps`, or [5, 5] when there is no `size` or it
     * has no `maps`; the maps and lists start empty.
     */
    constructor(size: Option<SizeProps>, goal: seq<Point>, spawn: seq<Point>, wall: seq<Point>, users: seq<Player>)
      ensures size.Some? && size.value.maps.Some? ==> props.rows == size.value.maps.value.0 && props.cols == size.value.maps.value.1
      ensures (size.None? || size.value.maps.None?) ==> props.rows == 5 && props.cols == 5
      ensures props.sized <==> size.Some?
      ensures props.fieldWidth == (if size.Some? then size.value.fieldWidth else None)
      ensures props.fieldHeight == (if size.Some? then size.value.fieldHeight else None)
      ensures props.goal == goal && props.spawn == spawn && props.wall == wall
      ensures this.users == users
      ensures matrix == [] && width == 0 && height == 0
      ensures spawners == [] && goals == [] && walls == [] && roads == []
    {
      var maps := if size.Some? && size.value.maps.Some? then size.value.maps.value else (5, 5);
      props := StageProps(maps.0, maps.1, if size.Some? then size.value.fieldWidth else None,
                          if size.Some? then size.value.fieldHeight else None, goal, spawn, wall, size.Some?);
      this.users := users;
      matrix, width, height := [], 0, 0;
      spawners, goals, walls, roads := [], [], [], [];
    }

    /**
     * What makeMatrix leaves behind: a rows x cols matrix of laid-out, placed fields, the total
     * width (the first row's widths) and height (the first column's heights), and the four type
     * lists in scan order.
     */
    ghost predicate Built()
      reads this, CellSet(matrix)
    {
      Grid(matrix, props, Buckets(goals, spawners, walls, roads), width, height)
    }

    /** The `matrix` getter. */
    function Matrix(): (r: View)
      reads this
      ensures r == MatrixView(matrix)
    {
      MatrixView(matrix)
    }

    /** makeMatrix past its reads: the loops' grid, sizes and type lists become the stage's state. */
    method StoreGrid() returns (m: seq<seq<Field>>)
      modifies this
      ensures m == matrix && Built() && Unlinked(m)
      ensures forall f :: f in CellSet(m) ==> fresh(f)
    {
      var lists, wd, ht;
      m, lists, wd, ht := LayRows(props);
      matrix, width, height := m, wd, ht;
      spawners, goals, walls, roads := lists.spawners, lists.goals, lists.walls, lists.roads;
    }

    /**
     * `makeMatrix()`: a fresh matrix of new, unlinked fields, stored together with the sizes and
     * type lists. Without a `size` prop it throws at its first read and changes nothing.
     */
    method MakeMatrix() returns (ok: bool, m: seq<seq<Field>>)
      modifies this
      ensures ok <==> props.sized
      ensures ok ==> m == matrix && Built() && Unlinked(m)
      ensures ok ==> forall f :: f in CellSet(m) ==> fresh(f)
      ensures !ok ==> unchanged(this)
    {
      if !props.sized {
        return false, [];
      }
      m := StoreGrid();
      ok := true;
    }

    /**
     * `makeMatrixLink()`: builds a new matrix with makeMatrix and links every field to its
     * orthogonal neighbours. It throws (`ok` is false) when makeMatrix does, and when there are
     * no rows, because flattening an empty matrix with `reduce` throws; the new (empty) matrix
     * then stays unlinked.
     */
    method MakeMatrixLink() returns (ok: bool)
      modifies this
      ensures ok <==> props.sized && props.rows > 0
      ensures props.sized ==> Built() && (forall f :: f in CellSet(matrix) ==> fresh(f))
      ensures ok ==> Linked(matrix, props)
      ensures props.sized && !ok ==> Unlinked(matrix)
      ensures !props.sized ==> unchanged(this)
    {
      var built, m := MakeMatrix();
      if !built || |m| == 0 {
        return false;
      }
      LinkAll(m, props);
      ok := true;
    }

    /**
     * init's hand-out of spawn fields: a copy of the spawner list is shifted once per user in
     * order, and a user that receives a spawner stands on it and takes its offset.
     */
    method AssignSpawns()
      modifies users
      ensures old(Built() && Linked(matrix, props)) ==> Built() && Linked(matrix, props)
      ensures forall u :: u in users ==>
        SpawnedAs(u, AssignedSpawn(users, spawners, u, |users|), old(u.field), old(u.offset))
      ensures forall u :: u in users ==> u.stat == old(u.stat) && u.armour == old(u.armour)
    {
      var queue := spawners;
      var n := 0;
      while n < |users|
        invariant 0 <= n <= |users|
        invariant queue == if n < |spawners| then spawners[n..] else []
        invariant forall u :: u in users ==> SpawnedAs(u, AssignedSpawn(users, spawners, u, n), old(u.field), old(u.offset))
        invariant forall u :: u in users ==> u.stat == old(u.stat) && u.armour == old(u.armour)
      {
        var user := users[n];
        if queue != [] {
          var spawn := queue[0];
          queue := queue[1..];
          user.SetField(spawn);
          user.SetOffset(spawn.offset.x, spawn.offset.y);
        }
        n := n + 1;
      }
    }

    /**
     * `init()`: makeMatrix, then makeMatrixLink (which builds the matrix afresh), then the
     * spawn hand-out. Without a `size` prop the first makeMatrix throws and nothing changes; with
     * no rows makeMatrixLink throws and init stops there (`ok` is false either way).
     */
    method Init() returns (ok: bool)
      modifies this, users
      ensures ok <==> props.sized && props.rows > 0
      ensures props.sized ==> Built()
      ensures !props.sized ==> unchanged(this)
      ensures ok ==> Linked(matrix, props)
      ensures ok ==> forall u :: u in users ==>
        SpawnedAs(u, AssignedSpawn(users, spawners, u, |users|), old(u.field), old(u.offset))
      ensures !ok ==> forall u :: u in users ==> u.field == old(u.field) && u.offset == old(u.offset)
      ensures forall u :: u in users ==> u.stat == old(u.stat) && u.armour == old(u.armour)
    {
      var built, _ := MakeMatrix();
      if !built {
        return false;
      }
      ok := MakeMatrixLink();
      if ok {
        AssignSpawns();
      }
    }
  }

  /**
   * The step the stage manager's key handler performs for a command: the link of the user's
   * field in that direction. Null stands for every case where the handler throws instead (no
   * field, ACTION or UNKNOWN, no neighbour that way).
   */
  function Step(from: Field?, vector: Controls.Command): (to: Field?)
    reads from
    ensures to != null ==> from != null
    ensures vector == Controls.Action || vector == Controls.Unknown ==> to == null
    ensures from != null && vector == Controls.Up ==> to == from.link.up
    ensures from != null && vector == Controls.Down ==> to == from.link.down
    ensures from != null && vector == Controls.Left ==> to == from.link.left
    ensures from != null && vector == Controls.Right ==> to == from.link.right
  {
    if from == null then null
    else match vector
      case Up => from.link.Get(Fields.Up)
      case Down => from.link.Get(Fields.Down)
      case Left => from.link.Get(Fields.Left)
      case Right => from.link.Get(Fields.Right)
      case _ => null
  }

  /**
   * The key handler: the user moves onto the neighbouring field in the pressed direction and
   * takes its offset. Where the handler throws, `moved` is false and nothing changes.
   */
  method MoveUser(u: Player, vector: Controls.Command) returns (moved: bool)
    modifies u
    ensures moved <==> old(Step(u.field, vector)) != null
    ensures moved ==> u.field == old(Step(u.field, vector)) && u.offset == u.field.offset
    ensures !moved ==> u.field == old(u.field) && u.offset == old(u.offset)
    ensures u.stat == old(u.stat) && u.armour == old(u.armour)
  {
    var prevField := u.field;
    if prevField == null {
      return false;
    }
    var nextField: Field?;
    match vector {
      case Up => nextField := prevField.link.up;
      case Down => nextField := prevField.link.down;
      case Left => nextField := prevField.link.left;
      case Right => nextField := prevField.link.right;
      case _ => return false;
    }
    if nextField == null {
      return false;
    }
    u.SetField(nextField);
    moved := true;
  }
}
