/** One cell of the stage grid (`Field` and its subclasses Road, Spawn, Wall and Goal). */
module Fields {
  import opened Wrappers

  /** The `type` prop; "init" is the default of a bare Field. */
  datatype FieldType = Init | Road | Spawn | Wall | Goal

  datatype Point = Point(x: int, y: int)

  datatype Size = Size(width: int, height: int)

  /** The four corners p1..p4, clockwise from the top left. */
  datatype Corners = Corners(p1: Point, p2: Point, p3: Point, p4: Point)

  /** The keys of a field's `link` object. */
  datatype Direction = Up | Down | Left | Right

  /** A field's `link` object: the neighbouring field in each direction, or null. */
  datatype Links = Links(up: Field?, down: Field?, left: Field?, right: Field?) {
    function Get(d: Direction): Field? {
      match d
      case Up => up
      case Down => down
      case Left => left
      case Right => right
    }
  }

  const NoLinks: Links := Links(null, null, null, null)

  /** `o || d` on a number that may be missing: `d` when `o` is missing or 0, otherwise `o`. */
  function Fallback(o: Option<int>, d: int): (r: int)
    ensures o == None || o == Some(0) ==> r == d
    ensures o.Some? && o.value != 0 ==> r == o.value
    ensures d != 0 ==> r != 0
  {
    match o
    case None => d
    case Some(v) => if v == 0 then d else v
  }

  /** The rectangle of the given size with its top-left corner at the origin. */
  function Box(s: Size): Corners {
    Corners(Point(0, 0), Point(s.width, 0), Point(s.width, s.height), Point(0, s.height))
  }

  class Field {
    const kind: FieldType
    const index: int
    const offset: Point
    const size: Size
    var pos: Corners
    var link: Links

    /**
     * `new Field(props)`: the type defaults to Init and the index to 0, a missing offset
     * coordinate to 0, a missing or zero width or height to 50; the corners start as the
     * box at the origin and every link is null.
     */
    constructor(kind: Option<FieldType>, index: Option<int>, x: Option<int>, y: Option<int>,
                width: Option<int>, height: Option<int>)
      ensures this.kind == (if kind.Some? then kind.value else Init)
      ensures this.index == Fallback(index, 0)
      ensures offset == Point(if x.Some? then x.value else 0, if y.Some? then y.value else 0)
      ensures size == Size(Fallback(width, 50), Fallback(height, 50))
      ensures size.width != 0 && size.height != 0
      ensures pos == Box(size)
      ensures link == NoLinks
    {
      this.kind := if kind.Some? then kind.value else Init;
      this.index := Fallback(index, 0);
      offset := Point(if x.Some? then x.value else 0, if y.Some? then y.value else 0);
      var s := Size(Fallback(width, 50), Fallback(height, 50));
      size := s;
      pos := Box(s);
      link := NoLinks;
    }

    /** `setPos(p1, p2, p3, p4)` */
    method SetPos(p1: Point, p2: Point, p3: Point, p4: Point)
      modifies this
      ensures pos == Corners(p1, p2, p3, p4)
      ensures link == old(link)
    {
      pos := Corners(p1, p2, p3, p4);
    }

    /** `setLink(UP, DOWN, LEFT, RIGHT)` */
    method SetLink(up: Field?, down: Field?, left: Field?, right: Field?)
      modifies this
      ensures link == Links(up, down, left, right)
      ensures pos == old(pos)
    {
      link := Links(up, down, left, right);
    }
  }
}
