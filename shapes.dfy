/**
 * The annotation records the dumper reads, and the parts of a shape's
 * element that both encoding modes build the same way: the geometry
 * attributes, the optional `z_order` and `group_id` attributes, the element
 * chosen by the shape type, and the `attribute` children.
 */
module Annotation {
  import opened Wrappers
  import opened Events
  import opened Text
  import opened Pairing
  import opened Output
  import opened XmlWriter

  datatype Attribute = Attribute(name: string, value: string)

  /**
   * One annotated shape. `points` is the flat coordinate list in hundredths;
   * `trackId` is -1 for a shape outside every track; `group` is 0 for a
   * shape in no group. `outside` and `keyframe` are read in track mode only.
   */
  datatype Shape = Shape(kind: string, labelName: string, occluded: bool, points: seq<int>, trackId: int,
                         group: int, zOrder: int, outside: bool, keyframe: bool, attributes: seq<Attribute>)

  datatype FrameAnnotation = FrameAnnotation(frame: int, name: string, width: int, height: int, shapes: seq<Shape>)

  /** The two task settings the encoders read: `meta["task"]["z_order"]` and the number in `meta["task"]["stop_frame"]`. */
  datatype TaskSettings = TaskSettings(zOrder: string, stopFrame: int)

  function Names(attrs: Attrs): (r: seq<string>)
    ensures |r| == |attrs|
  {
    seq(|attrs|, i requires 0 <= i < |attrs| => attrs[i].0)
  }

  lemma NamesAppend(a: Attrs, b: Attrs)
    ensures Names(a + b) == Names(a) + Names(b)
  {
  }

  /** The attributes `b` sit right after `a` in `a + b + c + d`. */
  lemma MiddleSlice(a: Attrs, b: Attrs, c: Attrs, d: Attrs)
    ensures (a + b + c + d)[|a|..|a| + |b|] == b
  {
    assert a + b + c + d == a + (b + (c + d));
  }

  // ---------------------------------------------------------------------------
  // Geometry

  /** One point as the image mode writes it: `','.join((x, y))`. */
  function PairText(x: int, y: int): string
  {
    Join([FixedText(x), FixedText(y)], ',')
  }

  /** The `points` attribute: the points of `pairwise(points)`, separated by ';'. */
  function PointsText(points: seq<int>): string
  {
    var ps := Pairwise(points);
    Join(seq(|ps|, i requires 0 <= i < |ps| => PairText(ps[i].0, ps[i].1)), ';')
  }

  /** The track mode's rendering of the same attribute: `'{:.2f},{:.2f}'.format(x, y)` per point. */
  function FormattedPointsText(points: seq<int>): string
  {
    var ps := Pairwise(points);
    Join(seq(|ps|, i requires 0 <= i < |ps| => FixedText(ps[i].0) + "," + FixedText(ps[i].1)), ';')
  }

  /**
   * The geometry attributes: the four corners of a rectangle (reading
   * `points[0]` to `points[3]`, an `IndexError` when there are fewer), and a
   * single `points` attribute for every other type.
   */
  function Geometry(s: Shape): Result<Attrs>
  {
    if s.kind == "rectangle" then
      if |s.points| < 4 then Err(MissingCoordinate(|s.points|))
      else Ok([("xtl", FixedText(s.points[0])), ("ytl", FixedText(s.points[1])),
               ("xbr", FixedText(s.points[2])), ("ybr", FixedText(s.points[3]))])
    else Ok([("points", PointsText(s.points))])
  }

  function GeometryNames(kind: string): seq<string>
  {
    if kind == "rectangle" then ["xtl", "ytl", "xbr", "ybr"] else ["points"]
  }

  /** `z_order` is written unless the task setting is the text "False". */
  function ZOrderAttrs(s: Shape, task: TaskSettings): Attrs
  {
    if task.zOrder != "False" then [("z_order", IntText(s.zOrder))] else []
  }

  /** `group_id` is written exactly for a shape that has a (non-zero) group. */
  function GroupAttrs(s: Shape): Attrs
  {
    if s.group != 0 then [("group_id", IntText(s.group))] else []
  }

  /** z_order: present exactly when enabled, and it reads back as the shape's z_order. */
  lemma ZOrderAttrsSpec(s: Shape, task: TaskSettings)
    ensures |ZOrderAttrs(s, task)| <= 1
    ensures ZOrderAttrs(s, task) != [] <==> task.zOrder != "False"
    ensures ZOrderAttrs(s, task) != [] ==>
              ZOrderAttrs(s, task)[0].0 == "z_order" && ParseInt(ZOrderAttrs(s, task)[0].1) == Some(s.zOrder)
  {
    IntTextRoundTrip(s.zOrder);
  }

  /** group_id: present exactly for a grouped shape, and it reads back as the group. */
  lemma GroupAttrsSpec(s: Shape)
    ensures |GroupAttrs(s)| <= 1
    ensures GroupAttrs(s) != [] <==> s.group != 0
    ensures GroupAttrs(s) != [] ==> GroupAttrs(s)[0].0 == "group_id" && ParseInt(GroupAttrs(s)[0].1) == Some(s.group)
  {
    IntTextRoundTrip(s.group);
  }

  /** The names of `head`, then the geometry, then z_order when enabled. */
  lemma GeometryAttrsNames(head: Attrs, s: Shape, task: TaskSettings)
    requires Geometry(s).Ok?
    ensures Names(head + Geometry(s).value + ZOrderAttrs(s, task)) ==
              Names(head) + GeometryNames(s.kind) + (if task.zOrder != "False" then ["z_order"] else [])
  {
    var g, z := Geometry(s).value, ZOrderAttrs(s, task);
    NamesAppend(head + g, z);
    NamesAppend(head, g);
    assert Names(g) == GeometryNames(s.kind) by { GeometryRoundTrip(s); }
    assert Names(z) == (if task.zOrder != "False" then ["z_order"] else []);
  }

  /**
   * The group test as written, `"group" in shape and shape.group`. A shape
   * is a named tuple, so `in` asks whether "group" is one of its VALUES;
   * only its text fields can equal that string.
   */
  function GroupAttrsAsWritten(s: Shape): Attrs
  {
    if (s.kind == "group" || s.labelName == "group") && s.group != 0 then [("group_id", IntText(s.group))] else []
  }

  /** As written, a grouped shape whose type and label are not the text "group" gets no `group_id`. */
  lemma GroupIdLostAsWritten(s: Shape)
    requires s.group != 0 && s.kind != "group" && s.labelName != "group"
    ensures GroupAttrsAsWritten(s) == [] && GroupAttrs(s) != []
  {
  }

  /** The element each known shape type is written as. */
  function ElementName(kind: string): (r: Option<string>)
    ensures r.Some? <==> kind == "rectangle" || kind == "polygon" || kind == "polyline" || kind == "points"
    ensures kind == "rectangle" ==> r == Some("box")
    ensures kind != "rectangle" && r.Some? ==> r.value == kind
  {
    if kind == "rectangle" then Some("box")
    else if kind == "polygon" then Some("polygon")
    else if kind == "polyline" then Some("polyline")
    else if kind == "points" then Some("points")
    else None
  }

  function AttributeNodes(attrs: seq<Attribute>): (r: seq<Node>)
    ensures |r| == |attrs|
  {
    seq(|attrs|, i requires 0 <= i < |attrs| => AttributeNode(attrs[i].name, attrs[i].value))
  }

  /** The shape's element: its type's tag, the given attributes, one `attribute` child per shape attribute. */
  function ShapeNode(s: Shape, attrs: Attrs): Result<Node>
  {
    match ElementName(s.kind)
    case None => Err(UnknownShapeType(s.kind))
    case Some(tag) => Ok(Element(tag, attrs, AttributeNodes(s.attributes)))
  }

  // ---------------------------------------------------------------------------
  // Reading the geometry back

  function ParsePair(t: string): Option<(int, int)>
  {
    var fields := Split(t, ',');
    if |fields| != 2 then None
    else match (ParseFixed(fields[0]), ParseFixed(fields[1]))
      case (Some(x), Some(y)) => Some((x, y))
      case _ => None
  }

  function ParsePairs(parts: seq<string>): Option<seq<(int, int)>>
  {
    if parts == [] then Some([])
    else match (ParsePairs(parts[..|parts| - 1]), ParsePair(parts[|parts| - 1]))
      case (Some(ps), Some(p)) => Some(ps + [p])
      case _ => None
  }

  /** Reads a `points` attribute back into the flat coordinate list. */
  function ParsePoints(t: string): Option<seq<int>>
  {
    if t == "" then Some([])
    else match ParsePairs(Split(t, ';'))
      case Some(ps) => Some(Flatten(ps))
      case None => None
  }

  lemma PairTextRoundTrip(x: int, y: int)
    ensures PairText(x, y) == FixedText(x) + "," + FixedText(y)
    ensures ';' !in PairText(x, y)
    ensures ParsePair(PairText(x, y)) == Some((x, y))
  {
    var fx, fy := FixedText(x), FixedText(y);
    assert PairText(x, y) == fx + [','] + fy by {
      assert [fx, fy][..1] == [fx];
    }
    assert Split(fx + [','] + fy, ',') == [fx, fy] by {
      FixedTextHasNoSeparator(x, ',');
      FixedTextHasNoSeparator(y, ',');
      SplitJoin([fx, fy], ',');
      assert [fx, fy][..1] == [fx];
    }
    assert ParseFixed(fx) == Some(x) && ParseFixed(fy) == Some(y) by {
      FixedTextRoundTrip(x);
      FixedTextRoundTrip(y);
    }
    assert ';' !in fx + [','] + fy by {
      FixedTextHasNoSeparator(x, ';');
      FixedTextHasNoSeparator(y, ';');
    }
  }

  function PairTexts(ps: seq<(int, int)>): (r: seq<string>)
    ensures |r| == |ps|
  {
    seq(|ps|, i requires 0 <= i < |ps| => PairText(ps[i].0, ps[i].1))
  }

  lemma {:induction false} ParsePairTexts(ps: seq<(int, int)>)
    ensures ParsePairs(PairTexts(ps)) == Some(ps)
    decreases |ps|
  {
    if ps != [] {
      var n := |ps| - 1;
      var texts := PairTexts(ps);
      assert ParsePairs(texts[..n]) == Some(ps[..n]) by {
        assert texts[..n] == PairTexts(ps[..n]);
        ParsePairTexts(ps[..n]);
      }
      assert ParsePair(texts[n]) == Some(ps[n]) by {
        assert texts[n] == PairText(ps[n].0, ps[n].1);
        PairTextRoundTrip(ps[n].0, ps[n].1);
      }
      assert ps[..n] + [ps[n]] == ps;
    }
  }

  /** The `points` attribute reads back as the coordinates, less a trailing odd one. */
  lemma PointsTextRoundTrip(points: seq<int>)
    ensures ParsePoints(PointsText(points)) == Some(points[..|points| / 2 * 2])
  {
    var ps := Pairwise(points);
    var texts := PairTexts(ps);
    assert PointsText(points) == Join(texts, ';');
    FlattenPairwise(points);
    if ps == [] {
      assert points[..|points| / 2 * 2] == [];
    } else {
      forall i | 0 <= i < |texts| ensures ';' !in texts[i] {
        PairTextRoundTrip(ps[i].0, ps[i].1);
      }
      PairTextRoundTrip(ps[|ps| - 1].0, ps[|ps| - 1].1);
      SplitJoin(texts, ';');
      ParsePairTexts(ps);
    }
  }

  /** Both modes write the same `points` text. */
  lemma PointsTextInBothModes(points: seq<int>)
    ensures FormattedPointsText(points) == PointsText(points)
  {
    var ps := Pairwise(points);
    forall i | 0 <= i < |ps| ensures PairText(ps[i].0, ps[i].1) == FixedText(ps[i].0) + "," + FixedText(ps[i].1) {
      PairTextRoundTrip(ps[i].0, ps[i].1);
    }
    assert PairTexts(ps) == seq(|ps|, i requires 0 <= i < |ps| => FixedText(ps[i].0) + "," + FixedText(ps[i].1));
  }

  lemma CornersRoundTrip(points: seq<int>)
    requires |points| >= 4
    ensures && ParseFixed(FixedText(points[0])) == Some(points[0]) && ParseFixed(FixedText(points[1])) == Some(points[1])
            && ParseFixed(FixedText(points[2])) == Some(points[2]) && ParseFixed(FixedText(points[3])) == Some(points[3])
  {
    FixedTextRoundTrip(points[0]);
    FixedTextRoundTrip(points[1]);
    FixedTextRoundTrip(points[2]);
    FixedTextRoundTrip(points[3]);
  }

  /**
   * The geometry attributes read back as the shape's coordinates: the four
   * corners of a rectangle, in order, or every complete point of the others.
   */
  lemma GeometryRoundTrip(s: Shape)
    ensures Geometry(s).Ok? <==> s.kind != "rectangle" || |s.points| >= 4
    ensures Geometry(s).Ok? ==> Names(Geometry(s).value) == GeometryNames(s.kind)
    ensures Geometry(s).Ok? && s.kind == "rectangle" ==>
              var g := Geometry(s).value;
              && ParseFixed(g[0].1) == Some(s.points[0]) && ParseFixed(g[1].1) == Some(s.points[1])
              && ParseFixed(g[2].1) == Some(s.points[2]) && ParseFixed(g[3].1) == Some(s.points[3])
    ensures Geometry(s).Ok? && s.kind != "rectangle" ==>
              ParsePoints(Geometry(s).value[0].1) == Some(s.points[..|s.points| / 2 * 2])
  {
    if s.kind == "rectangle" {
      if |s.points| >= 4 {
        var g := Geometry(s).value;
        assert Names(g) == ["xtl", "ytl", "xbr", "ybr"] by {
          assert |Names(g)| == 4;
          assert Names(g)[0] == "xtl" && Names(g)[1] == "ytl" && Names(g)[2] == "xbr" && Names(g)[3] == "ybr";
        }
        CornersRoundTrip(s.points);
      }
    } else {
      var g := Geometry(s).value;
      assert g == [("points", PointsText(s.points))];
      assert Names(g) == ["points"] by {
        assert |Names(g)| == 1 && Names(g)[0] == "points";
      }
      PointsTextRoundTrip(s.points);
    }
  }

  // ---------------------------------------------------------------------------
  // Writer calls shared by both modes

  /** The `open_*` dispatch on the shape type; an unknown type raises before anything is written. */
  method OpenShape(w: XmlAnnotationWriter, kind: string, attrs: Attrs) returns (failure: Option<Failure>)
    requires w.Valid()
    modifies w
    ensures w.Valid()
    ensures failure.None? <==> ElementName(kind).Some?
    ensures failure.Some? ==>
              && failure == Some(UnknownShapeType(kind))
              && w.events == old(w.events) && w.stack == old(w.stack) && w.level == old(w.level)
    ensures failure.None? ==>
              && w.events == old(w.events) + [Start(ElementName(kind).value, attrs)]
              && w.stack == old(w.stack) + [ElementName(kind).value] && w.level == old(w.level) + 1
  {
    failure := None;
    if kind == "rectangle" {
      w.OpenElement("box", attrs);
    } else if kind == "polygon" {
      w.OpenElement("polygon", attrs);
    } else if kind == "polyline" {
      w.OpenElement("polyline", attrs);
    } else if kind == "points" {
      w.OpenElement("points", attrs);
    } else {
      failure := Some(UnknownShapeType(kind));
    }
  }

  /** The `close_*` dispatch, for a shape whose element `OpenShape` started. */
  method CloseShape(w: XmlAnnotationWriter, kind: string)
    requires w.Valid() && ElementName(kind).Some?
    requires w.stack != [] && w.stack[|w.stack| - 1] == ElementName(kind).value
    modifies w
    ensures w.Valid()
    ensures w.events == old(w.events) + [End(ElementName(kind).value)]
    ensures w.stack == old(w.stack)[..|old(w.stack)| - 1] && w.level == old(w.level) - 1
  {
    if kind == "rectangle" {
      w.CloseElement("box");
    } else if kind == "polygon" {
      w.CloseElement("polygon");
    } else if kind == "polyline" {
      w.CloseElement("polyline");
    } else if kind == "points" {
      w.CloseElement("points");
    }
  }

  /** One `add_attribute` call per shape attribute, in order. */
  method AddAttributes(w: XmlAnnotationWriter, attrs: seq<Attribute>)
    requires w.Valid()
    modifies w
    ensures w.Valid() && w.stack == old(w.stack) && w.level == old(w.level)
    ensures w.events == old(w.events) + SerializeAll(AttributeNodes(attrs))
  {
    var k := 0;
    while k < |attrs|
      invariant 0 <= k <= |attrs|
      invariant w.Valid() && w.stack == old(w.stack) && w.level == old(w.level)
      invariant w.events == old(w.events) + SerializeAll(AttributeNodes(attrs)[..k])
    {
      w.AddAttribute(attrs[k].name, attrs[k].value);
      assert AttributeNodes(attrs)[..k + 1] == AttributeNodes(attrs)[..k] + [AttributeNode(attrs[k].name, attrs[k].value)];
      SerializeAllSnoc(AttributeNodes(attrs)[..k], AttributeNode(attrs[k].name, attrs[k].value));
      k := k + 1;
    }
    assert AttributeNodes(attrs)[..k] == AttributeNodes(attrs);
  }

  /** Open the shape's element with the given attributes, add its `attribute` children, close it. */
  method WriteShape(w: XmlAnnotationWriter, s: Shape, attrs: Attrs) returns (failure: Option<Failure>)
    requires w.Valid()
    modifies w
    ensures w.Valid() && w.stack == old(w.stack) && w.level == old(w.level)
    ensures w.events == old(w.events) + NodeEmission(ShapeNode(s, attrs)).events
    ensures failure == NodeEmission(ShapeNode(s, attrs)).failure
  {
    failure := OpenShape(w, s.kind, attrs);
    if failure.Some? {
      return;
    }
    ghost var tag := ElementName(s.kind).value;
    AddAttributes(w, s.attributes);
    CloseShape(w, s.kind);
    assert w.events == old(w.events) + Serialize(Element(tag, attrs, AttributeNodes(s.attributes)));
  }
}
