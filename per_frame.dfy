/**
 * `dump_as_cvat_annotation`: the image mode. One `image` element per frame,
 * in input order, holding one element per shape, in input order, each
 * holding one `attribute` element per shape attribute, in input order.
 */
module PerFrame {
  import opened Wrappers
  import opened Events
  import opened Text
  import opened Output
  import opened XmlWriter
  import opened Annotation

  /** The `image` start tag's attributes: id, name, width, height. */
  function ImageAttrs(f: FrameAnnotation): Attrs
  {
    [("id", IntText(f.frame)), ("name", f.name), ("width", IntText(f.width)), ("height", IntText(f.height))]
  }

  /** The image's attributes are id, name, width, height, and read back as the frame's. */
  lemma ImageAttrsSpec(f: FrameAnnotation)
    ensures Names(ImageAttrs(f)) == ["id", "name", "width", "height"]
    ensures ParseInt(ImageAttrs(f)[0].1) == Some(f.frame) && ImageAttrs(f)[1].1 == f.name
    ensures ParseInt(ImageAttrs(f)[2].1) == Some(f.width) && ParseInt(ImageAttrs(f)[3].1) == Some(f.height)
  {
    IntTextRoundTrip(f.frame);
    IntTextRoundTrip(f.width);
    IntTextRoundTrip(f.height);
  }

  /** A shape's start-tag attributes in image mode (`dump_data`). */
  function ShapeAttrs(s: Shape, task: TaskSettings): Result<Attrs>
  {
    match Geometry(s)
    case Err(e) => Err(e)
    case Ok(g) => Ok([("label", s.labelName), ("occluded", BoolText(s.occluded))] + g + ZOrderAttrs(s, task) + GroupAttrs(s))
  }

  /** A shape's whole element in image mode, or why it cannot be written. */
  function ShapeResult(s: Shape, task: TaskSettings): Result<Node>
  {
    match ShapeAttrs(s, task)
    case Err(e) => Err(e)
    case Ok(attrs) => ShapeNode(s, attrs)
  }

  function ShapeResults(shapes: seq<Shape>, task: TaskSettings): (r: seq<Result<Node>>)
    ensures |r| == |shapes|
  {
    seq(|shapes|, j requires 0 <= j < |shapes| => ShapeResult(shapes[j], task))
  }

  /** What one frame writes: its `image` element, cut short at the first shape that fails. */
  function FrameEmission(f: FrameAnnotation, task: TaskSettings): Emission
  {
    Wrap("image", ImageAttrs(f), Chain(NodeEmissions(ShapeResults(f.shapes, task))))
  }

  function FrameEmissions(frames: seq<FrameAnnotation>, task: TaskSettings): (r: seq<Emission>)
    ensures |r| == |frames|
  {
    seq(|frames|, i requires 0 <= i < |frames| => FrameEmission(frames[i], task))
  }

  /** Everything the image mode writes, up to the first failure. */
  function AnnotationOutput(frames: seq<FrameAnnotation>, task: TaskSettings): Emission
  {
    Chain(FrameEmissions(frames, task))
  }

  // ---------------------------------------------------------------------------
  // The document the image mode is meant to write

  predicate FrameEncodable(f: FrameAnnotation, task: TaskSettings)
  {
    AllOk(ShapeResults(f.shapes, task))
  }

  predicate Encodable(frames: seq<FrameAnnotation>, task: TaskSettings)
  {
    forall i :: 0 <= i < |frames| ==> FrameEncodable(frames[i], task)
  }

  function ImageNode(f: FrameAnnotation, task: TaskSettings): Node
    requires FrameEncodable(f, task)
  {
    Element("image", ImageAttrs(f), Values(ShapeResults(f.shapes, task)))
  }

  function ImageNodes(frames: seq<FrameAnnotation>, task: TaskSettings): (r: seq<Node>)
    requires Encodable(frames, task)
    ensures |r| == |frames|
  {
    seq(|frames|, i requires 0 <= i < |frames| && Encodable(frames, task) => ImageNode(frames[i], task))
  }

  /** One image per frame in input order, holding one shape element per shape in input order. */
  lemma ImageNodesSpec(frames: seq<FrameAnnotation>, task: TaskSettings)
    requires Encodable(frames, task)
    ensures forall i :: 0 <= i < |frames| ==>
              var n := ImageNodes(frames, task)[i];
              && n.Element? && n.name == "image" && n.attrs == ImageAttrs(frames[i])
              && |n.children| == |frames[i].shapes|
              && forall j :: 0 <= j < |frames[i].shapes| ==>
                   ShapeResult(frames[i].shapes[j], task).Ok? && n.children[j] == ShapeResult(frames[i].shapes[j], task).value
  {
    forall i | 0 <= i < |frames|
      ensures var n := ImageNodes(frames, task)[i];
              && n.Element? && n.name == "image" && n.attrs == ImageAttrs(frames[i])
              && |n.children| == |frames[i].shapes|
              && forall j :: 0 <= j < |frames[i].shapes| ==>
                   ShapeResult(frames[i].shapes[j], task).Ok? && n.children[j] == ShapeResult(frames[i].shapes[j], task).value
    {
      var rs := ShapeResults(frames[i].shapes, task);
      assert FrameEncodable(frames[i], task);
      assert ImageNodes(frames, task)[i].children == Values(rs);
      forall j | 0 <= j < |frames[i].shapes|
        ensures rs[j].Ok? && Values(rs)[j] == ShapeResult(frames[i].shapes[j], task).value
      {
      }
    }
  }

  /** The start-tag attributes exist when the geometry does: label, occluded, the geometry, then the optional ones. */
  lemma ShapeAttrsSpec(s: Shape, task: TaskSettings)
    ensures ShapeAttrs(s, task).Ok? <==> Geometry(s).Ok?
    ensures ShapeAttrs(s, task).Err? ==> ShapeAttrs(s, task).failure == Geometry(s).failure
    ensures ShapeAttrs(s, task).Ok? ==>
              var attrs := ShapeAttrs(s, task).value;
              && Names(attrs) == ["label", "occluded"] + GeometryNames(s.kind)
                                 + (if task.zOrder != "False" then ["z_order"] else [])
                                 + (if s.group != 0 then ["group_id"] else [])
              && attrs[0].1 == s.labelName && attrs[1].1 == BoolText(s.occluded)
              && attrs[2..2 + |Geometry(s).value|] == Geometry(s).value
  {
    if Geometry(s).Ok? {
      var g := Geometry(s).value;
      var head: Attrs := [("label", s.labelName), ("occluded", BoolText(s.occluded))];
      var z, gr := ZOrderAttrs(s, task), GroupAttrs(s);
      var attrs := head + g + z + gr;
      assert ShapeAttrs(s, task).value == attrs;
      assert Names(attrs) == ["label", "occluded"] + GeometryNames(s.kind)
                             + (if task.zOrder != "False" then ["z_order"] else [])
                             + (if s.group != 0 then ["group_id"] else []) by {
        assert Names(head) == ["label", "occluded"];
        GeometryAttrsNames(head, s, task);
        NamesAppend(head + g + z, gr);
        assert Names(gr) == (if s.group != 0 then ["group_id"] else []);
      }
      MiddleSlice(head, g, z, gr);
    }
  }

  /**
   * A shape can be written exactly when its type is known and, for a
   * rectangle, it has four coordinates. Its element is then the type's tag
   * with the attributes label, occluded, the geometry, z_order when the task
   * enables it and group_id when the shape has a group, in that order, and
   * one `attribute` child per shape attribute, in order.
   */
  lemma ShapeResultSpec(s: Shape, task: TaskSettings)
    ensures ShapeResult(s, task).Ok? <==> ElementName(s.kind).Some? && (s.kind == "rectangle" ==> |s.points| >= 4)
    ensures ShapeResult(s, task).Err? ==>
              ShapeResult(s, task).failure ==
                (if s.kind == "rectangle" then MissingCoordinate(|s.points|) else UnknownShapeType(s.kind))
    ensures ShapeResult(s, task).Ok? ==>
              var n := ShapeResult(s, task).value;
              && n.Element? && n.name == ElementName(s.kind).value
              && Names(n.attrs) == ["label", "occluded"] + GeometryNames(s.kind)
                                   + (if task.zOrder != "False" then ["z_order"] else [])
                                   + (if s.group != 0 then ["group_id"] else [])
              && n.attrs[0].1 == s.labelName && n.attrs[1].1 == BoolText(s.occluded)
              && n.attrs[2..2 + |Geometry(s).value|] == Geometry(s).value
              && n.children == AttributeNodes(s.attributes)
  {
    ShapeAttrsSpec(s, task);
    assert Geometry(s).Ok? <==> s.kind != "rectangle" || |s.points| >= 4;
    if ShapeAttrs(s, task).Ok? {
      assert ShapeResult(s, task) == ShapeNode(s, ShapeAttrs(s, task).value);
    }
  }

  /**
   * The image mode succeeds exactly when every shape can be written, and
   * then it writes the image elements of `ImageNodes`.
   */
  lemma AnnotationOutputSucceeds(frames: seq<FrameAnnotation>, task: TaskSettings)
    ensures AnnotationOutput(frames, task).failure.None? <==> Encodable(frames, task)
    ensures Encodable(frames, task) ==> AnnotationOutput(frames, task).events == SerializeAll(ImageNodes(frames, task))
  {
    var parts := FrameEmissions(frames, task);
    forall i | 0 <= i < |frames|
      ensures parts[i].failure.None? <==> FrameEncodable(frames[i], task)
      ensures FrameEncodable(frames[i], task) ==> parts[i].events == Serialize(ImageNode(frames[i], task))
    {
      NodesSucceed(ShapeResults(frames[i].shapes, task));
    }
    ChainSucceeds(parts);
    if Encodable(frames, task) {
      FlatSerialize(parts, ImageNodes(frames, task));
    }
  }

  /**
   * When shape j of frame i is the first that cannot be written, the output
   * holds the complete images before frame i, the start of frame i's image
   * and its complete shapes before j, and nothing of shape j.
   */
  lemma AnnotationOutputFirstFailure(frames: seq<FrameAnnotation>, task: TaskSettings, i: nat, j: nat)
    requires i < |frames| && j < |frames[i].shapes|
    requires Encodable(frames[..i], task)
    requires AllOk(ShapeResults(frames[i].shapes[..j], task))
    requires ShapeResult(frames[i].shapes[j], task).Err?
    ensures AnnotationOutput(frames, task) ==
              Emission(SerializeAll(ImageNodes(frames[..i], task)) + [Start("image", ImageAttrs(frames[i]))]
                         + SerializeAll(Values(ShapeResults(frames[i].shapes[..j], task))),
                       Some(ShapeResult(frames[i].shapes[j], task).failure))
  {
    var parts := FrameEmissions(frames, task);
    var before := SerializeAll(ImageNodes(frames[..i], task));
    var started := [Start("image", ImageAttrs(frames[i]))] + SerializeAll(Values(ShapeResults(frames[i].shapes[..j], task)));
    assert NoFailure(parts[..i]) && Flat(parts[..i]) == before by {
      assert parts[..i] == FrameEmissions(frames[..i], task);
      AnnotationOutputSucceeds(frames[..i], task);
      ChainSucceeds(parts[..i]);
    }
    assert parts[i] == Emission(started, Some(ShapeResult(frames[i].shapes[j], task).failure)) by {
      FrameFirstFailure(frames[i], task, j);
    }
    ChainFirstFailure(parts, i);
    AppendAssoc(before, [Start("image", ImageAttrs(frames[i]))], SerializeAll(Values(ShapeResults(frames[i].shapes[..j], task))));
  }

  /** Within one frame: the image's start tag, the complete shapes before j, nothing of shape j, no end tag. */
  lemma FrameFirstFailure(f: FrameAnnotation, task: TaskSettings, j: nat)
    requires j < |f.shapes|
    requires AllOk(ShapeResults(f.shapes[..j], task))
    requires ShapeResult(f.shapes[j], task).Err?
    ensures FrameEmission(f, task) ==
              Emission([Start("image", ImageAttrs(f))] + SerializeAll(Values(ShapeResults(f.shapes[..j], task))),
                       Some(ShapeResult(f.shapes[j], task).failure))
  {
    var rs := ShapeResults(f.shapes, task);
    assert rs[..j] == ShapeResults(f.shapes[..j], task);
    NodesFirstFailure(rs, j);
  }

  // ---------------------------------------------------------------------------
  // The encoder

  /** Builds `dump_data` for one shape, or the error reading its corners raises. */
  method ShapeData(s: Shape, task: TaskSettings) returns (r: Result<Attrs>)
    ensures r == ShapeAttrs(s, task)
  {
    var data: Attrs := [("label", s.labelName), ("occluded", BoolText(s.occluded))];
    ghost var head := data;
    if s.kind == "rectangle" {
      if |s.points| < 4 {
        return Err(MissingCoordinate(|s.points|));
      }
      data := data + [("xtl", FixedText(s.points[0])), ("ytl", FixedText(s.points[1])),
                      ("xbr", FixedText(s.points[2])), ("ybr", FixedText(s.points[3]))];
    } else {
      data := data + [("points", PointsText(s.points))];
    }
    assert data == head + Geometry(s).value;
    if task.zOrder != "False" {
      data := data + [("z_order", IntText(s.zOrder))];
    }
    if s.group != 0 {
      data := data + [("group_id", IntText(s.group))];
    }
    assert data == head + Geometry(s).value + ZOrderAttrs(s, task) + GroupAttrs(s);
    return Ok(data);
  }

  /** The body of the shape loop: build `dump_data`, then open, attributes, close. */
  method DumpShape(w: XmlAnnotationWriter, s: Shape, task: TaskSettings) returns (failure: Option<Failure>)
    requires w.Valid()
    modifies w
    ensures w.Valid() && w.stack == old(w.stack) && w.level == old(w.level)
    ensures w.events == old(w.events) + NodeEmission(ShapeResult(s, task)).events
    ensures failure == NodeEmission(ShapeResult(s, task)).failure
  {
    var data := ShapeData(s, task);
    if data.Err? {
      return Some(data.failure);
    }
    failure := WriteShape(w, s, data.value);
  }

  /** The shape loop of one frame, stopping at the first shape that fails. */
  method DumpShapes(w: XmlAnnotationWriter, shapes: seq<Shape>, task: TaskSettings) returns (failure: Option<Failure>)
    requires w.Valid()
    modifies w
    ensures w.Valid() && w.stack == old(w.stack) && w.level == old(w.level)
    ensures w.events == old(w.events) + Chain(NodeEmissions(ShapeResults(shapes, task))).events
    ensures failure == Chain(NodeEmissions(ShapeResults(shapes, task))).failure
  {
    failure := None;
    ghost var parts := NodeEmissions(ShapeResults(shapes, task));
    var j := 0;
    while j < |shapes|
      invariant 0 <= j <= |shapes|
      invariant w.Valid() && w.stack == old(w.stack) && w.level == old(w.level)
      invariant w.events == old(w.events) + Chain(parts[..j]).events
      invariant Chain(parts[..j]).failure.None? && failure.None?
    {
      failure := DumpShape(w, shapes[j], task);
      ChainExtend(old(w.events), parts, j);
      if failure.Some? {
        ChainStops(parts, j + 1);
        return;
      }
      j := j + 1;
    }
    assert parts[..j] == parts;
  }

  /** `dump_as_cvat_annotation`: writes the image mode's output, stopping at the first failure. */
  method DumpAsAnnotation(w: XmlAnnotationWriter, frames: seq<FrameAnnotation>, task: TaskSettings)
    returns (failure: Option<Failure>)
    requires w.Valid()
    modifies w
    ensures w.Valid()
    ensures w.events == old(w.events) + AnnotationOutput(frames, task).events
    ensures failure == AnnotationOutput(frames, task).failure
    ensures failure.None? ==> w.stack == old(w.stack) && w.level == old(w.level)
    ensures failure.Some? ==> w.stack == old(w.stack) + ["image"] && w.level == old(w.level) + 1
  {
    failure := None;
    ghost var frameParts := FrameEmissions(frames, task);
    var i := 0;
    while i < |frames|
      invariant 0 <= i <= |frames|
      invariant w.Valid() && w.stack == old(w.stack) && w.level == old(w.level)
      invariant w.events == old(w.events) + Chain(frameParts[..i]).events
      invariant Chain(frameParts[..i]).failure.None? && failure.None?
    {
      var f := frames[i];
      w.OpenElement("image", [("id", IntText(f.frame)), ("name", f.name),
                              ("width", IntText(f.width)), ("height", IntText(f.height))]);
      failure := DumpShapes(w, f.shapes, task);
      ghost var shapesOut := Chain(NodeEmissions(ShapeResults(f.shapes, task)));
      assert frameParts[i] == Wrap("image", ImageAttrs(f), shapesOut);
      WrapExtend(old(w.events) + Chain(frameParts[..i]).events, "image", ImageAttrs(f), shapesOut);
      ChainExtend(old(w.events), frameParts, i);
      if failure.Some? {
        ChainStops(frameParts, i + 1);
        return;
      }
      w.CloseElement("image");
      i := i + 1;
    }
    assert frameParts[..i] == frameParts;
  }
}
