/**
 * The dump entry point: a writer over the output file, the root element with
 * the format version, the task's meta, then the image mode when the format
 * name is "cvat_annotation" and the track mode for every other name, then the
 * end of the root element. A failure in either mode ends the dump with the
 * root element still open.
 */
module Dump {
  import opened Wrappers
  import opened Events
  import opened Output
  import opened XmlWriter
  import opened Annotation
  import PerFrame
  import Interpolation

  /** Whether the format name selects the image mode. */
  predicate IsImageMode(format: string)
  {
    format == "cvat_annotation"
  }

  /** What the chosen mode writes inside the root element. */
  function ModeOutput(format: string, frames: seq<FrameAnnotation>, task: TaskSettings): Emission
  {
    if IsImageMode(format) then PerFrame.AnnotationOutput(frames, task)
    else Interpolation.InterpolationOutput(frames, task)
  }

  function MetaNode(meta: seq<MetaEntry>): Node
  {
    Element("meta", [], MetaNodes(meta))
  }

  /** Everything the dump writes: root, version, meta, the mode's output, and the root's end tag when the mode succeeds. */
  function DocumentOutput(format: string, frames: seq<FrameAnnotation>, meta: seq<MetaEntry>, task: TaskSettings): Emission
  {
    var body := ModeOutput(format, frames, task);
    Wrap("annotations", [], Emission(Serialize(VersionNode("1.1")) + Serialize(MetaNode(meta)) + body.events, body.failure))
  }

  predicate ModeEncodable(format: string, frames: seq<FrameAnnotation>, task: TaskSettings)
  {
    if IsImageMode(format) then PerFrame.Encodable(frames, task) else Interpolation.Encodable(frames, task)
  }

  function ModeNodes(format: string, frames: seq<FrameAnnotation>, task: TaskSettings): seq<Node>
    requires ModeEncodable(format, frames, task)
  {
    if IsImageMode(format) then PerFrame.ImageNodes(frames, task) else Interpolation.TrackNodes(frames, task)
  }

  /** The document the dump is meant to write. */
  function DocumentNode(format: string, frames: seq<FrameAnnotation>, meta: seq<MetaEntry>, task: TaskSettings): Node
    requires ModeEncodable(format, frames, task)
  {
    Element("annotations", [], [VersionNode("1.1"), MetaNode(meta)] + ModeNodes(format, frames, task))
  }

  /** The chosen mode succeeds exactly when it can write every shape, and then writes the elements of `ModeNodes`. */
  lemma ModeSucceeds(format: string, frames: seq<FrameAnnotation>, task: TaskSettings)
    ensures ModeOutput(format, frames, task).failure.None? <==> ModeEncodable(format, frames, task)
    ensures ModeEncodable(format, frames, task) ==>
              ModeOutput(format, frames, task).events == SerializeAll(ModeNodes(format, frames, task))
  {
    if IsImageMode(format) {
      PerFrame.AnnotationOutputSucceeds(frames, task);
    } else {
      Interpolation.InterpolationOutputSucceeds(frames, task);
    }
  }

  /**
   * The dump succeeds exactly when the chosen mode can write every shape,
   * and then it writes one complete document: the root element holding the
   * version, the meta and the mode's elements.
   */
  lemma DocumentSucceeds(format: string, frames: seq<FrameAnnotation>, meta: seq<MetaEntry>, task: TaskSettings)
    ensures DocumentOutput(format, frames, meta, task).failure.None? <==> ModeEncodable(format, frames, task)
    ensures ModeEncodable(format, frames, task) ==>
              && DocumentOutput(format, frames, meta, task).events == Serialize(DocumentNode(format, frames, meta, task))
              && WellFormed(DocumentOutput(format, frames, meta, task).events)
  {
    ModeSucceeds(format, frames, task);
    if ModeEncodable(format, frames, task) {
      RootOfBody(meta, ModeOutput(format, frames, task), ModeNodes(format, frames, task));
    }
  }

  /** The root element around the version, the meta and a body that writes `ns` is the element holding all of them. */
  lemma RootOfBody(meta: seq<MetaEntry>, body: Emission, ns: seq<Node>)
    requires body.failure.None? && body.events == SerializeAll(ns)
    ensures var doc := Element("annotations", [], [VersionNode("1.1"), MetaNode(meta)] + ns);
            && Wrap("annotations", [], Emission(Serialize(VersionNode("1.1")) + Serialize(MetaNode(meta)) + body.events, None))
                 == Emission(Serialize(doc), None)
            && WellFormed(Serialize(doc))
  {
    var head := [VersionNode("1.1"), MetaNode(meta)];
    assert SerializeAll(head + ns) == Serialize(VersionNode("1.1")) + Serialize(MetaNode(meta)) + body.events by {
      SerializeAllAppend(head, ns);
      assert SerializeAll(head) == Serialize(VersionNode("1.1")) + Serialize(MetaNode(meta)) by {
        assert head[1..][1..] == [];
      }
    }
    WrapSucceeds("annotations", [], Emission(Serialize(VersionNode("1.1")) + Serialize(MetaNode(meta)) + body.events, None), head + ns);
    ElementIsDocument(Element("annotations", [], head + ns));
  }

  /** With no frames, either mode writes a complete document holding just the version and the meta. */
  lemma EmptyDocument(format: string, meta: seq<MetaEntry>, task: TaskSettings)
    ensures DocumentOutput(format, [], meta, task) ==
              Emission(Serialize(Element("annotations", [], [VersionNode("1.1"), MetaNode(meta)])), None)
  {
    var head := [VersionNode("1.1"), MetaNode(meta)];
    assert SerializeAll(head) == Serialize(VersionNode("1.1")) + Serialize(MetaNode(meta)) by {
      assert head[1..][1..] == [];
    }
    assert Interpolation.Tracks([]) == [];
  }

  lemma RootAssoc(version: seq<Event>, meta: seq<Event>, body: seq<Event>)
    ensures [] + [Start("annotations", [])] + version + meta + body == [Start("annotations", [])] + (version + meta + body)
    ensures [] + [Start("annotations", [])] + version + meta + body + [End("annotations")]
              == [Start("annotations", [])] + (version + meta + body) + [End("annotations")]
  {
  }

  /** The module's top level: open the root, add the meta, run the mode the format selects, close the root. */
  method Dump(format: string, frames: seq<FrameAnnotation>, meta: seq<MetaEntry>, task: TaskSettings)
    returns (w: XmlAnnotationWriter, failure: Option<Failure>)
    ensures w.Valid()
    ensures w.events == DocumentOutput(format, frames, meta, task).events
    ensures failure == DocumentOutput(format, frames, meta, task).failure
    ensures failure.None? ==> w.level == 0 && WellFormed(w.events)
    ensures failure.Some? ==> w.level == 2 && !WellFormed(w.events)
  {
    w := new XmlAnnotationWriter();
    ghost var version := Serialize(VersionNode("1.1"));
    ghost var metaEvents := Serialize(MetaNode(meta));
    w.OpenRoot();
    assert w.events == [] + [Start("annotations", [])] + version;
    w.AddMeta(meta);
    ghost var prefix := w.events;
    assert prefix == [] + [Start("annotations", [])] + version + metaEvents;
    if format == "cvat_annotation" {
      failure := PerFrame.DumpAsAnnotation(w, frames, task);
    } else {
      failure := Interpolation.DumpAsInterpolation(w, frames, task);
    }
    ghost var body := ModeOutput(format, frames, task);
    assert w.events == prefix + body.events;
    RootAssoc(version, metaEvents, body.events);
    if failure.Some? {
      return;
    }
    w.CloseRoot();
  }
}
