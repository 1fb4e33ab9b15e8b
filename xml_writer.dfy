/**
 * `XmlAnnotationWriter`: a writer of nested elements over an XML generator.
 * It counts the indentation depth in `level`; every `open_*` call starts an
 * element and deepens the level, every `close_*` call undoes both. The
 * generator is modelled by the event stream it receives (`events`), and the
 * ghost `stack` names the elements that are open in that stream.
 */
module XmlWriter {
  import opened Wrappers
  import opened Events

  /**
   * A value under a meta key: text, a nested ordered mapping, or a list of
   * (key, value) pairs, which is written as repeated sibling elements.
   */
  datatype MetaValue = Scalar(text: string) | Mapping(entries: seq<MetaEntry>) | PairList(items: seq<MetaEntry>)

  datatype MetaEntry = MetaEntry(key: string, value: MetaValue)

  /** The elements `_add_meta` writes for an ordered mapping, one per key, in order. */
  function MetaNodes(entries: seq<MetaEntry>): (r: seq<Node>)
    ensures |r| == |entries|
    ensures forall i :: 0 <= i < |r| ==> r[i].Element? && r[i].name == entries[i].key && r[i].attrs == []
    decreases entries
  {
    seq(|entries|, i requires 0 <= i < |entries| => EntryNode(entries[i]))
  }

  function EntryNode(e: MetaEntry): Node
    decreases e
  {
    Element(e.key, [],
      match e.value
      case Scalar(t) => [Text(t)]
      case Mapping(es) => MetaNodes(es)
      case PairList(items) => MetaNodes(items))
  }

  function VersionNode(version: string): Node
  {
    Element("version", [], [Text(version)])
  }

  /** `<attribute name="...">value</attribute>` */
  function AttributeNode(name: string, value: string): Node
  {
    Element("attribute", [("name", name)], [Text(value)])
  }

  /** A measure that shrinks from a mapping to each value inside it. */
  ghost function EntriesSize(es: seq<MetaEntry>): nat
    decreases es
  {
    if es == [] then 0 else 1 + ValueSize(es[0].value) + EntriesSize(es[1..])
  }

  ghost function ValueSize(v: MetaValue): nat
    decreases v
  {
    match v
    case Scalar(_) => 0
    case Mapping(es) => EntriesSize(es)
    case PairList(items) => EntriesSize(items)
  }

  lemma {:induction false} EntryWithin(es: seq<MetaEntry>, i: nat)
    requires i < |es|
    ensures 1 + ValueSize(es[i].value) <= EntriesSize(es)
    decreases i
  {
    if i > 0 {
      EntryWithin(es[1..], i - 1);
    }
  }

  lemma MetaNodesSnoc(es: seq<MetaEntry>, i: nat)
    requires i < |es|
    ensures MetaNodes(es[..i + 1]) == MetaNodes(es[..i]) + [EntryNode(es[i])]
  {
  }

  /** Writing one more entry after the first `i` writes the first `i + 1`. */
  lemma MetaEventsSnoc(base: seq<Event>, es: seq<MetaEntry>, i: nat)
    requires i < |es|
    ensures base + SerializeAll(MetaNodes(es[..i])) + Serialize(EntryNode(es[i])) == base + SerializeAll(MetaNodes(es[..i + 1]))
  {
    MetaNodesSnoc(es, i);
    SerializeAllSnoc(MetaNodes(es[..i]), EntryNode(es[i]));
  }

  class XmlAnnotationWriter {
    const version: string
    var level: int
    var events: seq<Event>
    ghost var stack: seq<string>

    /** The stream is well nested so far, and the level is its depth. */
    ghost predicate Valid()
      reads this
    {
      Open(events) == Some(stack) && level == |stack|
    }

    constructor ()
      ensures Valid() && version == "1.1"
      ensures events == [] && stack == [] && level == 0
    {
      version := "1.1";
      events := [];
      stack := [];
      level := 0;
    }

    /** `xmlgen.startElement(name, attrs)` */
    method StartElement(name: string, attrs: Attrs)
      requires Open(events) == Some(stack)
      modifies this
      ensures Open(events) == Some(stack)
      ensures events == old(events) + [Start(name, attrs)] && stack == old(stack) + [name]
      ensures level == old(level)
    {
      assert (events + [Start(name, attrs)])[..|events|] == events;
      events := events + [Start(name, attrs)];
      stack := stack + [name];
    }

    /** `xmlgen.characters(text)` */
    method Characters(text: string)
      requires Open(events) == Some(stack)
      modifies this
      ensures Open(events) == Some(stack)
      ensures events == old(events) + [Chars(text)] && stack == old(stack)
      ensures level == old(level)
    {
      assert (events + [Chars(text)])[..|events|] == events;
      events := events + [Chars(text)];
    }

    /** `xmlgen.endElement(name)`, which must close the innermost open element. */
    method EndElement(name: string)
      requires Open(events) == Some(stack) && stack != [] && stack[|stack| - 1] == name
      modifies this
      ensures Open(events) == Some(stack)
      ensures events == old(events) + [End(name)] && stack == old(stack)[..|old(stack)| - 1]
      ensures level == old(level)
    {
      assert (events + [End(name)])[..|events|] == events;
      events := events + [End(name)];
      stack := stack[..|stack| - 1];
    }

    method AddVersion()
      requires Valid()
      modifies this
      ensures Valid() && stack == old(stack) && level == old(level)
      ensures events == old(events) + Serialize(VersionNode(version))
    {
      StartElement("version", []);
      Characters(version);
      EndElement("version");
      SerializeLeaf("version", [], version);
    }

    /** Starts the root element, one level deep, and writes the version. */
    method OpenRoot()
      requires Valid()
      modifies this
      ensures Valid()
      ensures events == old(events) + [Start("annotations", [])] + Serialize(VersionNode(version))
      ensures stack == old(stack) + ["annotations"] && level == old(level) + 1
    {
      StartElement("annotations", []);
      level := level + 1;
      AddVersion();
    }

    /**
     * `_add_meta`: writes one element per key one level deeper, recursing
     * into nested mappings and into each pair of a list; the level is back
     * where it was on return. The caller has already started the element
     * that wraps the mapping, so that element is open one level deeper than
     * the current one.
     */
    method AddMetaEntries(entries: seq<MetaEntry>)
      requires Open(events) == Some(stack) && level + 1 == |stack|
      modifies this
      ensures Open(events) == Some(stack) && stack == old(stack) && level == old(level)
      ensures events == old(events) + SerializeAll(MetaNodes(entries))
      decreases EntriesSize(entries), 1
    {
      level := level + 1;
      var i := 0;
      while i < |entries|
        invariant 0 <= i <= |entries|
        invariant Open(events) == Some(stack) && stack == old(stack) && level == old(level) + 1
        invariant events == old(events) + SerializeAll(MetaNodes(entries[..i]))
      {
        EntryWithin(entries, i);
        AddMetaEntry(entries[i]);
        MetaEventsSnoc(old(events), entries, i);
        i := i + 1;
      }
      assert entries[..i] == entries;
      level := level - 1;
    }

    /** The body of the loop in `_add_meta`: one key and its value. */
    method AddMetaEntry(e: MetaEntry)
      requires Valid()
      modifies this
      ensures Valid() && stack == old(stack) && level == old(level)
      ensures events == old(events) + Serialize(EntryNode(e))
      decreases 1 + ValueSize(e.value), 0
    {
      StartElement(e.key, []);
      match e.value {
        case Mapping(inner) =>
          AddMetaEntries(inner);
          EndElement(e.key);
          SerializeElement(old(events), e.key, [], MetaNodes(inner));
        case PairList(items) =>
          AddMetaList(items);
          EndElement(e.key);
          SerializeElement(old(events), e.key, [], MetaNodes(items));
        case Scalar(t) =>
          Characters(t);
          EndElement(e.key);
          SerializeLeaf(e.key, [], t);
          assert events == old(events) + [Start(e.key, []), Chars(t), End(e.key)];
      }
    }

    /**
     * The list branch of `_add_meta`: each (key, value) pair is written as a
     * mapping of its own, so the pairs become sibling elements.
     */
    method AddMetaList(items: seq<MetaEntry>)
      requires Open(events) == Some(stack) && level + 1 == |stack|
      modifies this
      ensures Open(events) == Some(stack) && stack == old(stack) && level == old(level)
      ensures events == old(events) + SerializeAll(MetaNodes(items))
      decreases EntriesSize(items), 2
    {
      var j := 0;
      while j < |items|
        invariant 0 <= j <= |items|
        invariant Open(events) == Some(stack) && stack == old(stack) && level == old(level)
        invariant events == old(events) + SerializeAll(MetaNodes(items[..j]))
      {
        EntryWithin(items, j);
        assert EntriesSize([items[j]]) == 1 + ValueSize(items[j].value) by {
          assert [items[j]][1..] == [];
        }
        AddMetaEntries([items[j]]);
        assert SerializeAll(MetaNodes([items[j]])) == Serialize(EntryNode(items[j])) by {
          assert MetaNodes([items[j]]) == [EntryNode(items[j])];
          SerializeAllSnoc([], EntryNode(items[j]));
        }
        MetaEventsSnoc(old(events), items, j);
        j := j + 1;
      }
      assert items[..j] == items;
    }

    /** `add_meta`: the `meta` element around the encoded mapping. */
    method AddMeta(meta: seq<MetaEntry>)
      requires Valid()
      modifies this
      ensures Valid() && stack == old(stack) && level == old(level)
      ensures events == old(events) + Serialize(Element("meta", [], MetaNodes(meta)))
    {
      StartElement("meta", []);
      AddMetaEntries(meta);
      EndElement("meta");
    }

    /**
     * `open_track`, `open_image`, `open_box`, `open_polygon`, `open_polyline`
     * and `open_points`, which differ only in the tag they start.
     */
    method OpenElement(name: string, attrs: Attrs)
      requires Valid()
      modifies this
      ensures Valid()
      ensures events == old(events) + [Start(name, attrs)]
      ensures stack == old(stack) + [name] && level == old(level) + 1
    {
      StartElement(name, attrs);
      level := level + 1;
    }

    /** `add_attribute`: a complete `attribute` element at the current level. */
    method AddAttribute(name: string, value: string)
      requires Valid()
      modifies this
      ensures Valid() && stack == old(stack) && level == old(level)
      ensures events == old(events) + Serialize(AttributeNode(name, value))
    {
      StartElement("attribute", [("name", name)]);
      Characters(value);
      EndElement("attribute");
      SerializeLeaf("attribute", [("name", name)], value);
    }

    /**
     * `close_box`, `close_polygon`, `close_polyline`, `close_points`,
     * `close_image` and `close_track`: each ends the element its `open_*`
     * counterpart started, one level up.
     */
    method CloseElement(name: string)
      requires Valid() && stack != [] && stack[|stack| - 1] == name
      modifies this
      ensures Valid()
      ensures events == old(events) + [End(name)]
      ensures stack == old(stack)[..|old(stack)| - 1] && level == old(level) - 1
    {
      level := level - 1;
      EndElement(name);
    }

    /** `close_root`: ends the root element. */
    method CloseRoot()
      requires Valid() && stack != [] && stack[|stack| - 1] == "annotations"
      modifies this
      ensures Valid()
      ensures events == old(events) + [End("annotations")]
      ensures stack == old(stack)[..|old(stack)| - 1] && level == old(level) - 1
    {
      level := level - 1;
      EndElement("annotations");
    }
  }
}
