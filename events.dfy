/**
 * The document the writer produces, seen as the stream of SAX-style calls it
 * makes on its XML generator (`startElement`, `characters`, `endElement`),
 * and the element tree that such a stream spells out. Escaping, indentation
 * whitespace and the byte encoding belong to the generator and are not part
 * of this stream.
 */
module Events {
  import opened Wrappers

  /** Ordered attribute list of a start tag, in insertion order. */
  type Attrs = seq<(string, string)>

  datatype Event = Start(name: string, attrs: Attrs) | Chars(text: string) | End(name: string)

  datatype Node = Element(name: string, attrs: Attrs, children: seq<Node>) | Text(text: string)

  /**
   * One event applied to the stack of open element names (outermost first);
   * `None` once an end tag does not close the innermost open element.
   */
  function Step(st: Option<seq<string>>, e: Event): Option<seq<string>>
  {
    match st
    case None => None
    case Some(open) =>
      match e
      case Start(n, _) => Some(open + [n])
      case Chars(_) => Some(open)
      case End(n) => if open != [] && open[|open| - 1] == n then Some(open[..|open| - 1]) else None
  }

  /** The open elements after `es`, starting with `open` already open. */
  function Run(open: seq<string>, es: seq<Event>): Option<seq<string>>
  {
    if es == [] then Some(open) else Step(Run(open, es[..|es| - 1]), es[|es| - 1])
  }

  function After(st: Option<seq<string>>, es: seq<Event>): Option<seq<string>>
  {
    match st
    case None => None
    case Some(open) => Run(open, es)
  }

  /** The elements left open by a stream that starts a document. */
  function Open(es: seq<Event>): Option<seq<string>>
  {
    Run([], es)
  }

  /** A complete document: every start tag closed by the matching end tag. */
  predicate WellFormed(es: seq<Event>)
  {
    Open(es) == Some([])
  }

  /** The event stream that writes out a node. */
  function Serialize(n: Node): seq<Event>
    decreases n
  {
    match n
    case Text(t) => [Chars(t)]
    case Element(name, attrs, children) => [Start(name, attrs)] + SerializeAll(children) + [End(name)]
  }

  function SerializeAll(ns: seq<Node>): seq<Event>
    decreases ns
  {
    if ns == [] then [] else Serialize(ns[0]) + SerializeAll(ns[1..])
  }

  lemma {:induction false} RunAppend(open: seq<string>, a: seq<Event>, b: seq<Event>)
    ensures Run(open, a + b) == After(Run(open, a), b)
    decreases |b|
  {
    if b == [] {
      assert a + b == a;
    } else {
      var b' := b[..|b| - 1];
      RunAppend(open, a, b');
      assert (a + b)[..|a + b| - 1] == a + b';
      match Run(open, a)
      case None =>
      case Some(o) =>
    }
  }

  lemma {:induction false} SerializeAllAppend(a: seq<Node>, b: seq<Node>)
    ensures SerializeAll(a + b) == SerializeAll(a) + SerializeAll(b)
    decreases |a|
  {
    if a == [] {
      assert a + b == b;
    } else {
      assert (a + b)[0] == a[0];
      assert (a + b)[1..] == a[1..] + b;
      SerializeAllAppend(a[1..], b);
    }
  }

  lemma SerializeAllSnoc(ns: seq<Node>, n: Node)
    ensures SerializeAll(ns + [n]) == SerializeAll(ns) + Serialize(n)
  {
    SerializeAllAppend(ns, [n]);
    assert [n][1..] == [];
  }

  lemma AppendAssoc(a: seq<Event>, b: seq<Event>, c: seq<Event>)
    ensures a + (b + c) == a + b + c
  {
  }

  /** Writing an element's start tag, its children and its end tag after `base` writes the element. */
  lemma SerializeElement(base: seq<Event>, name: string, attrs: Attrs, children: seq<Node>)
    ensures base + [Start(name, attrs)] + SerializeAll(children) + [End(name)] == base + Serialize(Element(name, attrs, children))
  {
  }

  /** An element holding only text is a start tag, the text and an end tag. */
  lemma SerializeLeaf(name: string, attrs: Attrs, t: string)
    ensures Serialize(Element(name, attrs, [Text(t)])) == [Start(name, attrs), Chars(t), End(name)]
  {
    assert [Text(t)][1..] == [];
    assert SerializeAll([Text(t)]) == Serialize(Text(t)) + SerializeAll([]);
  }

  /** Writing out any node closes every element it opens, in reverse order. */
  lemma {:induction false} SerializeBalanced(open: seq<string>, n: Node)
    ensures Run(open, Serialize(n)) == Some(open)
    decreases n
  {
    match n
    case Text(t) =>
      assert Serialize(n)[..0] == [];
    case Element(name, attrs, children) =>
      var s := Start(name, attrs);
      assert Run(open, [s]) == Some(open + [name]) by {
        assert [s][..0] == [];
      }
      SerializeAllBalanced(open + [name], children);
      RunAppend(open, [s], SerializeAll(children));
      var body := [s] + SerializeAll(children);
      assert Run(open, body) == Some(open + [name]);
      assert Serialize(n) == body + [End(name)];
      assert (body + [End(name)])[..|body|] == body;
      assert (open + [name])[..|open|] == open;
  }

  lemma {:induction false} SerializeAllBalanced(open: seq<string>, ns: seq<Node>)
    ensures Run(open, SerializeAll(ns)) == Some(open)
    decreases ns
  {
    if ns != [] {
      SerializeBalanced(open, ns[0]);
      SerializeAllBalanced(open, ns[1..]);
      RunAppend(open, Serialize(ns[0]), SerializeAll(ns[1..]));
    }
  }

  /** A single root element written out is a complete document. */
  lemma ElementIsDocument(n: Node)
    ensures WellFormed(Serialize(n))
  {
    SerializeBalanced([], n);
  }
}
