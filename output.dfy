/**
 * What an encoder has written when it stops. The dumper writes as it goes
 * and raises on the first shape it cannot encode, so a dump is a stream of
 * events and, possibly, the failure that cut it short: everything written
 * before the failure stays written.
 */
module Output {
  import opened Wrappers
  import opened Events

  /**
   * `NotImplementedError` for a shape type the dumper does not know, and the
   * `IndexError` of reading `points[k]` from a rectangle with fewer than four
   * coordinates.
   */
  datatype Failure = UnknownShapeType(kind: string) | MissingCoordinate(count: nat)

  datatype Result<T> = Ok(value: T) | Err(failure: Failure)

  datatype Emission = Emission(events: seq<Event>, failure: Option<Failure>)

  /** The parts written one after the other, up to and including the first that fails. */
  function Chain(parts: seq<Emission>): Emission
  {
    if parts == [] then Emission([], None)
    else
      var prev := Chain(parts[..|parts| - 1]);
      if prev.failure.Some? then prev
      else Emission(prev.events + parts[|parts| - 1].events, parts[|parts| - 1].failure)
  }

  /** All the events of the parts, concatenated. */
  function Flat(parts: seq<Emission>): seq<Event>
  {
    if parts == [] then [] else Flat(parts[..|parts| - 1]) + parts[|parts| - 1].events
  }

  /** An element whose start tag is written before its body and whose end tag only if the body succeeds. */
  function Wrap(name: string, attrs: Attrs, body: Emission): Emission
  {
    Emission([Start(name, attrs)] + body.events + (if body.failure.None? then [End(name)] else []), body.failure)
  }

  /** A node that is written whole, or a failure that writes nothing. */
  function NodeEmission(r: Result<Node>): Emission
  {
    match r
    case Ok(n) => Emission(Serialize(n), None)
    case Err(f) => Emission([], Some(f))
  }

  function NodeEmissions(rs: seq<Result<Node>>): (r: seq<Emission>)
    ensures |r| == |rs|
  {
    seq(|rs|, i requires 0 <= i < |rs| => NodeEmission(rs[i]))
  }

  predicate AllOk<T>(rs: seq<Result<T>>)
  {
    forall i :: 0 <= i < |rs| ==> rs[i].Ok?
  }

  function Values<T>(rs: seq<Result<T>>): (r: seq<T>)
    requires AllOk(rs)
    ensures |r| == |rs|
  {
    seq(|rs|, i requires 0 <= i < |rs| && AllOk(rs) => rs[i].value)
  }

  predicate NoFailure(parts: seq<Emission>)
  {
    forall i :: 0 <= i < |parts| ==> parts[i].failure.None?
  }

  // ---------------------------------------------------------------------------

  lemma ChainSnoc(parts: seq<Emission>, k: nat)
    requires k < |parts|
    ensures var prev := Chain(parts[..k]);
            Chain(parts[..k + 1]) ==
              if prev.failure.Some? then prev
              else Emission(prev.events + parts[k].events, parts[k].failure)
  {
    assert parts[..k + 1][..k] == parts[..k];
  }

  /** Writing one more part after a chain that has not failed, on top of earlier output. */
  lemma ChainExtend(base: seq<Event>, parts: seq<Emission>, k: nat)
    requires k < |parts| && Chain(parts[..k]).failure.None?
    ensures base + Chain(parts[..k + 1]).events == base + Chain(parts[..k]).events + parts[k].events
    ensures Chain(parts[..k + 1]).failure == parts[k].failure
  {
    ChainSnoc(parts, k);
  }

  /** An element's emission written on top of earlier output, its pieces one after the other. */
  lemma WrapExtend(base: seq<Event>, name: string, attrs: Attrs, body: Emission)
    ensures base + Wrap(name, attrs, body).events ==
              base + [Start(name, attrs)] + body.events + (if body.failure.None? then [End(name)] else [])
  {
  }

  /** Once a part fails, nothing after it is written. */
  lemma {:induction false} ChainStops(parts: seq<Emission>, k: nat)
    requires k <= |parts| && Chain(parts[..k]).failure.Some?
    ensures Chain(parts) == Chain(parts[..k])
    decreases |parts| - k
  {
    if k < |parts| {
      ChainSnoc(parts, k);
      ChainStops(parts, k + 1);
    } else {
      assert parts[..k] == parts;
    }
  }

  /** A chain succeeds exactly when every part does, and then writes all their events. */
  lemma {:induction false} ChainSucceeds(parts: seq<Emission>)
    ensures Chain(parts).failure.None? <==> NoFailure(parts)
    ensures NoFailure(parts) ==> Chain(parts).events == Flat(parts)
    decreases |parts|
  {
    if parts != [] {
      var init := parts[..|parts| - 1];
      ChainSucceeds(init);
      assert NoFailure(parts) ==> NoFailure(init);
      if !NoFailure(init) {
        var i :| 0 <= i < |init| && init[i].failure.Some?;
        assert parts[i] == init[i];
      }
    }
  }

  /** A chain that fails first at part k writes the parts before k, then part k's own events. */
  lemma {:induction false} ChainFirstFailure(parts: seq<Emission>, k: nat)
    requires k < |parts| && parts[k].failure.Some? && NoFailure(parts[..k])
    ensures Chain(parts) == Emission(Flat(parts[..k]) + parts[k].events, parts[k].failure)
  {
    ChainSucceeds(parts[..k]);
    ChainSnoc(parts, k);
    ChainStops(parts, k + 1);
  }

  /** Flattening the emissions of whole nodes gives the nodes written out. */
  lemma {:induction false} FlatSerialize(parts: seq<Emission>, ns: seq<Node>)
    requires |parts| == |ns|
    requires forall i :: 0 <= i < |parts| ==> parts[i].events == Serialize(ns[i])
    ensures Flat(parts) == SerializeAll(ns)
    decreases |parts|
  {
    if parts != [] {
      var n := |parts| - 1;
      FlatSerialize(parts[..n], ns[..n]);
      assert ns[..n] + [ns[n]] == ns;
      SerializeAllSnoc(ns[..n], ns[n]);
    }
  }

  /**
   * Writing a list of nodes succeeds exactly when every node can be built;
   * then it writes them all, and otherwise it writes the nodes before the
   * first failure and nothing of the failing one.
   */
  lemma NodesSucceed(rs: seq<Result<Node>>)
    ensures Chain(NodeEmissions(rs)).failure.None? <==> AllOk(rs)
    ensures AllOk(rs) ==> Chain(NodeEmissions(rs)).events == SerializeAll(Values(rs))
  {
    var parts := NodeEmissions(rs);
    ChainSucceeds(parts);
    assert NoFailure(parts) <==> AllOk(rs) by {
      if !AllOk(rs) {
        var i :| 0 <= i < |rs| && rs[i].Err?;
        assert parts[i].failure.Some?;
      }
    }
    if AllOk(rs) {
      FlatSerialize(parts, Values(rs));
    }
  }

  lemma NodesFirstFailure(rs: seq<Result<Node>>, k: nat)
    requires k < |rs| && rs[k].Err? && AllOk(rs[..k])
    ensures Chain(NodeEmissions(rs)) == Emission(SerializeAll(Values(rs[..k])), Some(rs[k].failure))
  {
    var parts := NodeEmissions(rs);
    assert parts[..k] == NodeEmissions(rs[..k]);
    NodesSucceed(rs[..k]);
    ChainSucceeds(parts[..k]);
    ChainFirstFailure(parts, k);
  }

  /** A wrapped body that succeeds writes one complete element. */
  lemma WrapSucceeds(name: string, attrs: Attrs, body: Emission, ns: seq<Node>)
    requires body.failure.None? && body.events == SerializeAll(ns)
    ensures Wrap(name, attrs, body) == Emission(Serialize(Element(name, attrs, ns)), None)
  {
  }
}
