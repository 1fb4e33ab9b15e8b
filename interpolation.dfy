/**
 * `dump_as_cvat_interpolation`: the track mode. Every shape of every frame is
 * an observation; observations with the same track id form one track, in the
 * order the ids first appear, and every shape outside any track (track id -1)
 * becomes a track of its own, after them, under a fresh id. Each track is
 * written as one `track` element, numbered densely from 0, holding one shape
 * element per observation, plus a closing observation that marks the shape
 * outside one frame after its last observation when that is before the
 * task's stop frame.
 */
module Interpolation {
  import opened Wrappers
  import opened Events
  import opened Text
  import opened Output
  import opened XmlWriter
  import opened Annotation

  /** One observation: the frame a shape is on, that frame's size, and the shape. */
  datatype TrackedShape = TrackedShape(frame: int, width: int, height: int, shape: Shape)

  type Track = seq<TrackedShape>

  // ---------------------------------------------------------------------------
  // Grouping shapes into tracks

  function FrameObservations(f: FrameAnnotation): (r: seq<TrackedShape>)
    ensures |r| == |f.shapes|
  {
    seq(|f.shapes|, j requires 0 <= j < |f.shapes| => TrackedShape(f.frame, f.width, f.height, f.shapes[j]))
  }

  /** Every shape of every frame, frame by frame, each frame's shapes in order. */
  function Observations(frames: seq<FrameAnnotation>): seq<TrackedShape>
  {
    if frames == [] then []
    else Observations(frames[..|frames| - 1]) + FrameObservations(frames[|frames| - 1])
  }

  /** The observations carrying one track id, in order. */
  function WithTrackId(obs: seq<TrackedShape>, id: int): (r: seq<TrackedShape>)
    ensures |r| <= |obs|
    ensures forall k :: 0 <= k < |r| ==> r[k].shape.trackId == id
  {
    if obs == [] then []
    else
      var last := obs[|obs| - 1];
      WithTrackId(obs[..|obs| - 1], id) + (if last.shape.trackId == id then [last] else [])
  }

  lemma WithTrackIdSnoc(obs: seq<TrackedShape>, o: TrackedShape, id: int)
    ensures WithTrackId(obs + [o], id) == WithTrackId(obs, id) + (if o.shape.trackId == id then [o] else [])
  {
    assert (obs + [o])[..|obs|] == obs;
  }

  /**
   * The key order of the `tracks` dictionary after the grouping loop: every
   * track id other than -1, once, in the order it first appears.
   */
  function TrackOrder(obs: seq<TrackedShape>): seq<int>
  {
    if obs == [] then []
    else
      var prev := TrackOrder(obs[..|obs| - 1]);
      var id := obs[|obs| - 1].shape.trackId;
      if id == -1 || id in prev then prev else prev + [id]
  }

  /** No id occurs twice. */
  predicate Distinct(s: seq<int>)
  {
    forall a, b :: 0 <= a < b < |s| ==> s[a] != s[b]
  }

  /** The key order lists each id once, and exactly the ids other than -1 that some shape carries. */
  lemma TrackOrderSpec(obs: seq<TrackedShape>)
    ensures Distinct(TrackOrder(obs))
    ensures forall id :: id in TrackOrder(obs) <==> id != -1 && WithTrackId(obs, id) != []
  {
    TrackOrderDistinct(obs);
    TrackOrderMembers(obs);
  }

  lemma {:induction false} TrackOrderDistinct(obs: seq<TrackedShape>)
    ensures Distinct(TrackOrder(obs))
    decreases |obs|
  {
    if obs != [] {
      var p := obs[..|obs| - 1];
      TrackOrderDistinct(p);
      var prev := TrackOrder(p);
      var id := obs[|obs| - 1].shape.trackId;
      if id == -1 || id in prev {
        assert TrackOrder(obs) == prev;
      } else {
        var r := prev + [id];
        assert TrackOrder(obs) == r;
        forall a, b | 0 <= a < b < |r| ensures r[a] != r[b] {
          assert r[a] == prev[a] && prev[a] in prev;
          if b < |prev| {
            assert r[b] == prev[b];
          } else {
            assert r[b] == id;
          }
        }
      }
    }
  }

  lemma {:induction false} TrackOrderMembers(obs: seq<TrackedShape>)
    ensures forall id :: id in TrackOrder(obs) <==> id != -1 && WithTrackId(obs, id) != []
    decreases |obs|
  {
    if obs != [] {
      var p := obs[..|obs| - 1];
      var o := obs[|obs| - 1];
      TrackOrderMembers(p);
      assert obs == p + [o];
      forall k ensures WithTrackId(obs, k) == WithTrackId(p, k) + (if o.shape.trackId == k then [o] else []) {
        WithTrackIdSnoc(p, o, k);
      }
    }
  }

  /** The largest of a non-empty list of ids (`max(tracks.keys())`). */
  function MaxOf(s: seq<int>): (m: int)
    requires s != []
    ensures m in s
    ensures forall k :: 0 <= k < |s| ==> s[k] <= m
  {
    if |s| == 1 then s[0]
    else
      var m := MaxOf(s[..|s| - 1]);
      if s[|s| - 1] > m then s[|s| - 1] else m
  }

  /** The first id given to a shape outside every track: one past the largest track id, or 0 when there is none. */
  function FirstFreshId(order: seq<int>): (r: int)
    ensures forall k :: 0 <= k < |order| ==> order[k] < r
    ensures order == [] ==> r == 0
  {
    if order == [] then 0 else MaxOf(order) + 1
  }

  /** The shapes outside every track, each given the next fresh id from `start` on. */
  function Promoted(singles: seq<TrackedShape>, start: int): (r: seq<TrackedShape>)
    ensures |r| == |singles|
  {
    seq(|singles|, i requires 0 <= i < |singles| => singles[i].(shape := singles[i].shape.(trackId := start + i)))
  }

  function Buckets(obs: seq<TrackedShape>, order: seq<int>): (r: seq<Track>)
    ensures |r| == |order|
    ensures forall i :: 0 <= i < |r| ==> r[i] == WithTrackId(obs, order[i])
  {
    seq(|order|, i requires 0 <= i < |order| => WithTrackId(obs, order[i]))
  }

  function Singletons(s: seq<TrackedShape>): (r: seq<Track>)
    ensures |r| == |s|
    ensures forall i :: 0 <= i < |r| ==> r[i] == [s[i]]
  {
    seq(|s|, i requires 0 <= i < |s| => [s[i]])
  }

  /** The grouped tracks in key order, then one track per shape outside every track. */
  function Group(obs: seq<TrackedShape>): (r: seq<Track>)
    ensures forall i :: 0 <= i < |r| ==> r[i] != []
  {
    var order := TrackOrder(obs);
    TrackOrderSpec(obs);
    Buckets(obs, order) + Singletons(Promoted(WithTrackId(obs, -1), FirstFreshId(order)))
  }

  /** `tracks.values()` after both grouping loops. */
  function Tracks(frames: seq<FrameAnnotation>): (r: seq<Track>)
    ensures forall i :: 0 <= i < |r| ==> r[i] != []
  {
    Group(Observations(frames))
  }

  /** The id a track is filed under: that of its first observation. */
  function TrackIdOf(track: Track): int
    requires track != []
  {
    track[0].shape.trackId
  }

  /**
   * The tracks are the grouped ones, each holding the observations of one
   * id, in first-appearance order, then one per shape outside every track,
   * under the fresh ids counted up from one past the largest track id.
   */
  lemma GroupSpec(obs: seq<TrackedShape>)
    ensures |Group(obs)| == |TrackOrder(obs)| + |WithTrackId(obs, -1)|
    ensures forall i :: 0 <= i < |TrackOrder(obs)| ==> Group(obs)[i] == WithTrackId(obs, TrackOrder(obs)[i])
    ensures forall i :: 0 <= i < |WithTrackId(obs, -1)| ==> Group(obs)[|TrackOrder(obs)| + i] == [Promoted(WithTrackId(obs, -1), FirstFreshId(TrackOrder(obs)))[i]]
  {
    GroupSingles(obs);
  }

  lemma GroupSingles(obs: seq<TrackedShape>)
    ensures var order := TrackOrder(obs);
            var singles := WithTrackId(obs, -1);
            forall i :: 0 <= i < |singles| ==> Group(obs)[|order| + i] == [Promoted(singles, FirstFreshId(order))[i]]
  {
  }

  /** A shape outside every track keeps everything but its id, which is the i-th fresh one. */
  lemma PromotedSpec(singles: seq<TrackedShape>, start: int)
    ensures forall i :: 0 <= i < |singles| ==>
              && Promoted(singles, start)[i].shape.trackId == start + i
              && Promoted(singles, start)[i].(shape := singles[i].shape) == singles[i]
              && Promoted(singles, start)[i].shape.(trackId := singles[i].shape.trackId) == singles[i].shape
  {
  }

  /** The id each track is filed under: a grouped track's own id, or the fresh id given to its shape. */
  lemma GroupIds(obs: seq<TrackedShape>)
    ensures var order := TrackOrder(obs);
            var r := Group(obs);
            forall i :: 0 <= i < |r| ==>
              TrackIdOf(r[i]) == if i < |order| then order[i] else FirstFreshId(order) + (i - |order|)
  {
    var order := TrackOrder(obs);
    var r: seq<Track> := Group(obs);
    GroupSpec(obs);
    forall i | |order| <= i < |r|
      ensures TrackIdOf(r[i]) == FirstFreshId(order) + (i - |order|)
    {
      assert r[i] == r[|order| + (i - |order|)];
      PromotedSpec(WithTrackId(obs, -1), FirstFreshId(order));
    }
  }

  /** No two tracks share an id, and every observation of a track carries the track's id. */
  lemma GroupIdsDistinct(obs: seq<TrackedShape>)
    ensures var r := Group(obs);
            && (forall i, k :: 0 <= i < |r| && 0 <= k < |r[i]| ==> r[i][k].shape.trackId == TrackIdOf(r[i]))
            && (forall a, b :: 0 <= a < b < |r| ==> TrackIdOf(r[a]) != TrackIdOf(r[b]))
  {
    var order := TrackOrder(obs);
    var r: seq<Track> := Group(obs);
    GroupSpec(obs);
    GroupIds(obs);
    TrackOrderSpec(obs);
    forall i, k | 0 <= i < |r| && 0 <= k < |r[i]|
      ensures r[i][k].shape.trackId == TrackIdOf(r[i])
    {
      if i >= |order| {
        assert r[i] == r[|order| + (i - |order|)];
      }
    }
  }

  /** The number of observations over all tracks. */
  function TotalLength(tracks: seq<Track>): nat
  {
    if tracks == [] then 0 else TotalLength(tracks[..|tracks| - 1]) + |tracks[|tracks| - 1]|
  }

  lemma {:induction false} TotalLengthAppend(a: seq<Track>, b: seq<Track>)
    ensures TotalLength(a + b) == TotalLength(a) + TotalLength(b)
    decreases |b|
  {
    if b == [] {
      assert a + b == a;
    } else {
      var n := |b| - 1;
      assert (a + b)[..|a + b| - 1] == a + b[..n];
      TotalLengthAppend(a, b[..n]);
    }
  }

  /** Lists of the same lengths, except one that is longer by one. */
  lemma {:induction false} TotalLengthBump(xs: seq<Track>, ys: seq<Track>, k: int)
    requires |xs| == |ys|
    requires forall i :: 0 <= i < |xs| && i != k ==> |ys[i]| == |xs[i]|
    requires 0 <= k < |xs| ==> |ys[k]| == |xs[k]| + 1
    ensures TotalLength(ys) == TotalLength(xs) + (if 0 <= k < |xs| then 1 else 0)
    decreases |xs|
  {
    if xs != [] {
      var n := |xs| - 1;
      TotalLengthBump(xs[..n], ys[..n], k);
    }
  }

  lemma {:induction false} TotalLengthSingletons(s: seq<TrackedShape>)
    ensures TotalLength(Singletons(s)) == |s|
    decreases |s|
  {
    if s != [] {
      var n := |s| - 1;
      assert Singletons(s)[..n] == Singletons(s[..n]);
      TotalLengthSingletons(s[..n]);
    }
  }

  /** One more observation adds one to its own id's bucket and leaves the other buckets alone. */
  lemma BucketsSnoc(p: seq<TrackedShape>, o: TrackedShape, ids: seq<int>)
    requires Distinct(ids)
    ensures TotalLength(Buckets(p + [o], ids)) == TotalLength(Buckets(p, ids)) + (if o.shape.trackId in ids then 1 else 0)
  {
    var id := o.shape.trackId;
    forall k ensures WithTrackId(p + [o], k) == WithTrackId(p, k) + (if id == k then [o] else []) {
      WithTrackIdSnoc(p, o, k);
    }
    var ki := if id in ids then IndexOf(ids, id) else -1;
    TotalLengthBump(Buckets(p, ids), Buckets(p + [o], ids), ki);
  }

  /** The grouped tracks hold every observation whose id is not -1. */
  lemma {:induction false} BucketsTotal(obs: seq<TrackedShape>)
    ensures TotalLength(Buckets(obs, TrackOrder(obs))) + |WithTrackId(obs, -1)| == |obs|
    decreases |obs|
  {
    if obs != [] {
      var p := obs[..|obs| - 1];
      var o := obs[|obs| - 1];
      assert obs == p + [o];
      var prev := TrackOrder(p);
      var id := o.shape.trackId;
      BucketsTotal(p);
      assert -1 !in prev by { TrackOrderSpec(p); }
      assert |WithTrackId(obs, -1)| == |WithTrackId(p, -1)| + (if id == -1 then 1 else 0) by {
        WithTrackIdSnoc(p, o, -1);
      }
      assert TotalLength(Buckets(obs, prev)) == TotalLength(Buckets(p, prev)) + (if id in prev then 1 else 0) by {
        TrackOrderSpec(p);
        BucketsSnoc(p, o, prev);
      }
      if id != -1 && id !in prev {
        assert TrackOrder(obs) == prev + [id];
        BucketsNewId(p, o);
      } else {
        assert TrackOrder(obs) == prev;
      }
    }
  }

  /** An observation with a new track id opens a bucket holding just that observation. */
  lemma BucketsNewId(p: seq<TrackedShape>, o: TrackedShape)
    requires o.shape.trackId != -1 && o.shape.trackId !in TrackOrder(p)
    ensures TotalLength(Buckets(p + [o], TrackOrder(p) + [o.shape.trackId]))
              == TotalLength(Buckets(p + [o], TrackOrder(p))) + 1
  {
    var obs, prev, id := p + [o], TrackOrder(p), o.shape.trackId;
    assert Buckets(obs, prev + [id]) == Buckets(obs, prev) + [WithTrackId(obs, id)];
    TotalLengthAppend(Buckets(obs, prev), [WithTrackId(obs, id)]);
    assert [WithTrackId(obs, id)][..0] == [];
    WithTrackIdSnoc(p, o, id);
    TrackOrderSpec(p);
    assert WithTrackId(p, id) == [];
  }

  function IndexOf(s: seq<int>, x: int): (k: nat)
    requires x in s
    ensures k < |s| && s[k] == x
  {
    if s[0] == x then 0 else 1 + IndexOf(s[1..], x)
  }

  /** Grouping loses and invents no observation: the tracks hold exactly as many as there are shapes. */
  lemma GroupTotal(obs: seq<TrackedShape>)
    ensures TotalLength(Group(obs)) == |obs|
  {
    var order := TrackOrder(obs);
    var singles := Promoted(WithTrackId(obs, -1), FirstFreshId(order));
    BucketsTotal(obs);
    TotalLengthSingletons(singles);
    TotalLengthAppend(Buckets(obs, order), Singletons(singles));
  }

  // ---------------------------------------------------------------------------
  // What a track writes

  /**
   * The track's observations, plus a copy of its last one marked outside
   * one frame later when the last one is before the stop frame.
   */
  function WithClosing(track: Track, stopFrame: int): (r: Track)
    requires track != []
    ensures |track| <= |r| && r[..|track|] == track
  {
    var last := track[|track| - 1];
    if last.frame < stopFrame then track + [last.(frame := last.frame + 1, shape := last.shape.(outside := true))]
    else track
  }

  /**
   * A closing observation is added exactly when the last observation is
   * before the stop frame; it is the last shape marked outside, one frame
   * later. Either way the written track ends outside or at the stop frame
   * or later.
   */
  lemma WithClosingSpec(track: Track, stopFrame: int)
    requires track != []
    ensures var last := track[|track| - 1];
            var r := WithClosing(track, stopFrame);
            && |r| == |track| + (if last.frame < stopFrame then 1 else 0)
            && (last.frame < stopFrame ==>
                  r[|track|].frame == last.frame + 1 && r[|track|].shape.outside
                  && r[|track|].width == last.width && r[|track|].height == last.height
                  && r[|track|].shape.(outside := last.shape.outside) == last.shape)
            && (r[|r| - 1].shape.outside || r[|r| - 1].frame >= stopFrame)
  {
  }

  // ---------------------------------------------------------------------------
  // Frame order within a track

  /** The frames arrive in strictly ascending frame order. */
  predicate FramesAscending(frames: seq<FrameAnnotation>)
  {
    forall a, b :: 0 <= a < b < |frames| ==> frames[a].frame < frames[b].frame
  }

  /** No frame holds two shapes of the same track. */
  predicate OneShapePerTrack(frames: seq<FrameAnnotation>)
  {
    forall i, j, k :: 0 <= i < |frames| && 0 <= j < k < |frames[i].shapes| ==>
      frames[i].shapes[j].trackId == -1 || frames[i].shapes[j].trackId != frames[i].shapes[k].trackId
  }

  predicate NonDecreasing(t: Track)
  {
    forall a, b :: 0 <= a < b < |t| ==> t[a].frame <= t[b].frame
  }

  predicate Increasing(t: Track)
  {
    forall a, b :: 0 <= a < b < |t| ==> t[a].frame < t[b].frame
  }

  /** `x` comes before `y` on an earlier frame, or is not an observation of the same track. */
  predicate Apart(x: TrackedShape, y: TrackedShape)
  {
    x.frame < y.frame || x.shape.trackId == -1 || x.shape.trackId != y.shape.trackId
  }

  predicate AllApart(obs: seq<TrackedShape>)
  {
    forall a, b :: 0 <= a < b < |obs| ==> Apart(obs[a], obs[b])
  }

  /** Selecting one id's observations keeps every relation that held between earlier and later observations. */
  lemma {:induction false} WithTrackIdKeeps(obs: seq<TrackedShape>, id: int, P: (TrackedShape, TrackedShape) -> bool)
    requires forall a, b :: 0 <= a < b < |obs| ==> P(obs[a], obs[b])
    ensures forall k :: 0 <= k < |WithTrackId(obs, id)| ==> WithTrackId(obs, id)[k] in obs
    ensures forall a, b :: 0 <= a < b < |WithTrackId(obs, id)| ==> P(WithTrackId(obs, id)[a], WithTrackId(obs, id)[b])
    decreases |obs|
  {
    if obs != [] {
      var p, last := obs[..|obs| - 1], obs[|obs| - 1];
      WithTrackIdKeeps(p, id, P);
      var r, rp := WithTrackId(obs, id), WithTrackId(p, id);
      assert r == rp + (if last.shape.trackId == id then [last] else []);
      forall k | 0 <= k < |r|
        ensures r[k] in obs
      {
        if k < |rp| {
          assert rp[k] in p;
          var j :| 0 <= j < |p| && p[j] == rp[k];
          assert obs[j] == rp[k];
        }
      }
      forall a, b | 0 <= a < b < |r|
        ensures P(r[a], r[b])
      {
        if b >= |rp| {
          assert r[a] == rp[a] && rp[a] in p;
          var j :| 0 <= j < |p| && p[j] == rp[a];
          assert P(obs[j], obs[|obs| - 1]);
        }
      }
    }
  }

  /** A frame's shapes, after observations of earlier frames, keep the observations in frame order. */
  lemma FrameAppendNonDecreasing(p: seq<TrackedShape>, f: FrameAnnotation)
    requires NonDecreasing(p)
    requires forall k :: 0 <= k < |p| ==> p[k].frame < f.frame
    ensures NonDecreasing(p + FrameObservations(f))
  {
    var fo := FrameObservations(f);
    var obs := p + fo;
    forall a, b | 0 <= a < b < |obs|
      ensures obs[a].frame <= obs[b].frame
    {
      if b < |p| {
        assert obs[a] == p[a] && obs[b] == p[b];
      } else if a < |p| {
        assert obs[a] == p[a] && obs[b] == fo[b - |p|];
      } else {
        assert obs[a] == fo[a - |p|] && obs[b] == fo[b - |p|];
      }
    }
  }

  /** The same, for observations of one track on different frames, when the frame holds at most one shape per track. */
  lemma FrameAppendApart(p: seq<TrackedShape>, f: FrameAnnotation)
    requires AllApart(p)
    requires forall k :: 0 <= k < |p| ==> p[k].frame < f.frame
    requires forall j, k :: 0 <= j < k < |f.shapes| ==> f.shapes[j].trackId == -1 || f.shapes[j].trackId != f.shapes[k].trackId
    ensures AllApart(p + FrameObservations(f))
  {
    var fo := FrameObservations(f);
    var obs := p + fo;
    forall a, b | 0 <= a < b < |obs|
      ensures Apart(obs[a], obs[b])
    {
      if b < |p| {
        assert obs[a] == p[a] && obs[b] == p[b];
      } else if a < |p| {
        assert obs[a] == p[a] && obs[b] == fo[b - |p|];
      } else {
        assert obs[a] == fo[a - |p|] && obs[b] == fo[b - |p|];
        assert obs[a].shape == f.shapes[a - |p|] && obs[b].shape == f.shapes[b - |p|];
      }
    }
  }

  /**
   * With the frames in ascending order, the observations are in frame order;
   * and when no frame holds two shapes of one track, two observations of
   * one track are on different frames.
   */
  lemma {:induction false} ObservationsOrdered(frames: seq<FrameAnnotation>)
    requires FramesAscending(frames)
    ensures NonDecreasing(Observations(frames))
    ensures OneShapePerTrack(frames) ==> AllApart(Observations(frames))
    ensures frames != [] ==> forall k :: 0 <= k < |Observations(frames)| ==> Observations(frames)[k].frame <= frames[|frames| - 1].frame
    decreases |frames|
  {
    if frames != [] {
      var n := |frames|;
      var pre, f := frames[..n - 1], frames[n - 1];
      assert FramesAscending(pre);
      ObservationsOrdered(pre);
      var p, fo := Observations(pre), FrameObservations(f);
      var obs := Observations(frames);
      assert obs == p + fo;
      assert pre == [] ==> p == [];
      forall k | 0 <= k < |p|
        ensures p[k].frame < f.frame
      {
        assert pre != [];
        assert pre[|pre| - 1] == frames[n - 2];
        assert frames[n - 2].frame < frames[n - 1].frame;
      }
      FrameAppendNonDecreasing(p, f);
      if OneShapePerTrack(frames) {
        assert OneShapePerTrack(pre) by {
          forall i | 0 <= i < |pre| ensures pre[i] == frames[i] { }
        }
        FrameAppendApart(p, f);
      }
      forall k | 0 <= k < |obs|
        ensures obs[k].frame <= f.frame
      {
        if k < |p| {
          assert obs[k] == p[k];
        } else {
          assert obs[k] == fo[k - |p|];
        }
      }
    }
  }

  /** The closing observation keeps a track in (strictly) increasing frame order. */
  lemma ClosingKeepsOrder(track: Track, stopFrame: int)
    requires track != []
    ensures NonDecreasing(track) ==> NonDecreasing(WithClosing(track, stopFrame))
    ensures Increasing(track) ==> Increasing(WithClosing(track, stopFrame))
  {
    var last := track[|track| - 1];
    var r := WithClosing(track, stopFrame);
    if last.frame < stopFrame && NonDecreasing(track) {
      assert r == track + [r[|track|]];
      forall a | 0 <= a < |track|
        ensures r[a].frame < r[|track|].frame
      {
        assert r[a] == track[a];
        if a < |track| - 1 {
          assert track[a].frame <= last.frame;
        }
      }
    }
  }

  /** Every track the grouping builds is in frame order, and in strictly increasing frame order when no frame holds two shapes of one track. */
  lemma TrackOrdered(frames: seq<FrameAnnotation>, i: nat)
    requires FramesAscending(frames) && i < |Tracks(frames)|
    ensures NonDecreasing(Tracks(frames)[i])
    ensures OneShapePerTrack(frames) ==> Increasing(Tracks(frames)[i])
  {
    var obs := Observations(frames);
    var order := TrackOrder(obs);
    var track := Tracks(frames)[i];
    GroupSpec(obs);
    if i < |order| {
      var id := order[i];
      assert track == WithTrackId(obs, id);
      assert id != -1 by {
        TrackOrderSpec(obs);
        assert id in order;
      }
      ObservationsOrdered(frames);
      WithTrackIdKeeps(obs, id, (x: TrackedShape, y: TrackedShape) => x.frame <= y.frame);
      if OneShapePerTrack(frames) {
        WithTrackIdKeeps(obs, id, (x: TrackedShape, y: TrackedShape) => Apart(x, y));
      }
    } else {
      assert track == Tracks(frames)[|order| + (i - |order|)];
      assert |track| == 1;
    }
  }

  /**
   * With the frames in ascending order, every written track, closing
   * observation included, is in frame order; when no frame holds two shapes
   * of one track, its frames strictly increase.
   */
  lemma TracksInFrameOrder(frames: seq<FrameAnnotation>, stopFrame: int)
    requires FramesAscending(frames)
    ensures forall i :: 0 <= i < |Tracks(frames)| ==> NonDecreasing(WithClosing(Tracks(frames)[i], stopFrame))
    ensures OneShapePerTrack(frames) ==>
              forall i :: 0 <= i < |Tracks(frames)| ==> Increasing(WithClosing(Tracks(frames)[i], stopFrame))
  {
    var tracks := Tracks(frames);
    forall i | 0 <= i < |tracks|
      ensures NonDecreasing(WithClosing(tracks[i], stopFrame))
      ensures OneShapePerTrack(frames) ==> Increasing(WithClosing(tracks[i], stopFrame))
    {
      TrackOrdered(frames, i);
      ClosingKeepsOrder(tracks[i], stopFrame);
    }
  }

  /** The track mode's geometry attributes, built with its own point format. */
  function TrackGeometry(s: Shape): Result<Attrs>
  {
    if s.kind == "rectangle" then
      if |s.points| < 4 then Err(MissingCoordinate(|s.points|))
      else Ok([("xtl", FixedText(s.points[0])), ("ytl", FixedText(s.points[1])),
               ("xbr", FixedText(s.points[2])), ("ybr", FixedText(s.points[3]))])
    else Ok([("points", FormattedPointsText(s.points))])
  }

  /** The geometry is written identically in both modes. */
  lemma GeometryInBothModes(s: Shape)
    ensures TrackGeometry(s) == Geometry(s)
  {
    PointsTextInBothModes(s.points);
  }

  /** An observation's start-tag attributes. */
  function ObservationAttrs(o: TrackedShape, task: TaskSettings): Result<Attrs>
  {
    match TrackGeometry(o.shape)
    case Err(e) => Err(e)
    case Ok(g) => Ok(ObservationHead(o) + g + ZOrderAttrs(o.shape, task))
  }

  function ObservationResult(o: TrackedShape, task: TaskSettings): Result<Node>
  {
    match ObservationAttrs(o, task)
    case Err(e) => Err(e)
    case Ok(attrs) => ShapeNode(o.shape, attrs)
  }

  /** The head of an observation's start tag: frame, outside, occluded, keyframe. */
  function ObservationHead(o: TrackedShape): (r: Attrs)
    ensures Names(r) == ["frame", "outside", "occluded", "keyframe"]
    ensures ParseInt(r[0].1) == Some(o.frame) && r[1].1 == BoolText(o.shape.outside)
  {
    IntTextRoundTrip(o.frame);
    [("frame", IntText(o.frame)), ("outside", BoolText(o.shape.outside)),
     ("occluded", BoolText(o.shape.occluded)), ("keyframe", BoolText(o.shape.keyframe))]
  }

  /** An observation's start-tag attributes: the head, the geometry, then z_order when enabled. */
  lemma ObservationAttrsSpec(o: TrackedShape, task: TaskSettings)
    ensures ObservationAttrs(o, task).Ok? <==> Geometry(o.shape).Ok?
    ensures ObservationAttrs(o, task).Err? ==> ObservationAttrs(o, task).failure == Geometry(o.shape).failure
    ensures ObservationAttrs(o, task).Ok? ==>
              var attrs := ObservationAttrs(o, task).value;
              && Names(attrs) == ["frame", "outside", "occluded", "keyframe"] + GeometryNames(o.shape.kind)
                                 + (if task.zOrder != "False" then ["z_order"] else [])
              && ParseInt(attrs[0].1) == Some(o.frame)
              && attrs[1].1 == BoolText(o.shape.outside)
              && attrs[4..4 + |Geometry(o.shape).value|] == Geometry(o.shape).value
  {
    GeometryInBothModes(o.shape);
    if Geometry(o.shape).Ok? {
      var g := Geometry(o.shape).value;
      var head := ObservationHead(o);
      var z := ZOrderAttrs(o.shape, task);
      assert ObservationAttrs(o, task).value == head + g + z;
      GeometryAttrsNames(head, o.shape, task);
      assert (head + g + z)[4..4 + |g|] == g;
    }
  }

  /**
   * An observation can be written exactly when its shape could be in the
   * image mode; its element then has the same tag, the same geometry and
   * the same children, and its attributes are frame, outside, occluded,
   * keyframe, the geometry and z_order when enabled, in that order.
   */
  lemma ObservationResultSpec(o: TrackedShape, task: TaskSettings)
    ensures ObservationResult(o, task).Ok? <==>
              ElementName(o.shape.kind).Some? && (o.shape.kind == "rectangle" ==> |o.shape.points| >= 4)
    ensures ObservationResult(o, task).Err? ==>
              ObservationResult(o, task).failure ==
                (if o.shape.kind == "rectangle" then MissingCoordinate(|o.shape.points|)
                 else UnknownShapeType(o.shape.kind))
    ensures ObservationResult(o, task).Ok? ==>
              var n := ObservationResult(o, task).value;
              && n.Element? && n.name == ElementName(o.shape.kind).value
              && Names(n.attrs) == ["frame", "outside", "occluded", "keyframe"] + GeometryNames(o.shape.kind)
                                   + (if task.zOrder != "False" then ["z_order"] else [])
              && ParseInt(n.attrs[0].1) == Some(o.frame)
              && n.attrs[1].1 == BoolText(o.shape.outside)
              && n.attrs[4..4 + |Geometry(o.shape).value|] == Geometry(o.shape).value
              && n.children == AttributeNodes(o.shape.attributes)
  {
    ObservationAttrsSpec(o, task);
    assert Geometry(o.shape).Ok? <==> o.shape.kind != "rectangle" || |o.shape.points| >= 4;
    if ObservationAttrs(o, task).Ok? {
      assert ObservationResult(o, task) == ShapeNode(o.shape, ObservationAttrs(o, task).value);
    }
  }

  function ObservationResults(track: Track, task: TaskSettings): (r: seq<Result<Node>>)
    ensures |r| == |track|
  {
    seq(|track|, k requires 0 <= k < |track| => ObservationResult(track[k], task))
  }

  /** A track's start-tag attributes: its position, its first shape's label and, when grouped, its group. */
  function TrackAttrs(idx: int, first: Shape): Attrs
  {
    [("id", IntText(idx)), ("label", first.labelName)] + GroupAttrs(first)
  }

  /** The track's attributes read back as its position, its first shape's label and its group when it has one. */
  lemma TrackAttrsSpec(idx: int, first: Shape)
    ensures Names(TrackAttrs(idx, first)) == ["id", "label"] + (if first.group != 0 then ["group_id"] else [])
    ensures ParseInt(TrackAttrs(idx, first)[0].1) == Some(idx)
    ensures TrackAttrs(idx, first)[1].1 == first.labelName
    ensures first.group != 0 ==> ParseInt(TrackAttrs(idx, first)[2].1) == Some(first.group)
  {
    IntTextRoundTrip(idx);
    GroupAttrsSpec(first);
    NamesAppend([("id", IntText(idx)), ("label", first.labelName)], GroupAttrs(first));
  }

  /** What one track writes: its element, cut short at the first observation that fails. */
  function TrackEmission(idx: int, track: Track, task: TaskSettings): Emission
    requires track != []
  {
    Wrap("track", TrackAttrs(idx, track[0].shape),
         Chain(NodeEmissions(ObservationResults(WithClosing(track, task.stopFrame), task))))
  }

  predicate NonEmpty(tracks: seq<Track>)
  {
    forall i :: 0 <= i < |tracks| ==> tracks[i] != []
  }

  function TrackEmissions(tracks: seq<Track>, task: TaskSettings): (r: seq<Emission>)
    requires NonEmpty(tracks)
    ensures |r| == |tracks|
  {
    seq(|tracks|, i requires 0 <= i < |tracks| && NonEmpty(tracks) => TrackEmission(i, tracks[i], task))
  }

  /** Everything the track mode writes, up to the first failure. */
  function InterpolationOutput(frames: seq<FrameAnnotation>, task: TaskSettings): Emission
  {
    Chain(TrackEmissions(Tracks(frames), task))
  }

  // ---------------------------------------------------------------------------
  // The document the track mode is meant to write

  predicate TrackEncodable(track: Track, task: TaskSettings)
    requires track != []
  {
    AllOk(ObservationResults(WithClosing(track, task.stopFrame), task))
  }

  predicate Encodable(frames: seq<FrameAnnotation>, task: TaskSettings)
  {
    var tracks := Tracks(frames);
    forall i :: 0 <= i < |tracks| ==> TrackEncodable(tracks[i], task)
  }

  function TrackNode(idx: int, track: Track, task: TaskSettings): Node
    requires track != [] && TrackEncodable(track, task)
  {
    Element("track", TrackAttrs(idx, track[0].shape), Values(ObservationResults(WithClosing(track, task.stopFrame), task)))
  }

  function TrackNodes(frames: seq<FrameAnnotation>, task: TaskSettings): (r: seq<Node>)
    requires Encodable(frames, task)
    ensures |r| == |Tracks(frames)|
  {
    var tracks := Tracks(frames);
    seq(|tracks|, i requires 0 <= i < |tracks| && Encodable(frames, task) => TrackNode(i, tracks[i], task))
  }

  /**
   * The track mode succeeds exactly when every observation, closing ones
   * included, can be written, and then it writes the track elements of
   * `TrackNodes`.
   */
  lemma InterpolationOutputSucceeds(frames: seq<FrameAnnotation>, task: TaskSettings)
    ensures InterpolationOutput(frames, task).failure.None? <==> Encodable(frames, task)
    ensures Encodable(frames, task) ==> InterpolationOutput(frames, task).events == SerializeAll(TrackNodes(frames, task))
  {
    var tracks := Tracks(frames);
    var parts := TrackEmissions(tracks, task);
    forall i | 0 <= i < |tracks|
      ensures parts[i].failure.None? <==> TrackEncodable(tracks[i], task)
      ensures TrackEncodable(tracks[i], task) ==> parts[i].events == Serialize(TrackNode(i, tracks[i], task))
    {
      NodesSucceed(ObservationResults(WithClosing(tracks[i], task.stopFrame), task));
    }
    ChainSucceeds(parts);
    if Encodable(frames, task) {
      FlatSerialize(parts, TrackNodes(frames, task));
    }
  }

  /** The track elements are numbered 0, 1, 2, … in order, so their ids are dense and distinct. */
  lemma TrackIdsDense(frames: seq<FrameAnnotation>, task: TaskSettings)
    requires Encodable(frames, task)
    ensures var ns := TrackNodes(frames, task);
            && (forall i :: 0 <= i < |ns| ==>
                  ns[i].Element? && ns[i].name == "track" && ns[i].attrs[0].0 == "id"
                  && ParseInt(ns[i].attrs[0].1) == Some(i))
            && (forall a, b :: 0 <= a < b < |ns| ==> ns[a].attrs[0].1 != ns[b].attrs[0].1)
  {
    var ns := TrackNodes(frames, task);
    forall i | 0 <= i < |ns|
      ensures ns[i].attrs[0] == ("id", IntText(i)) && ParseInt(ns[i].attrs[0].1) == Some(i)
    {
      IntTextRoundTrip(i);
    }
    forall a, b | 0 <= a < b < |ns|
      ensures ns[a].attrs[0].1 != ns[b].attrs[0].1
    {
      IntTextInjective(a, b);
    }
  }

  /**
   * A single shape of track 3 on frame 4, with stop frame 10: one track,
   * written with observations on frames 4 and 5, the second one outside.
   */
  lemma ClosingExample(s: Shape)
    requires s.trackId == 3 && !s.outside
    ensures var frames := [FrameAnnotation(4, "frame_000004.jpg", 640, 480, [s])];
            var tracks := Tracks(frames);
            && |tracks| == 1
            && var written := WithClosing(tracks[0], 10);
               && |written| == 2 && written[0].frame == 4 && written[1].frame == 5
               && !written[0].shape.outside && written[1].shape.outside
  {
    var frames := [FrameAnnotation(4, "frame_000004.jpg", 640, 480, [s])];
    var o := TrackedShape(4, 640, 480, s);
    assert frames[..0] == [];
    assert Observations(frames) == [o];
    assert [o][..0] == [];
    assert TrackOrder([o]) == [3];
    assert WithTrackId([o], -1) == [];
    assert WithTrackId([o], 3) == [o];
  }

  // ---------------------------------------------------------------------------
  // The encoder

  /** The `tracks` dictionary as its key order and its entries; the keys are exactly those listed. */
  ghost predicate KeysListed(order: seq<int>, tracks: map<int, Track>)
  {
    && (forall k :: k in tracks <==> k in order)
    && (forall i :: 0 <= i < |order| ==> order[i] in tracks)
  }

  /** `tracks[k] = v`: a new key goes to the end of the key order, an existing one keeps its place. */
  function DictSet(order: seq<int>, tracks: map<int, Track>, k: int, v: Track): (r: (seq<int>, map<int, Track>))
    requires KeysListed(order, tracks)
    ensures KeysListed(r.0, r.1) && k in r.1 && r.1[k] == v
    ensures forall j :: j in tracks && j != k ==> j in r.1 && r.1[j] == tracks[j]
  {
    (if k in tracks then order else order + [k], tracks[k := v])
  }

  /** `tracks.values()`: the entries in key order. */
  function DictValues(order: seq<int>, tracks: map<int, Track>): (r: seq<Track>)
    requires KeysListed(order, tracks)
    ensures |r| == |order|
  {
    seq(|order|, i requires 0 <= i < |order| && order[i] in tracks => tracks[order[i]])
  }

  /** The dictionary and the single-shape list after the grouping loop has seen `obs`. */
  ghost predicate Grouped(obs: seq<TrackedShape>, order: seq<int>, tracks: map<int, Track>, singles: seq<TrackedShape>)
  {
    && order == TrackOrder(obs)
    && KeysListed(order, tracks)
    && (forall k :: k in tracks ==> tracks[k] == WithTrackId(obs, k))
    && singles == WithTrackId(obs, -1)
  }

  /** After grouping, the dictionary's entries in key order are the grouped tracks. */
  lemma GroupedValues(obs: seq<TrackedShape>, order: seq<int>, tracks: map<int, Track>, singles: seq<TrackedShape>)
    requires Grouped(obs, order, tracks, singles)
    ensures DictValues(order, tracks) == Buckets(obs, order)
  {
  }

  /** The body of the grouping loop, for one observation. */
  method AddObservation(ghost obs: seq<TrackedShape>, order0: seq<int>, tracks0: map<int, Track>,
                        singles0: seq<TrackedShape>, o: TrackedShape)
    returns (order: seq<int>, tracks: map<int, Track>, singles: seq<TrackedShape>)
    requires Grouped(obs, order0, tracks0, singles0)
    ensures Grouped(obs + [o], order, tracks, singles)
  {
    order, tracks, singles := order0, tracks0, singles0;
    var id := o.shape.trackId;
    assert (obs + [o])[..|obs|] == obs;
    forall k ensures WithTrackId(obs + [o], k) == WithTrackId(obs, k) + (if id == k then [o] else []) {
      WithTrackIdSnoc(obs, o, k);
    }
    TrackOrderSpec(obs);
    if id != -1 {
      if id !in tracks {
        var entry := DictSet(order, tracks, id, []);
        order, tracks := entry.0, entry.1;
      }
      var entry := DictSet(order, tracks, id, tracks[id] + [o]);
      order, tracks := entry.0, entry.1;
    } else {
      singles := singles + [o];
    }
  }

  /** The grouping loop over every shape of every frame. */
  method GroupShapes(frames: seq<FrameAnnotation>) returns (order: seq<int>, tracks: map<int, Track>, singles: seq<TrackedShape>)
    ensures Grouped(Observations(frames), order, tracks, singles)
  {
    order, tracks, singles := [], map[], [];
    var i := 0;
    while i < |frames|
      invariant 0 <= i <= |frames|
      invariant Grouped(Observations(frames[..i]), order, tracks, singles)
    {
      var f := frames[i];
      ghost var base := Observations(frames[..i]);
      var j := 0;
      assert base + FrameObservations(f)[..j] == base;
      while j < |f.shapes|
        invariant 0 <= j <= |f.shapes|
        invariant Grouped(base + FrameObservations(f)[..j], order, tracks, singles)
      {
        var o := TrackedShape(f.frame, f.width, f.height, f.shapes[j]);
        order, tracks, singles := AddObservation(base + FrameObservations(f)[..j], order, tracks, singles, o);
        FrameObservationsStep(base, f, j);
        j := j + 1;
      }
      ObservationsStep(frames, i);
      i := i + 1;
    }
    assert frames[..i] == frames;
  }

  lemma FrameObservationsStep(base: seq<TrackedShape>, f: FrameAnnotation, j: nat)
    requires j < |f.shapes|
    ensures base + FrameObservations(f)[..j + 1] ==
              base + FrameObservations(f)[..j] + [TrackedShape(f.frame, f.width, f.height, f.shapes[j])]
  {
    var fo := FrameObservations(f);
    assert fo[..j + 1] == fo[..j] + [fo[j]];
  }

  lemma ObservationsStep(frames: seq<FrameAnnotation>, i: nat)
    requires i < |frames|
    ensures Observations(frames[..i + 1]) == Observations(frames[..i]) + FrameObservations(frames[i])[..|frames[i].shapes|]
  {
    assert frames[..i + 1][..i] == frames[..i];
    assert FrameObservations(frames[i])[..|frames[i].shapes|] == FrameObservations(frames[i]);
  }

  lemma DictValuesSnoc(order: seq<int>, tracks: map<int, Track>, k: int, v: Track)
    requires KeysListed(order, tracks) && k !in tracks
    ensures DictSet(order, tracks, k, v).0 == order + [k]
    ensures DictValues(order + [k], tracks[k := v]) == DictValues(order, tracks) + [v]
  {
    forall i | 0 <= i < |order| ensures order[i] != k {
      assert order[i] in tracks;
    }
  }

  /** The dictionary is empty exactly when its key order is. */
  lemma EmptyDict(order: seq<int>, tracks: map<int, Track>)
    requires KeysListed(order, tracks)
    ensures tracks == map[] <==> order == []
  {
    if order == [] {
      assert forall k :: k !in tracks;
      assert tracks == map[];
    } else {
      assert order[0] in tracks;
    }
  }

  /** The loop giving each single shape the next fresh id and a track of its own. */
  method PromoteSingles(order0: seq<int>, tracks0: map<int, Track>, singles: seq<TrackedShape>)
    returns (order: seq<int>, tracks: map<int, Track>)
    requires KeysListed(order0, tracks0)
    ensures KeysListed(order, tracks)
    ensures DictValues(order, tracks) ==
              DictValues(order0, tracks0) + Singletons(Promoted(singles, FirstFreshId(order0)))
  {
    order, tracks := order0, tracks0;
    var next := 0;
    EmptyDict(order, tracks);
    if tracks != map[] {
      next := MaxOf(order) + 1;
    }
    ghost var start := next;
    assert start == FirstFreshId(order0);
    ghost var promoted := Promoted(singles, start);
    var m := 0;
    while m < |singles|
      invariant 0 <= m <= |singles|
      invariant next == start + m
      invariant KeysListed(order, tracks)
      invariant forall k :: k in tracks ==> k < next
      invariant DictValues(order, tracks) == DictValues(order0, tracks0) + Singletons(promoted[..m])
    {
      var single := singles[m];
      var track := [single.(shape := single.shape.(trackId := next))];
      assert track == [promoted[m]];
      DictValuesSnoc(order, tracks, next, track);
      var entry := DictSet(order, tracks, next, track);
      order, tracks := entry.0, entry.1;
      SingletonsSnoc(DictValues(order0, tracks0), promoted, m);
      next := next + 1;
      m := m + 1;
    }
    assert promoted[..m] == promoted;
  }

  lemma SingletonsSnoc(base: seq<Track>, s: seq<TrackedShape>, m: nat)
    requires m < |s|
    ensures (base + Singletons(s[..m])) + [[s[m]]] == base + Singletons(s[..m + 1])
  {
    assert Singletons(s[..m + 1]) == Singletons(s[..m]) + [[s[m]]];
  }

  /** Builds an observation's `dump_data`, or the error reading its corners raises. */
  method ObservationData(o: TrackedShape, task: TaskSettings) returns (r: Result<Attrs>)
    ensures r == ObservationAttrs(o, task)
  {
    var s := o.shape;
    var data: Attrs := [("frame", IntText(o.frame)), ("outside", BoolText(s.outside)),
                        ("occluded", BoolText(s.occluded)), ("keyframe", BoolText(s.keyframe))];
    ghost var head := data;
    if s.kind == "rectangle" {
      if |s.points| < 4 {
        return Err(MissingCoordinate(|s.points|));
      }
      data := data + [("xtl", FixedText(s.points[0])), ("ytl", FixedText(s.points[1])),
                      ("xbr", FixedText(s.points[2])), ("ybr", FixedText(s.points[3]))];
    } else {
      data := data + [("points", FormattedPointsText(s.points))];
    }
    assert data == head + TrackGeometry(s).value;
    if task.zOrder != "False" {
      data := data + [("z_order", IntText(s.zOrder))];
    }
    assert data == head + TrackGeometry(s).value + ZOrderAttrs(s, task);
    return Ok(data);
  }

  /** The body of the observation loop: build `dump_data`, then open, attributes, close. */
  method DumpObservation(w: XmlAnnotationWriter, o: TrackedShape, task: TaskSettings) returns (failure: Option<Failure>)
    requires w.Valid()
    modifies w
    ensures w.Valid() && w.stack == old(w.stack) && w.level == old(w.level)
    ensures w.events == old(w.events) + NodeEmission(ObservationResult(o, task)).events
    ensures failure == NodeEmission(ObservationResult(o, task)).failure
  {
    var data := ObservationData(o, task);
    if data.Err? {
      return Some(data.failure);
    }
    failure := WriteShape(w, o.shape, data.value);
  }

  /** The observation loop of one track, stopping at the first observation that fails. */
  method DumpObservations(w: XmlAnnotationWriter, track: Track, task: TaskSettings) returns (failure: Option<Failure>)
    requires w.Valid()
    modifies w
    ensures w.Valid() && w.stack == old(w.stack) && w.level == old(w.level)
    ensures w.events == old(w.events) + Chain(NodeEmissions(ObservationResults(track, task))).events
    ensures failure == Chain(NodeEmissions(ObservationResults(track, task))).failure
  {
    failure := None;
    ghost var parts := NodeEmissions(ObservationResults(track, task));
    var k := 0;
    while k < |track|
      invariant 0 <= k <= |track|
      invariant w.Valid() && w.stack == old(w.stack) && w.level == old(w.level)
      invariant w.events == old(w.events) + Chain(parts[..k]).events
      invariant Chain(parts[..k]).failure.None? && failure.None?
    {
      failure := DumpObservation(w, track[k], task);
      ChainExtend(old(w.events), parts, k);
      if failure.Some? {
        ChainStops(parts, k + 1);
        return;
      }
      k := k + 1;
    }
    assert parts[..k] == parts;
  }

  /** One pass of the track loop: the closing observation, the track's attributes, its element. */
  method DumpTrack(w: XmlAnnotationWriter, idx: int, track: Track, task: TaskSettings) returns (failure: Option<Failure>)
    requires w.Valid() && track != []
    modifies w
    ensures w.Valid()
    ensures w.events == old(w.events) + TrackEmission(idx, track, task).events
    ensures failure == TrackEmission(idx, track, task).failure
    ensures failure.None? ==> w.stack == old(w.stack) && w.level == old(w.level)
    ensures failure.Some? ==> w.stack == old(w.stack) + ["track"] && w.level == old(w.level) + 1
  {
    var first := track[0].shape;
    var closing := track[|track| - 1];
    var observations := track;
    if closing.frame < task.stopFrame {
      closing := closing.(frame := closing.frame + 1, shape := closing.shape.(outside := true));
      observations := observations + [closing];
    }
    assert observations == WithClosing(track, task.stopFrame);
    var data: Attrs := [("id", IntText(idx)), ("label", first.labelName)];
    if first.group != 0 {
      data := data + [("group_id", IntText(first.group))];
    }
    assert data == TrackAttrs(idx, first);
    w.OpenElement("track", data);
    failure := DumpObservations(w, observations, task);
    WrapExtend(old(w.events), "track", data, Chain(NodeEmissions(ObservationResults(observations, task))));
    if failure.Some? {
      return;
    }
    w.CloseElement("track");
  }

  /** The track loop: one element per entry of the dictionary, numbered from 0, stopping at the first failure. */
  method DumpTracks(w: XmlAnnotationWriter, order: seq<int>, tracks: map<int, Track>, task: TaskSettings)
    returns (failure: Option<Failure>)
    requires w.Valid() && KeysListed(order, tracks) && NonEmpty(DictValues(order, tracks))
    modifies w
    ensures w.Valid()
    ensures w.events == old(w.events) + Chain(TrackEmissions(DictValues(order, tracks), task)).events
    ensures failure == Chain(TrackEmissions(DictValues(order, tracks), task)).failure
    ensures failure.None? ==> w.stack == old(w.stack) && w.level == old(w.level)
    ensures failure.Some? ==> w.stack == old(w.stack) + ["track"] && w.level == old(w.level) + 1
  {
    failure := None;
    ghost var parts := TrackEmissions(DictValues(order, tracks), task);
    var idx := 0;
    while idx < |order|
      invariant 0 <= idx <= |order|
      invariant w.Valid() && w.stack == old(w.stack) && w.level == old(w.level)
      invariant w.events == old(w.events) + Chain(parts[..idx]).events
      invariant Chain(parts[..idx]).failure.None? && failure.None?
    {
      var track := tracks[order[idx]];
      assert track == DictValues(order, tracks)[idx];
      failure := DumpTrack(w, idx, track, task);
      ChainExtend(old(w.events), parts, idx);
      if failure.Some? {
        ChainStops(parts, idx + 1);
        return;
      }
      idx := idx + 1;
    }
    assert parts[..idx] == parts;
  }

  /** `dump_as_cvat_interpolation`: group, promote the single shapes, write the tracks. */
  method DumpAsInterpolation(w: XmlAnnotationWriter, frames: seq<FrameAnnotation>, task: TaskSettings)
    returns (failure: Option<Failure>)
    requires w.Valid()
    modifies w
    ensures w.Valid()
    ensures w.events == old(w.events) + InterpolationOutput(frames, task).events
    ensures failure == InterpolationOutput(frames, task).failure
    ensures failure.None? ==> w.stack == old(w.stack) && w.level == old(w.level)
    ensures failure.Some? ==> w.stack == old(w.stack) + ["track"] && w.level == old(w.level) + 1
  {
    var order, tracks, singles := GroupShapes(frames);
    ghost var obs := Observations(frames);
    GroupedValues(obs, order, tracks, singles);
    ghost var grouped := DictValues(order, tracks);
    order, tracks := PromoteSingles(order, tracks, singles);
    assert DictValues(order, tracks) == Tracks(frames);
    failure := DumpTracks(w, order, tracks, task);
  }
}
