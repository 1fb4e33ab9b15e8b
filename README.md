# CVAT XML annotation dumper, modelled in Dafny

This project models the CVAT XML dumper (`cvat/apps/annotation/builtin/cvat/dumper.py`).
The dumper writes a task's annotations as one XML document:

- an `annotations` root element holding a `version` element (`1.1`);
- a `meta` element encoding the task's meta tree;
- then either the **image mode** (`dump_as_cvat_annotation`: one `image` element per frame, holding one `box`, `polygon`, `polyline` or `points` element per shape);
- or the **track mode** (`dump_as_cvat_interpolation`: the shapes are grouped into tracks; each track is one `track` element holding one shape element per observation, plus, when the track's last observation is before the task's stop frame, a closing observation marked outside).

The model is organised as follows.

- **Writer output.** `XmlAnnotationWriter` is a class whose methods append abstract XML events (`Start`, `Chars`, `End`) to an `events` field.
  - Its `level` field is kept equal to the depth of open elements (a ghost `stack`).
  - Each complete element it writes (version, meta, attribute, shape, image, track) is proved to be the serialisation of its element tree (`Events.Serialize`).
  - A successful dump is proved to be the serialisation of one document tree (`Dump.DocumentNode`), so it is well nested (`Events.WellFormed`). A failed dump leaves elements open.
- **Failures.** A shape the dumper cannot write ends the dump with a failure.
  - `UnknownShapeType` stands for the `NotImplementedError` of an unknown shape type.
  - `MissingCoordinate` stands for the `IndexError` of a rectangle with fewer than four coordinates.
  - What was written up to that point stays in the output. `Output.Chain` and `Output.Wrap` define that prefix.
- **Reference definitions.** Each mode has one:
  - a function giving the emitted events and the failure (`PerFrame.AnnotationOutput`, `Interpolation.InterpolationOutput`);
  - a tree of the elements it is meant to write (`PerFrame.ImageNodes`, `Interpolation.TrackNodes`).

  The imperative methods that mirror the source's loops are proved to emit exactly the function's events. Lemmas prove that the function fails exactly when some shape cannot be written, and that otherwise it writes exactly the tree.
- **Group ids.** Both modes write `group_id` for every shape (image mode) or first shape (track mode) with a non-zero group. This corrects the source's test; see Findings. Rows whose members write it say so.
- **Coordinates.** They are integers counting hundredths, so `"{:.2f}"` is exact fixed-point text (`Text.FixedText`). Attribute values are proved to read back (parse) as the numbers they encode.

Modules, one per file:

- `Wrappers` (`wrappers.dfy`);
- `Text` (`text.dfy`): decimal and fixed-point text, join and split;
- `Pairing` (`pairwise.dfy`);
- `Events` (`events.dfy`): events, element trees, nesting;
- `Output` (`output.dfy`): emissions that can stop at a failure;
- `XmlWriter` (`xml_writer.dfy`): the writer class and the meta tree;
- `Annotation` (`shapes.dfy`): records, shape attributes, shape elements;
- `PerFrame` (`per_frame.dfy`): the image mode;
- `Interpolation` (`interpolation.dfy`): the track mode;
- `Dump` (`dump.dfy`): the module-level glue.

## Model

| member | source | states |
|---|---|---|
| Pairing.Pairwise | cvat/apps/annotation/builtin/cvat/dumper.py:5-7 | `pairwise` yields one pair for every two items: the i-th pair is (s[2i], s[2i+1]). A trailing odd item is dropped. |
| Pairing.FlattenPairwise | cvat/apps/annotation/builtin/cvat/dumper.py:5-7 | Flattening the pairs gives back the input, cut to an even length. |
| Pairing.PairwiseFlatten | cvat/apps/annotation/builtin/cvat/dumper.py:5-7 | Pairing a flattened list of pairs gives back those pairs. |
| XmlWriter.XmlAnnotationWriter.constructor | cvat/apps/annotation/builtin/cvat/dumper.py:10-14 | A new writer has version "1.1", level 0 and no output. |
| XmlWriter.XmlAnnotationWriter.AddVersion | cvat/apps/annotation/builtin/cvat/dumper.py:21-25 | Appends the complete `version` element holding the writer's version. Level and open elements are unchanged. |
| XmlWriter.XmlAnnotationWriter.OpenRoot | cvat/apps/annotation/builtin/cvat/dumper.py:27-31 | Starts `annotations`, raises the level by one and appends the version element. `annotations` is then the innermost open element. |
| XmlWriter.XmlAnnotationWriter.AddMetaEntries | cvat/apps/annotation/builtin/cvat/dumper.py:33-54 | `_add_meta` appends one complete element per key, in key order; a nested mapping or pair list becomes that element's children. The level and the open elements are as before. |
| XmlWriter.XmlAnnotationWriter.AddMetaEntry | cvat/apps/annotation/builtin/cvat/dumper.py:35-53 | One key of `_add_meta`: a mapping recurses, a list writes its pairs as siblings, and a scalar becomes a text element. The result is exactly the serialisation of that entry's element. |
| XmlWriter.XmlAnnotationWriter.AddMetaList | cvat/apps/annotation/builtin/cvat/dumper.py:42-48 | Each pair of a list value is written as a mapping of its own, so the pairs become sibling elements. |
| XmlWriter.XmlAnnotationWriter.AddMeta | cvat/apps/annotation/builtin/cvat/dumper.py:56-61 | Appends exactly the `meta` element holding the encoded meta tree. Level and open elements are unchanged. |
| XmlWriter.XmlAnnotationWriter.OpenElement | cvat/apps/annotation/builtin/cvat/dumper.py:63-91 | Each `open_*` starts its tag with the given attributes, pushes the tag and raises the level by one. |
| XmlWriter.XmlAnnotationWriter.AddAttribute | cvat/apps/annotation/builtin/cvat/dumper.py:93-97 | Appends one complete `attribute` element with its `name` attribute and its text. Level and open elements are unchanged. |
| XmlWriter.XmlAnnotationWriter.CloseElement | cvat/apps/annotation/builtin/cvat/dumper.py:99-127 | Each `close_*` ends the innermost open element, pops it and lowers the level by one. |
| XmlWriter.XmlAnnotationWriter.CloseRoot | cvat/apps/annotation/builtin/cvat/dumper.py:129-133 | Ends `annotations` and lowers the level by one. |
| Events.SerializeBalanced | cvat/apps/annotation/builtin/cvat/dumper.py:63-133 | Writing a complete element never closes an element opened before it, and leaves the same elements open. |
| Events.ElementIsDocument | cvat/apps/annotation/builtin/cvat/dumper.py:27-133 | The events of one complete element are a well-nested document. |
| PerFrame.ImageAttrsSpec | cvat/apps/annotation/builtin/cvat/dumper.py:137-143 | The `image` attributes are id, name, width and height, in that order. Each reads back as the frame's number, name and size. |
| PerFrame.ShapeAttrsSpec | cvat/apps/annotation/builtin/cvat/dumper.py:146-171 | A shape's attributes are label, occluded, then the geometry, then z_order when enabled, then group_id when grouped. The geometry attributes are exactly the shape's geometry. They fail exactly when the geometry fails. It uses the corrected group test; see Findings. |
| Annotation.GeometryRoundTrip | cvat/apps/annotation/builtin/cvat/dumper.py:151-166 | The geometry fails exactly for a rectangle with fewer than 4 coordinates. A rectangle's xtl/ytl/xbr/ybr read back as its first four coordinates; other shapes' `points` read back as the even-length prefix of the coordinates. |
| Annotation.PointsTextRoundTrip | cvat/apps/annotation/builtin/cvat/dumper.py:158-166 | The `x,y;x,y` text of a point list parses back to the coordinates, cut to an even length. |
| Annotation.PairTextRoundTrip | cvat/apps/annotation/builtin/cvat/dumper.py:161-164 | One `{:.2f},{:.2f}` pair holds no `;` and parses back to its two coordinates. |
| Text.FixedTextRoundTrip | cvat/apps/annotation/builtin/cvat/dumper.py:153-156 | The two-decimal text of a coordinate, in hundredths, parses back to the same coordinate, negative ones included. |
| Text.IntTextRoundTrip | cvat/apps/annotation/builtin/cvat/dumper.py:139-141 | `str` of an integer parses back to that integer. |
| Text.SplitJoin | cvat/apps/annotation/builtin/cvat/dumper.py:160-166 | Splitting a `;`-joined list of parts that contain no `;` gives back the parts. |
| Annotation.ZOrderAttrsSpec | cvat/apps/annotation/builtin/cvat/dumper.py:168-169 | `z_order` is written exactly when the task's z_order setting is not the text "False". It reads back as the shape's z_order. |
| Annotation.GroupAttrsSpec | cvat/apps/annotation/builtin/cvat/dumper.py:170-171 | `group_id` is written exactly for a shape with a non-zero group, and it reads back as the group. This is the corrected test; see Findings. |
| Annotation.ElementName | cvat/apps/annotation/builtin/cvat/dumper.py:173-182 | Only rectangle, polygon, polyline and points have an element. A rectangle is written as `box`; the other three use their own name. |
| Annotation.OpenShape | cvat/apps/annotation/builtin/cvat/dumper.py:173-182 | An unknown shape type fails with UnknownShapeType before anything is written. A known one starts its element with the attributes. |
| Annotation.CloseShape | cvat/apps/annotation/builtin/cvat/dumper.py:190-199 | Ends the element the shape type was opened as. |
| Annotation.AddAttributes | cvat/apps/annotation/builtin/cvat/dumper.py:184-188 | Appends one `attribute` element per attribute of the shape, in order. |
| Annotation.WriteShape | cvat/apps/annotation/builtin/cvat/dumper.py:173-199 | Opening the shape, writing its attributes and closing it appends exactly the shape's element, or fails with nothing written. |
| PerFrame.ShapeData | cvat/apps/annotation/builtin/cvat/dumper.py:146-171 | The body of the shape loop that builds `dump_data` computes exactly the shape attributes of the reference definition. It uses the corrected group test; see Findings. |
| PerFrame.ShapeResultSpec | cvat/apps/annotation/builtin/cvat/dumper.py:145-199 | A shape is written exactly when its type is known and a rectangle has 4 coordinates. On failure the error is the missing coordinate or the unknown type. On success the element has the right tag, the attributes in order with the shape's geometry, and one child per attribute. It uses the corrected group test; see Findings. |
| PerFrame.ImageNodesSpec | cvat/apps/annotation/builtin/cvat/dumper.py:136-201 | One `image` per frame, in frame order, with the frame's attributes, holding exactly one element per shape, in order. |
| PerFrame.AnnotationOutputSucceeds | cvat/apps/annotation/builtin/cvat/dumper.py:135-201 | The image mode fails exactly when some shape cannot be written. Otherwise it writes exactly the `image` elements. |
| PerFrame.AnnotationOutputFirstFailure | cvat/apps/annotation/builtin/cvat/dumper.py:135-201 | When shape j of frame i is the first that cannot be written, the output is the complete images before frame i, then the start of image i and its first j shapes; the failure is that shape's. |
| PerFrame.FrameFirstFailure | cvat/apps/annotation/builtin/cvat/dumper.py:138-199 | A frame whose shape j is the first one that cannot be written leaves its `image` open after its first j shapes. |
| PerFrame.DumpShape | cvat/apps/annotation/builtin/cvat/dumper.py:145-199 | The loop body writes exactly the shape's element, or stops with its failure. |
| PerFrame.DumpShapes | cvat/apps/annotation/builtin/cvat/dumper.py:145-199 | The shape loop writes the shapes' elements in order and stops at the first failure. |
| PerFrame.DumpAsAnnotation | cvat/apps/annotation/builtin/cvat/dumper.py:135-201 | `dump_as_cvat_annotation` appends exactly the image mode's output. On success the open elements are as before; on failure one `image` is left open. It uses the corrected group test; see Findings. |
| Interpolation.TrackOrderSpec | cvat/apps/annotation/builtin/cvat/dumper.py:205-221 | The dictionary's keys are distinct. They are exactly the track ids other than -1 that some shape carries. |
| Interpolation.GroupSpec | cvat/apps/annotation/builtin/cvat/dumper.py:205-227 | The tracks are the grouped ones first, in first-appearance order of their ids, each holding all observations of its id in order. Then come one single-observation track per shape outside every track, in order, under the fresh ids. |
| Interpolation.GroupIdsDistinct | cvat/apps/annotation/builtin/cvat/dumper.py:205-227 | Every observation of a track carries the track's id, and no two tracks share an id. |
| Interpolation.GroupIds | cvat/apps/annotation/builtin/cvat/dumper.py:223-227 | The i-th track's id is the i-th key for a grouped track. For the k-th shape outside every track it is the first fresh id plus k. |
| Interpolation.GroupTotal | cvat/apps/annotation/builtin/cvat/dumper.py:205-227 | Grouping loses and duplicates nothing: the tracks hold exactly as many observations as there are shapes. |
| Interpolation.FirstFreshId | cvat/apps/annotation/builtin/cvat/dumper.py:223 | The first fresh id is greater than every track id, and it is 0 when there are no tracks. |
| Interpolation.PromotedSpec | cvat/apps/annotation/builtin/cvat/dumper.py:224-227 | The k-th shape outside every track gets id start+k and otherwise keeps its frame, size and fields. |
| Interpolation.GroupShapes | cvat/apps/annotation/builtin/cvat/dumper.py:205-221 | The grouping loop builds a dictionary whose values in insertion order are the grouped tracks, and the list of shapes outside every track. |
| Interpolation.AddObservation | cvat/apps/annotation/builtin/cvat/dumper.py:207-221 | One step of the grouping loop keeps the dictionary and the single-shape list in agreement with the observations seen so far. |
| Interpolation.PromoteSingles | cvat/apps/annotation/builtin/cvat/dumper.py:223-227 | Appends one single-observation track per shape outside every track, under consecutive fresh ids, after the existing tracks. |
| Interpolation.WithClosingSpec | cvat/apps/annotation/builtin/cvat/dumper.py:231-235 | A closing observation is added exactly when the last frame is before the stop frame. It is on the next frame, is marked outside, and otherwise copies the last observation (its frame size and shape). |
| Interpolation.ObservationsOrdered | cvat/apps/annotation/builtin/cvat/dumper.py:205-219 | When the frames come in ascending order, the observations are collected in non-decreasing frame order, none lies after the last frame, and two observations of one track on the same frame can only come from a frame that holds two shapes of that track. |
| Interpolation.ClosingKeepsOrder | cvat/apps/annotation/builtin/cvat/dumper.py:231-235 | Adding the closing observation keeps a track's frames non-decreasing, and keeps them strictly increasing when they were. |
| Interpolation.TrackOrdered | cvat/apps/annotation/builtin/cvat/dumper.py:205-227 | When the frames come in ascending order, every grouped track, promoted single shapes included, has non-decreasing frames, and strictly increasing frames when no frame holds two shapes of one track. |
| Interpolation.TracksInFrameOrder | cvat/apps/annotation/builtin/cvat/dumper.py:205-235 | When the frames come in ascending order, every written track, closing observation included, lists its observations in non-decreasing frame order, and in strictly increasing order when no frame holds two shapes of one track. |
| Interpolation.ClosingExample | cvat/apps/annotation/builtin/cvat/dumper.py:223-235 | A single visible shape on frame 4 with stop frame 10 gives one track of two observations: frames 4 and 5, the second marked outside. |
| Interpolation.TrackAttrsSpec | cvat/apps/annotation/builtin/cvat/dumper.py:237-245 | A track's attributes are id (its position), then label (its first shape's label), then group_id when that shape is grouped. It uses the corrected group test; see Findings. |
| Interpolation.TrackIdsDense | cvat/apps/annotation/builtin/cvat/dumper.py:229-245 | The written tracks are numbered 0, 1, 2, … in order, so no two share an id. |
| Interpolation.ObservationHead | cvat/apps/annotation/builtin/cvat/dumper.py:248-253 | An observation's first attributes are frame, outside, occluded and keyframe. The frame reads back as the observation's frame. |
| Interpolation.ObservationAttrsSpec | cvat/apps/annotation/builtin/cvat/dumper.py:248-269 | An observation's attributes are the four head attributes, the same geometry as in the image mode, then z_order when enabled. They fail exactly when the geometry fails. |
| Interpolation.ObservationData | cvat/apps/annotation/builtin/cvat/dumper.py:248-269 | The loop body that builds `dump_data` computes exactly the observation's attributes. |
| Interpolation.GeometryInBothModes | cvat/apps/annotation/builtin/cvat/dumper.py:255-266 | The track mode writes a shape's geometry exactly as the image mode does. |
| Annotation.PointsTextInBothModes | cvat/apps/annotation/builtin/cvat/dumper.py:263-265 | The track mode's points text, built with one format string per pair, equals the image mode's text built by joining the two formatted coordinates. |
| Interpolation.ObservationResultSpec | cvat/apps/annotation/builtin/cvat/dumper.py:247-297 | An observation is written exactly when its type is known and a rectangle has 4 coordinates. On success the element has the right tag, the attributes in order and one child per attribute. |
| Interpolation.InterpolationOutputSucceeds | cvat/apps/annotation/builtin/cvat/dumper.py:203-298 | The track mode fails exactly when some observation cannot be written. Otherwise it writes exactly the `track` elements. |
| Interpolation.DumpObservation | cvat/apps/annotation/builtin/cvat/dumper.py:247-297 | The loop body writes exactly the observation's element, or stops with its failure. |
| Interpolation.DumpObservations | cvat/apps/annotation/builtin/cvat/dumper.py:247-297 | The observation loop writes the elements in order and stops at the first failure. |
| Interpolation.DumpTrack | cvat/apps/annotation/builtin/cvat/dumper.py:229-298 | Writing one track appends exactly its emission. On failure the `track` element is left open. It uses the corrected group test; see Findings. |
| Interpolation.DumpTracks | cvat/apps/annotation/builtin/cvat/dumper.py:229-298 | The `enumerate(tracks.values())` loop writes the tracks in the dictionary's order and stops at the first failure. |
| Interpolation.DumpAsInterpolation | cvat/apps/annotation/builtin/cvat/dumper.py:203-298 | `dump_as_cvat_interpolation` appends exactly the track mode's output. On success the open elements are as before; on failure one `track` is left open. It uses the corrected group test; see Findings. |
| Dump.ModeSucceeds | cvat/apps/annotation/builtin/cvat/dumper.py:305-308 | The format name "cvat_annotation" selects the image mode and any other name the track mode. The chosen mode succeeds exactly when it can write every shape. |
| Dump.DocumentSucceeds | cvat/apps/annotation/builtin/cvat/dumper.py:301-310 | The dump succeeds exactly when the chosen mode can write every shape. Then its output is one well-nested document: `annotations` holding the version, the meta and the mode's elements. |
| Dump.EmptyDocument | cvat/apps/annotation/builtin/cvat/dumper.py:301-310 | With no frames, either mode writes the document holding just the version and the meta. |
| Dump.Dump | cvat/apps/annotation/builtin/cvat/dumper.py:301-310 | The glue writes exactly the document output. On success the level is 0 and the output is well nested. On failure `annotations` and the mode's element are left open (level 2). It uses the corrected group test; see Findings. |
| Annotation.GroupIdLostAsWritten | cvat/apps/annotation/builtin/cvat/dumper.py:170-171 | As written, a grouped shape whose type and label are not the text "group" gets no `group_id`, where the corrected test writes one. |

## Left out

- XML text escaping, the `utf-8` encoding, `startDocument` (line 28), `endDocument` (line 133), and the `_indent` newlines and indentation (lines 16-19). These are whitespace and the XML generator's own work. Output is modelled as start, text and end events.
- The file object. The output is the writer's `events` field.
- Floating point. Coordinates are integers counting hundredths, so `{:.2f}` is exact. Rounding of finer values is not modelled.
- Meta lookups. The task's `z_order` text and the value of `int(meta["task"]["stop_frame"])` are inputs (`TaskSettings`). A `stop_frame` that is not a number, and a meta without those keys, are not modelled.
- The meta tree is a sequence of key/value entries. A value is a mapping, a list of pairs or a text. Dictionary types other than these three are not modelled.
- A shape's `group` is an integer with 0 meaning no group. A `None` group is modelled as 0.
- Boolean fields are `bool`. The `outside=1` of the closing observation is modelled as `true`, which `str(int(...))` writes the same way.
- `deepcopy`, `_replace`, and the in-place append of the closing observation to the track's list. The model builds the written track as a new value (`Interpolation.WithClosing`); nothing else reads the list afterwards.
- The source's `append` onto a dictionary entry is modelled as replacing the map value.
- The track dictionary is iterated in insertion order, as Python 3.7 and later guarantee for `dict` (`Interpolation.GroupShapes`, `Interpolation.DumpTracks`, `Interpolation.TrackIdsDense`). Tracks therefore come in first-appearance order of their ids, not numeric order. Older Python versions are not modelled.
- PerFrame.ShapeData, PerFrame.ShapeAttrsSpec, PerFrame.ShapeResultSpec, PerFrame.DumpAsAnnotation, Interpolation.TrackAttrsSpec, Interpolation.DumpTrack, Interpolation.DumpAsInterpolation, Dump.Dump: these write `group_id` with the corrected test (a non-zero group), not the source's `"group" in shape` test at lines 170 and 243. For a grouped shape whose type and label are not the text "group", they write a `group_id` that the source omits; see Findings.
- XmlWriter.XmlAnnotationWriter.CloseElement, XmlWriter.XmlAnnotationWriter.CloseRoot: require that the tag being closed is the innermost open element. The source does not check this, for `close_root` (lines 129-133) no more than for the other `close_*` methods. Every caller in the dumper meets it; `close_root` is called only at line 310, after every other element has been closed.
- Exceptions other than the two failures, such as a missing field on a shape record, are not modelled.

## Findings

| source | as written | input that shows it | evidently intended | confidence | as-written member | corrected member |
|---|---|---|---|---|---|---|
| cvat/apps/annotation/builtin/cvat/dumper.py:170-171 and :243-244 | `"group" in shape` on a shape named tuple tests whether some field's VALUE equals the text "group", not whether the field exists | a rectangle labelled "car" with group 5: no `group_id` is written | write `group_id` whenever the shape has a non-zero group | medium, not executed | Annotation.GroupIdLostAsWritten | Annotation.GroupAttrsSpec |
