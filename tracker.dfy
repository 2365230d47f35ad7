/**
 * tracker.py: routing the boxes of one detector result into the person
 * list and the ball list. The tensor unwrapping is not modelled: a raw box
 * carries the values that one of the two parsing routes extracted, or
 * nothing when both routes failed.
 */
module Tracker {
  import opened Wrappers
  import opened Geometry

  /** One routed detection, `{'id': track_id, 'box': xyxy, 'conf': conf}`. */
  datatype Detection = Detection(id: Option<int>, box: Box, conf: real)

  /** The `id` attribute of a raw box: missing, an integer, or something `int()` rejects. */
  datatype IdField = NoIdAttribute | IdValue(value: int) | IdUnparseable

  /** Class index, confidence and corners of a raw box. */
  datatype BoxFields = BoxFields(cls: int, conf: real, xyxy: Box)

  /** A raw box: its fields, or `None` when neither parsing route could read them. */
  datatype RawBox = RawBox(fields: Option<BoxFields>, id: IdField)

  /** A detector result: without a `boxes` attribute, or with its boxes in detector order. */
  datatype FrameResult = NoBoxes | Boxes(boxes: seq<RawBox>)

  /** Where a raw box goes. */
  datatype Route = ToPersons | ToBalls | Dropped

  const BALL_NAMES: seq<string> := ["sports ball", "ball", "sports_ball"]

  /** The track id: `None` when the attribute is absent or cannot be converted. */
  function TrackId(f: IdField): Option<int>
  {
    match f
    case IdValue(v) => Some(v)
    case _ => None
  }

  /**
   * Python truthiness of a track id, as the analysis tests it (`if pid`,
   * `if owner_pid`): absent ids and the id 0 are both false.
   */
  predicate Truthy(id: Option<int>)
  {
    id.Some? && id.value != 0
  }

  function DigitChar(d: nat): char
    requires d < 10
  {
    "0123456789"[d]
  }

  /** Python's `str(n)` for a natural number. */
  function NatToString(n: nat): string
    decreases n
  {
    if n < 10 then [DigitChar(n)] else NatToString(n / 10) + [DigitChar(n % 10)]
  }

  /** Python's `str(i)` for an integer. */
  function IntToString(i: int): string
  {
    if i < 0 then "-" + NatToString(-i) else NatToString(i)
  }

  lemma {:induction false} NatToStringStartsWithDigit(n: nat)
    ensures |NatToString(n)| > 0 && '0' <= NatToString(n)[0] <= '9'
  {
    if n >= 10 {
      NatToStringStartsWithDigit(n / 10);
      assert NatToString(n)[0] == NatToString(n / 10)[0];
    }
  }

  /** `str(i)` starts with a digit or a minus sign. */
  lemma IntToStringStart(i: int)
    ensures |IntToString(i)| > 0
    ensures IntToString(i)[0] == '-' || '0' <= IntToString(i)[0] <= '9'
  {
    if i < 0 {
      NatToStringStartsWithDigit(-i);
    } else {
      NatToStringStartsWithDigit(i);
    }
  }

  /** `model.model.names.get(cls, str(cls))`. */
  function ClassName(names: map<int, string>, cls: int): string
  {
    if cls in names then names[cls] else IntToString(cls)
  }

  /** The branch a raw box takes in the routing loop. */
  function RouteOf(names: map<int, string>, b: RawBox): Route
  {
    if b.fields.None? then Dropped
    else
      var name := ClassName(names, b.fields.value.cls);
      if name == "person" then ToPersons
      else if name in BALL_NAMES then ToBalls
      else Dropped
  }

  /** The dictionary appended for a parsed box. */
  function ToDetection(b: RawBox): Detection
    requires b.fields.Some?
  {
    Detection(TrackId(b.id), b.fields.value.xyxy, b.fields.value.conf)
  }

  /** The detections that the routing loop appends to list `r`, in box order. */
  function Select(names: map<int, string>, boxes: seq<RawBox>, r: Route): seq<Detection>
    requires r != Dropped
    decreases |boxes|
  {
    if boxes == [] then []
    else
      var last := boxes[|boxes| - 1];
      var rest := Select(names, boxes[..|boxes| - 1], r);
      if RouteOf(names, last) == r then rest + [ToDetection(last)] else rest
  }

  /** `parse_frame_results`: split a result's boxes into persons and balls. */
  method ParseFrameResults(res: FrameResult, names: map<int, string>)
    returns (persons: seq<Detection>, balls: seq<Detection>)
    ensures res.NoBoxes? ==> persons == [] && balls == []
    ensures res.Boxes? ==> persons == Select(names, res.boxes, ToPersons)
    ensures res.Boxes? ==> balls == Select(names, res.boxes, ToBalls)
  {
    persons, balls := [], [];
    if res.NoBoxes? {
      return;
    }
    var boxes := res.boxes;
    for i := 0 to |boxes|
      invariant persons == Select(names, boxes[..i], ToPersons)
      invariant balls == Select(names, boxes[..i], ToBalls)
    {
      assert boxes[..i + 1][..i] == boxes[..i];
      var box := boxes[i];
      if box.fields.None? {
        continue;
      }
      var f := box.fields.value;
      var name := ClassName(names, f.cls);
      var trackId := TrackId(box.id);
      if name == "person" {
        persons := persons + [Detection(trackId, f.xyxy, f.conf)];
      } else if name in BALL_NAMES {
        balls := balls + [Detection(trackId, f.xyxy, f.conf)];
      }
    }
    assert boxes[..|boxes|] == boxes;
  }

  /** Routing distributes over concatenation: the relative order of boxes is kept. */
  lemma {:induction false} SelectAppend(names: map<int, string>, a: seq<RawBox>, b: seq<RawBox>, r: Route)
    requires r != Dropped
    ensures Select(names, a + b, r) == Select(names, a, r) + Select(names, b, r)
    decreases |b|
  {
    if b == [] {
      assert a + b == a;
    } else {
      var b' := b[..|b| - 1];
      assert (a + b)[..|a + b| - 1] == a + b';
      SelectAppend(names, a, b', r);
    }
  }

  /**
   * Every routed detection comes from a box that takes that route, and the
   * detections appear in the order of their boxes: `idx` maps each output
   * position to its box, strictly increasing.
   */
  lemma {:induction false} SelectOrigins(names: map<int, string>, boxes: seq<RawBox>, r: Route)
    returns (idx: seq<nat>)
    requires r != Dropped
    ensures |idx| == |Select(names, boxes, r)|
    ensures forall k :: 0 <= k < |idx| ==> idx[k] < |boxes|
    ensures forall k :: 0 <= k < |idx| ==>
      RouteOf(names, boxes[idx[k]]) == r && Select(names, boxes, r)[k] == ToDetection(boxes[idx[k]])
    ensures forall k, l :: 0 <= k < l < |idx| ==> idx[k] < idx[l]
    decreases |boxes|
  {
    if boxes == [] {
      idx := [];
    } else {
      var n := |boxes| - 1;
      var rest := SelectOrigins(names, boxes[..n], r);
      if RouteOf(names, boxes[n]) == r {
        idx := rest + [n];
      } else {
        idx := rest;
      }
    }
  }

  /** Every box that takes route `r` shows up in that list. */
  lemma {:induction false} SelectComplete(names: map<int, string>, boxes: seq<RawBox>, r: Route, i: nat)
    requires r != Dropped
    requires i < |boxes| && RouteOf(names, boxes[i]) == r
    ensures ToDetection(boxes[i]) in Select(names, boxes, r)
    decreases |boxes|
  {
    var n := |boxes| - 1;
    if i < n {
      SelectComplete(names, boxes[..n], r, i);
    }
  }

  /** A class index missing from the name table is named `str(cls)`, which no route accepts. */
  lemma UnknownClassIsDropped(names: map<int, string>, b: RawBox)
    requires b.fields.Some? && b.fields.value.cls !in names
    ensures RouteOf(names, b) == Dropped
  {
    var s := IntToString(b.fields.value.cls);
    IntToStringStart(b.fields.value.cls);
    assert s != "person" by { assert "person"[0] == 'p'; }
    assert s !in BALL_NAMES by {
      assert "sports ball"[0] == 's' && "ball"[0] == 'b' && "sports_ball"[0] == 's';
    }
  }

  /**
   * The route of a box in terms of the detector's name table alone: a
   * readable box goes to the persons exactly when its class is in the table
   * and named "person", and to the balls exactly when it is in the table
   * under one of the ball names. The `str(cls)` fallback never routes.
   */
  lemma RouteOfMeaning(names: map<int, string>, b: RawBox)
    ensures RouteOf(names, b) == ToPersons <==>
      b.fields.Some? && b.fields.value.cls in names && names[b.fields.value.cls] == "person"
    ensures RouteOf(names, b) == ToBalls <==>
      b.fields.Some? && b.fields.value.cls in names && names[b.fields.value.cls] in BALL_NAMES
  {
    if b.fields.Some? && b.fields.value.cls !in names {
      UnknownClassIsDropped(names, b);
    }
  }

  /**
   * The id a routed detection carries: a box with a convertible `id`
   * attribute gives that id; a box without one, or with one `int()`
   * rejects, gives None.
   */
  lemma RoutedIds(names: map<int, string>, boxes: seq<RawBox>, r: Route, pid: int)
    requires r != Dropped
    ensures (exists k :: 0 <= k < |Select(names, boxes, r)| && Select(names, boxes, r)[k].id == Some(pid)) <==>
      exists i :: 0 <= i < |boxes| && RouteOf(names, boxes[i]) == r && boxes[i].id == IdValue(pid)
  {
    var sel := Select(names, boxes, r);
    if exists k :: 0 <= k < |sel| && sel[k].id == Some(pid) {
      var k :| 0 <= k < |sel| && sel[k].id == Some(pid);
      var idx := SelectOrigins(names, boxes, r);
      assert RouteOf(names, boxes[idx[k]]) == r && boxes[idx[k]].id == IdValue(pid);
    }
    if exists i :: 0 <= i < |boxes| && RouteOf(names, boxes[i]) == r && boxes[i].id == IdValue(pid) {
      var i :| 0 <= i < |boxes| && RouteOf(names, boxes[i]) == r && boxes[i].id == IdValue(pid);
      SelectComplete(names, boxes, r, i);
      var k :| 0 <= k < |sel| && sel[k] == ToDetection(boxes[i]);
      assert sel[k].id == Some(pid);
    }
  }

  /** A result without boxes routes nothing; one with only unparseable boxes routes nothing either. */
  lemma {:induction false} UnparseableBoxesSkipped(names: map<int, string>, boxes: seq<RawBox>, r: Route)
    requires r != Dropped
    requires forall i :: 0 <= i < |boxes| ==> boxes[i].fields.None?
    ensures Select(names, boxes, r) == []
    decreases |boxes|
  {
    if boxes != [] {
      UnparseableBoxesSkipped(names, boxes[..|boxes| - 1], r);
    }
  }
}
