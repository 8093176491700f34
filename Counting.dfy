/**
 * The vehicle filter of `detect_vehicles`: every box of every result whose
 * class id is car (2), motorcycle (3), bus (5) or truck (7) adds one to the
 * count and one label to `detected_vehicles`, in box order.
 */
module Counting {
  /** A detection box: class id, confidence and corners (x1, y1, x2, y2). */
  datatype Box = Box(classId: int, conf: real, bbox: (int, int, int, int))

  /** The label drawn for a vehicle box: the class named by the model's table and the confidence. */
  datatype Label = Label(classId: int, conf: real)

  predicate IsVehicle(classId: int) {
    classId == 2 || classId == 3 || classId == 5 || classId == 7
  }

  function LabelOf(b: Box): Label {
    Label(b.classId, b.conf)
  }

  /** All boxes of all results, in the order the two loops visit them. */
  function Flatten(results: seq<seq<Box>>): seq<Box> {
    if results == [] then [] else Flatten(results[..|results| - 1]) + results[|results| - 1]
  }

  /** The labels of the vehicle boxes, in order. */
  function VehicleLabels(boxes: seq<Box>): seq<Label> {
    if boxes == [] then []
    else
      var last := boxes[|boxes| - 1];
      VehicleLabels(boxes[..|boxes| - 1]) + (if IsVehicle(last.classId) then [LabelOf(last)] else [])
  }

  /** The positions of the vehicle boxes, in increasing order. */
  function VehicleIndices(boxes: seq<Box>): seq<nat> {
    if boxes == [] then []
    else
      var n := |boxes| - 1;
      VehicleIndices(boxes[..n]) + (if IsVehicle(boxes[n].classId) then [n] else [])
  }

  /** The set of vehicle positions, an order-free reference for the count. */
  function VehiclePositions(boxes: seq<Box>): set<nat> {
    set k: nat | k < |boxes| && IsVehicle(boxes[k].classId)
  }

  lemma {:induction false} VehicleLabelsAppend(a: seq<Box>, b: seq<Box>)
    ensures VehicleLabels(a + b) == VehicleLabels(a) + VehicleLabels(b)
    decreases |b|
  {
    if b != [] {
      var b' := b[..|b| - 1];
      assert (a + b)[..|a + b| - 1] == a + b';
      assert (a + b)[|a + b| - 1] == b[|b| - 1];
      VehicleLabelsAppend(a, b');
    } else {
      assert a + b == a;
    }
  }

  lemma {:induction false} FlattenSnoc(results: seq<seq<Box>>, r: seq<Box>)
    ensures Flatten(results + [r]) == Flatten(results) + r
  {
    assert (results + [r])[..|results + [r]| - 1] == results;
  }

  /** The count loop over results and their boxes. */
  method CountVehicles(results: seq<seq<Box>>) returns (count: nat, labels: seq<Label>)
    ensures labels == VehicleLabels(Flatten(results))
    ensures count == |labels|
  {
    count, labels := 0, [];
    for i := 0 to |results|
      invariant labels == VehicleLabels(Flatten(results[..i]))
      invariant count == |labels|
    {
      var boxes := results[i];
      assert Flatten(results[..i]) + boxes[..0] == Flatten(results[..i]);
      for j := 0 to |boxes|
        invariant labels == VehicleLabels(Flatten(results[..i]) + boxes[..j])
        invariant count == |labels|
      {
        var box := boxes[j];
        assert boxes[..j + 1] == boxes[..j] + [box];
        VehicleLabelsAppend(Flatten(results[..i]) + boxes[..j], [box]);
        assert Flatten(results[..i]) + boxes[..j + 1] == Flatten(results[..i]) + boxes[..j] + [box];
        assert VehicleLabels([box]) == (if IsVehicle(box.classId) then [LabelOf(box)] else []);
        if IsVehicle(box.classId) {
          count := count + 1;
          labels := labels + [LabelOf(box)];
        }
      }
      assert boxes[..|boxes|] == boxes;
      FlattenSnoc(results[..i], boxes);
      assert results[..i + 1] == results[..i] + [boxes];
    }
    assert results[..|results|] == results;
  }

  /**
   * The labels are those of the vehicle boxes in box order: position k of the
   * labels belongs to box VehicleIndices(boxes)[k]; those positions increase
   * strictly and are exactly the positions of vehicle boxes.
   */
  lemma {:induction false} VehicleLabelsInBoxOrder(boxes: seq<Box>)
    ensures var ix := VehicleIndices(boxes);
      && |ix| == |VehicleLabels(boxes)|
      && (forall k :: 0 <= k < |ix| ==> ix[k] < |boxes| && VehicleLabels(boxes)[k] == LabelOf(boxes[ix[k]]))
      && (forall k, l :: 0 <= k < l < |ix| ==> ix[k] < ix[l])
      && (forall p :: 0 <= p < |boxes| ==> (p in ix <==> IsVehicle(boxes[p].classId)))
  {
    if boxes != [] {
      var n := |boxes| - 1;
      var init := boxes[..n];
      VehicleLabelsInBoxOrder(init);
      var ix, ix0 := VehicleIndices(boxes), VehicleIndices(init);
      forall k | 0 <= k < |ix0|
        ensures ix[k] == ix0[k] && boxes[ix0[k]] == init[ix0[k]]
      {
      }
      forall p | 0 <= p < |boxes|
        ensures p in ix <==> IsVehicle(boxes[p].classId)
      {
        if p < n {
          assert boxes[p] == init[p];
          assert n !in ix0;
        }
      }
    }
  }

  /** The count is the number of vehicle boxes, whatever their order. */
  lemma {:induction false} VehicleCountIsCardinality(boxes: seq<Box>)
    ensures |VehicleLabels(boxes)| == |VehiclePositions(boxes)|
  {
    if boxes != [] {
      var n := |boxes| - 1;
      var init := boxes[..n];
      VehicleCountIsCardinality(init);
      var rest := VehiclePositions(init);
      if IsVehicle(boxes[n].classId) {
        assert VehiclePositions(boxes) == rest + {n};
        assert n !in rest;
      } else {
        assert VehiclePositions(boxes) == rest;
      }
    } else {
      assert VehiclePositions(boxes) == {};
    }
  }

  /** The count never exceeds the number of boxes. */
  lemma {:induction false} VehicleCountBounded(boxes: seq<Box>)
    ensures |VehicleLabels(boxes)| <= |boxes|
  {
    if boxes != [] {
      VehicleCountBounded(boxes[..|boxes| - 1]);
    }
  }

  /** Without a vehicle-class box there is no label, so the count is 0. */
  lemma {:induction false} NoVehiclesNoLabels(boxes: seq<Box>)
    requires forall k :: 0 <= k < |boxes| ==> !IsVehicle(boxes[k].classId)
    ensures VehicleLabels(boxes) == []
  {
    if boxes != [] {
      NoVehiclesNoLabels(boxes[..|boxes| - 1]);
    }
  }
}
