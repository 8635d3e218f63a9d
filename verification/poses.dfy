/** Poses `[x, y, z, rx, ry, rz]` and the `validate_pose` shape check
    (src/blender_camera/models/pose.py). */
module Poses {

  /** A Python float: a finite value, NaN or one of the two infinities. */
  datatype Float = Finite(r: real) | NaN | PosInf | NegInf

  /** `Pose = list[float]`: position then axis-angle rotation. */
  type Pose = seq<Float>

  /** The default pose `[0, 0, 0, 0, 0, 0]`: the `list[float]` field stores
      the integers as floats. */
  const ZeroPose: Pose := [Finite(0.0), Finite(0.0), Finite(0.0), Finite(0.0), Finite(0.0), Finite(0.0)]

  /** The JSON-like Python values a request body can carry. A Python `bool`
      is an `int`, never a `float`. */
  datatype PyValue =
    | PyFloat(f: Float)
    | PyInt(i: int)
    | PyBool(b: bool)
    | PyStr(s: string)
    | PyNone
    | PyList(items: seq<PyValue>)
    | PyTuple(elems: seq<PyValue>)
    | PyDict(pairs: seq<(string, PyValue)>)

  /** `validate_pose`: a `list` of exactly six `float` elements. */
  predicate ValidatePose(v: PyValue) {
    && v.PyList?
    && |v.items| == 6
    && forall i :: 0 <= i < |v.items| ==> v.items[i].PyFloat?
  }

  /** The list value a pose is sent as. */
  function AsPyValue(p: Pose): (v: PyValue)
    ensures v.PyList? && |v.items| == |p|
    ensures forall i :: 0 <= i < |p| ==> v.items[i] == PyFloat(p[i])
  {
    PyList(seq(|p|, i requires 0 <= i < |p| => PyFloat(p[i])))
  }

  /** The pose a validated list value carries. */
  function AsPose(v: PyValue): (p: Pose)
    requires ValidatePose(v)
    ensures |p| == 6
    ensures AsPyValue(p) == v
  {
    var p := seq(6, i requires 0 <= i < 6 => v.items[i].f);
    assert AsPyValue(p).items == v.items;
    p
  }

  /** `validate_pose` accepts exactly the values that are some six-element
      pose sent as a list. */
  lemma ValidatePoseCharacterisation(v: PyValue)
    ensures ValidatePose(v) <==> exists p: Pose :: |p| == 6 && v == AsPyValue(p)
  {
    if ValidatePose(v) {
      var p := AsPose(v);
      assert |p| == 6 && v == AsPyValue(p);
    }
  }

  /** Sending a pose and reading it back is the identity, and it validates
      exactly when it has six components. */
  lemma PoseRoundTrip(p: Pose)
    ensures ValidatePose(AsPyValue(p)) <==> |p| == 6
    ensures |p| == 6 ==> AsPose(AsPyValue(p)) == p
  {
  }

  /** The shapes the check turns away: wrong lengths, a non-float element
      among floats, and containers other than `list`. */
  lemma ValidatePoseRejects(v: PyValue, i: nat)
    ensures v.PyList? && |v.items| in {0, 5, 7} ==> !ValidatePose(v)
    ensures v.PyList? && i < |v.items| && (v.items[i].PyInt? || v.items[i].PyStr? || v.items[i].PyNone?)
            ==> !ValidatePose(v)
    ensures v.PyTuple? || v.PyDict? || v.PyNone? ==> !ValidatePose(v)
  {
  }

  /** NaN and the infinities are floats, so they pass. */
  lemma ValidatePoseAcceptsNonFinite(a: real, b: real, c: real)
    ensures ValidatePose(PyList([PyFloat(NaN), PyFloat(PosInf), PyFloat(NegInf),
                                 PyFloat(Finite(a)), PyFloat(Finite(b)), PyFloat(Finite(c))]))
  {
  }
}
