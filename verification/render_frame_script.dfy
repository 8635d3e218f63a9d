/** Turning the renderer's three EXR outputs into the buffers of a `Frame`
    (src/blender_camera/scripts/render_frame_script.py). An opened EXR file
    is given as its data window, its declared channel names and the flat
    float data of each channel; reading the files, running the renderer and
    the temporary-file lifecycle are not part of this model. */
module RenderFrameScript {
  import opened Wrappers
  import opened Poses
  import opened Entities
  import opened Buffers
  import opened FrameRaster

  /** An EXR `dataWindow`: pixel bounds, inclusive at both ends. */
  datatype DataWindow = DataWindow(minX: int, minY: int, maxX: int, maxY: int)

  /** `dw.max.x - dw.min.x + 1` */
  function Width(dw: DataWindow): int {
    dw.maxX - dw.minX + 1
  }

  /** `dw.max.y - dw.min.y + 1` */
  function Height(dw: DataWindow): int {
    dw.maxY - dw.minY + 1
  }

  /** The integer coordinates from `lo` to `hi`, both included. */
  function Span(lo: int, hi: int): (s: set<int>)
    ensures forall x :: x in s <==> lo <= x <= hi
    decreases hi - lo
  {
    if lo > hi then {} else Span(lo, hi - 1) + {hi}
  }

  lemma {:induction false} SpanSize(lo: int, hi: int)
    requires lo <= hi + 1
    ensures |Span(lo, hi)| == hi - lo + 1
    decreases hi - lo + 1
  {
    if lo == hi + 1 {
      assert Span(lo, hi) == {};
    } else {
      SpanSize(lo, hi - 1);
      assert Span(lo, hi) == Span(lo, hi - 1) + {hi};
    }
  }

  /** Because the data window's bounds are inclusive, the width and height
      are the numbers of pixel columns and rows it covers. */
  lemma DimensionsCountPixels(dw: DataWindow)
    requires dw.minX <= dw.maxX + 1 && dw.minY <= dw.maxY + 1
    ensures Width(dw) == |Span(dw.minX, dw.maxX)|
    ensures Height(dw) == |Span(dw.minY, dw.maxY)|
  {
    SpanSize(dw.minX, dw.maxX);
    SpanSize(dw.minY, dw.maxY);
  }

  /** An opened EXR file: header data window, declared channel names in
      header order, and the float samples of each channel that can be read. */
  datatype ExrFile = ExrFile(window: DataWindow, channels: seq<string>, data: map<string, seq<real>>)

  /** What an EXR file read from disk satisfies: the data window's maxima
      are not below its minima, and the channels the header declares are
      exactly the ones that can be read. */
  ghost predicate WellFormed(f: ExrFile) {
    && f.window.minX <= f.window.maxX
    && f.window.minY <= f.window.maxY
    && forall name :: name in f.data <==> name in f.channels
  }

  /** Every channel of the file holds one sample per pixel of its window. */
  ghost predicate SamplesFitWindow(f: ExrFile) {
    forall name :: name in f.data ==> |f.data[name]| == Height(f.window) * Width(f.window)
  }

  /** What the conversion raises: a channel the file cannot deliver, a
      sample count that does not fit the data window, or a camera whose
      pose is missing or too short to index. */
  datatype DecodeError =
    | MissingChannel(name: string)
    | BadShape(size: nat, height: int, width: int)
    | NoPose
    | PoseTooShort(length: nat)

  /** `file.channel(name, FLOAT)` */
  function ReadChannel(f: ExrFile, name: string): (r: Result<seq<real>, DecodeError>)
    ensures r.Ok? <==> name in f.data
    ensures r.Ok? ==> r.value == f.data[name]
    ensures r.Err? ==> r.error == MissingChannel(name)
  {
    if name in f.data then Ok(f.data[name]) else Err(MissingChannel(name))
  }

  /** `np.frombuffer(data, np.float32).reshape((height, width))` for the
      file's data window: succeeds exactly when the sample count is
      `height * width`, and then reads the samples back row-major. */
  function ReshapeToWindow(flat: seq<real>, dw: DataWindow): (r: Result<Plane<real>, DecodeError>)
    ensures r.Ok? <==> 0 <= Height(dw) && 0 <= Width(dw) && |flat| == Height(dw) * Width(dw)
    ensures r.Ok? ==> IsGrid(r.value, Height(dw), Width(dw)) && Flatten(r.value) == flat
    ensures r.Err? ==> r.error == BadShape(|flat|, Height(dw), Width(dw))
  {
    match Reshape(flat, Height(dw), Width(dw))
    case None => Err(BadShape(|flat|, Height(dw), Width(dw)))
    case Some(p) =>
      FlattenReshape(flat, Height(dw), Width(dw));
      Ok(p)
  }

  /** The depth channel names tried, in priority order. */
  const DepthPriority: seq<string> := ["Z", "Depth", "R", "G", "B", "A"]

  /** The position of the first of `names` that `available` declares. */
  function FirstPresent(names: seq<string>, available: seq<string>): (r: Option<nat>)
    ensures r.Some? ==> r.value < |names| && names[r.value] in available
    ensures r.Some? ==> forall j :: 0 <= j < r.value ==> names[j] !in available
    ensures r.None? ==> forall j :: 0 <= j < |names| ==> names[j] !in available
  {
    if names == [] then None
    else if names[0] in available then Some(0)
    else
      match FirstPresent(names[1..], available)
      case None => None
      case Some(k) => Some(k + 1)
  }

  /** The depth channel of `_convert_depth_exr_to_np`: the first of `Z`,
      `Depth`, `R`, `G`, `B`, `A` that is declared; failing all of them the
      first declared channel; with no channels at all, `R`. */
  function SelectDepthChannel(available: seq<string>): (name: string)
    ensures "Z" in available ==> name == "Z"
    ensures forall k :: 0 <= k < |DepthPriority| && DepthPriority[k] in available
              && (forall j :: 0 <= j < k ==> DepthPriority[j] !in available)
              ==> name == DepthPriority[k]
    ensures (forall k :: 0 <= k < |DepthPriority| ==> DepthPriority[k] !in available) ==>
              name == (if |available| > 0 then available[0] else "R")
    ensures |available| > 0 ==> name in available
  {
    match FirstPresent(DepthPriority, available)
    case Some(k) => DepthPriority[k]
    case None => if |available| > 0 then available[0] else "R"
  }

  /** `_convert_depth_exr_to_np`: the selected channel, reshaped to the
      data window. */
  function ConvertDepth(f: ExrFile): (r: Result<Plane<real>, DecodeError>)
    ensures var name := SelectDepthChannel(f.channels);
            && (name !in f.data ==> r == Err(MissingChannel(name)))
            && (name in f.data ==> r == ReshapeToWindow(f.data[name], f.window))
            && (r.Ok? ==> IsGrid(r.value, Height(f.window), Width(f.window)) && Flatten(r.value) == f.data[name])
  {
    var name := SelectDepthChannel(f.channels);
    match ReadChannel(f, name)
    case Err(e) => Err(e)
    case Ok(flat) => ReshapeToWindow(flat, f.window)
  }

  /** Read three named channels, reshape each to the data window, and stack
      them last-axis: the three reads come first, then the three reshapes,
      and the first failure is the one reported. */
  function ConvertTriplet(f: ExrFile, n0: string, n1: string, n2: string): (r: Result<Image3<real>, DecodeError>)
    ensures n0 !in f.data ==> r == Err(MissingChannel(n0))
    ensures n0 in f.data && n1 !in f.data ==> r == Err(MissingChannel(n1))
    ensures n0 in f.data && n1 in f.data && n2 !in f.data ==> r == Err(MissingChannel(n2))
    ensures r.Ok? <==>
              && n0 in f.data && n1 in f.data && n2 in f.data
              && 0 <= Height(f.window) && 0 <= Width(f.window)
              && |f.data[n0]| == |f.data[n1]| == |f.data[n2]| == Height(f.window) * Width(f.window)
    ensures r.Ok? ==>
              && IsGrid(r.value, Height(f.window), Width(f.window))
              && Flatten(ChannelPlane(r.value, 0)) == f.data[n0]
              && Flatten(ChannelPlane(r.value, 1)) == f.data[n1]
              && Flatten(ChannelPlane(r.value, 2)) == f.data[n2]
  {
    match ReadChannel(f, n0)
    case Err(e) => Err(e)
    case Ok(d0) =>
      match ReadChannel(f, n1)
      case Err(e) => Err(e)
      case Ok(d1) =>
        match ReadChannel(f, n2)
        case Err(e) => Err(e)
        case Ok(d2) =>
          match ReshapeToWindow(d0, f.window)
          case Err(e) => Err(e)
          case Ok(p0) =>
            match ReshapeToWindow(d1, f.window)
            case Err(e) => Err(e)
            case Ok(p1) =>
              match ReshapeToWindow(d2, f.window)
              case Err(e) => Err(e)
              case Ok(p2) =>
                StackChannels(p0, p1, p2);
                Ok(Stack3(p0, p1, p2))
  }

  /** `_convert_normal_exr_to_np`: channels `X`, `Y`, `Z` stacked in that
      order. */
  function ConvertNormal(f: ExrFile): (r: Result<Image3<real>, DecodeError>)
    ensures "X" !in f.data ==> r == Err(MissingChannel("X"))
    ensures "X" in f.data && "Y" !in f.data ==> r == Err(MissingChannel("Y"))
    ensures "X" in f.data && "Y" in f.data && "Z" !in f.data ==> r == Err(MissingChannel("Z"))
    ensures r.Ok? <==>
              && "X" in f.data && "Y" in f.data && "Z" in f.data
              && 0 <= Height(f.window) && 0 <= Width(f.window)
              && |f.data["X"]| == |f.data["Y"]| == |f.data["Z"]| == Height(f.window) * Width(f.window)
    ensures r.Ok? ==>
              && "X" in f.data && "Y" in f.data && "Z" in f.data
              && IsGrid(r.value, Height(f.window), Width(f.window))
              && Flatten(ChannelPlane(r.value, 0)) == f.data["X"]
              && Flatten(ChannelPlane(r.value, 1)) == f.data["Y"]
              && Flatten(ChannelPlane(r.value, 2)) == f.data["Z"]
  {
    ConvertTriplet(f, "X", "Y", "Z")
  }

  /** `_convert_color_exr_to_np`: channels `R`, `G`, `B` stacked in that
      order. */
  function ConvertColor(f: ExrFile): (r: Result<Image3<real>, DecodeError>)
    ensures "R" !in f.data ==> r == Err(MissingChannel("R"))
    ensures "R" in f.data && "G" !in f.data ==> r == Err(MissingChannel("G"))
    ensures "R" in f.data && "G" in f.data && "B" !in f.data ==> r == Err(MissingChannel("B"))
    ensures r.Ok? <==>
              && "R" in f.data && "G" in f.data && "B" in f.data
              && 0 <= Height(f.window) && 0 <= Width(f.window)
              && |f.data["R"]| == |f.data["G"]| == |f.data["B"]| == Height(f.window) * Width(f.window)
    ensures r.Ok? ==>
              && "R" in f.data && "G" in f.data && "B" in f.data
              && IsGrid(r.value, Height(f.window), Width(f.window))
              && Flatten(ChannelPlane(r.value, 0)) == f.data["R"]
              && Flatten(ChannelPlane(r.value, 1)) == f.data["G"]
              && Flatten(ChannelPlane(r.value, 2)) == f.data["B"]
  {
    ConvertTriplet(f, "R", "G", "B")
  }

  /** A 3×3 matrix, row by row. */
  type Mat3 = Triple<Triple<real>>

  function Dot(a: Triple<real>, b: Triple<real>): real {
    a.x * b.x + a.y * b.y + a.z * b.z
  }

  /** `m · n`, which is what `np.dot(normals_flat, m.T)` computes per row. */
  function Apply(m: Mat3, n: Triple<real>): Triple<real> {
    Triple(Dot(m.x, n), Dot(m.y, n), Dot(m.z, n))
  }

  const Identity: Mat3 := Triple(Triple(1.0, 0.0, 0.0), Triple(0.0, 1.0, 0.0), Triple(0.0, 0.0, 1.0))

  /** `angle < 1e-8` with `angle = sqrt(rx² + ry² + rz²)`, compared in
      squared form. A NaN component makes the comparison false and an
      infinite one makes the angle infinite, so only finite components can
      pass. */
  predicate NegligibleRotation(rx: Float, ry: Float, rz: Float) {
    && rx.Finite? && ry.Finite? && rz.Finite?
    && rx.r * rx.r + ry.r * ry.r + rz.r * rz.r < 1.0 / 10000000000000000.0
  }

  /** `_convert_world_to_camera_normals` with `rotationInverse` standing for
      the transpose of the Rodrigues matrix of the pose's axis-angle part:
      reading `pose[3..6]` fails on a short pose; a negligible rotation
      returns the normals untouched; otherwise every normal is multiplied
      by the matrix. The shape is kept either way. */
  function WorldToCameraNormals(normals: Image3<real>, pose: Pose, rotationInverse: Mat3)
    : (r: Result<Image3<real>, DecodeError>)
    ensures r.Err? <==> |pose| < 6
    ensures r.Err? ==> r.error == PoseTooShort(|pose|)
    ensures r.Ok? ==> SameShape(r.value, normals)
    ensures r.Ok? && NegligibleRotation(pose[3], pose[4], pose[5]) ==> r.value == normals
    ensures r.Ok? && !NegligibleRotation(pose[3], pose[4], pose[5]) ==>
              forall i, j :: 0 <= i < |normals| && 0 <= j < |normals[i]| ==>
                r.value[i][j] == Apply(rotationInverse, normals[i][j])
  {
    if |pose| < 6 then Err(PoseTooShort(|pose|))
    else if NegligibleRotation(pose[3], pose[4], pose[5]) then Ok(normals)
    else
      Ok(seq(|normals|, i requires 0 <= i < |normals| =>
        seq(|normals[i]|, j requires 0 <= j < |normals[i]| => Apply(rotationInverse, normals[i][j]))))
  }

  /** The short cut for a negligible angle agrees with the general branch
      when the rotation is the identity (which is what Rodrigues' formula
      gives at angle 0): for any pose long enough, the identity leaves the
      normals as they are. */
  lemma IdentityRotationIsNoOp(normals: Image3<real>, pose: Pose)
    requires |pose| >= 6
    ensures WorldToCameraNormals(normals, pose, Identity) == Ok(normals)
  {
    if !NegligibleRotation(pose[3], pose[4], pose[5]) {
      var r := WorldToCameraNormals(normals, pose, Identity).value;
      forall i | 0 <= i < |normals| ensures r[i] == normals[i] {
        assert |r[i]| == |normals[i]|;
        forall j | 0 <= j < |normals[i]| ensures r[i][j] == normals[i][j] {
          ApplyIdentity(normals[i][j]);
        }
      }
      assert |r| == |normals|;
      assert r == normals;
    }
  }

  /** Multiplying by the identity matrix changes no vector. */
  lemma ApplyIdentity(n: Triple<real>)
    ensures Apply(Identity, n) == n
  {
    assert Dot(Identity.x, n) == n.x;
    assert Dot(Identity.y, n) == n.y;
    assert Dot(Identity.z, n) == n.z;
  }

  /** The body of `RenderFrameScript.execute` once the renderer has written
      its three files: the `Frame` arguments are evaluated left to right
      (depth, normals, their camera-space rotation, colour) and the first
      failure is the one raised. */
  function DecodeFrame(camera: Entity, depthFile: ExrFile, normalFile: ExrFile, colorFile: ExrFile, rotationInverse: Mat3)
    : (r: Result<Frame, DecodeError>)
    ensures ConvertDepth(depthFile).Err? ==> r == Err(ConvertDepth(depthFile).error)
    ensures ConvertDepth(depthFile).Ok? && ConvertNormal(normalFile).Err? ==> r == Err(ConvertNormal(normalFile).error)
    ensures ConvertDepth(depthFile).Ok? && ConvertNormal(normalFile).Ok? && camera.pose.None? ==> r == Err(NoPose)
    ensures (&& ConvertDepth(depthFile).Ok? && ConvertNormal(normalFile).Ok? && camera.pose.Some?
             && WorldToCameraNormals(ConvertNormal(normalFile).value, camera.pose.value, rotationInverse).Err?)
            ==> r == Err(PoseTooShort(|camera.pose.value|))
    ensures (&& ConvertDepth(depthFile).Ok? && ConvertNormal(normalFile).Ok? && camera.pose.Some?
             && |camera.pose.value| >= 6 && ConvertColor(colorFile).Err?)
            ==> r == Err(ConvertColor(colorFile).error)
    ensures r.Ok? <==>
              && ConvertDepth(depthFile).Ok? && ConvertNormal(normalFile).Ok? && ConvertColor(colorFile).Ok?
              && camera.pose.Some? && |camera.pose.value| >= 6
    ensures r.Ok? ==>
              && camera.pose.Some?
              && r.value.camera == camera
              && r.value.depth == ConvertDepth(depthFile).value
              && WorldToCameraNormals(ConvertNormal(normalFile).value, camera.pose.value, rotationInverse) == Ok(r.value.normal)
              && ConvertColor(colorFile).Ok?
              && r.value.color == ConvertColor(colorFile).value
  {
    match ConvertDepth(depthFile)
    case Err(e) => Err(e)
    case Ok(depth) =>
      match ConvertNormal(normalFile)
      case Err(e) => Err(e)
      case Ok(worldNormals) =>
        if camera.pose.None? then Err(NoPose)
        else
          match WorldToCameraNormals(worldNormals, camera.pose.value, rotationInverse)
          case Err(e) => Err(e)
          case Ok(normals) =>
            match ConvertColor(colorFile)
            case Err(e) => Err(e)
            case Ok(color) => Ok(Frame(camera, depth, normals, color))
  }

  /** A file that declares no channel at all falls back to `R`, which it
      cannot deliver. */
  lemma NoChannelsMeansMissingR(f: ExrFile)
    requires WellFormed(f)
    requires f.channels == []
    ensures ConvertDepth(f) == Err(MissingChannel("R"))
  {
  }

  /** A well-formed file with at least one channel always delivers the
      depth channel it selects, so depth conversion fails only on a sample
      count that does not fit the window. */
  lemma DepthChannelIsReadable(f: ExrFile)
    requires WellFormed(f)
    requires f.channels != []
    ensures SelectDepthChannel(f.channels) in f.data
    ensures SamplesFitWindow(f) ==> ConvertDepth(f).Ok?
  {
  }

  /** The renderer's happy path: well-formed files whose channels fit their
      windows, carrying the depth, `X`/`Y`/`Z` and `R`/`G`/`B` channels, and
      a camera with a full pose, always decode to a frame. */
  lemma DecodeFrameSucceeds(camera: Entity, depthFile: ExrFile, normalFile: ExrFile, colorFile: ExrFile, rotationInverse: Mat3)
    requires WellFormed(depthFile) && SamplesFitWindow(depthFile) && depthFile.channels != []
    requires WellFormed(normalFile) && SamplesFitWindow(normalFile)
    requires "X" in normalFile.channels && "Y" in normalFile.channels && "Z" in normalFile.channels
    requires WellFormed(colorFile) && SamplesFitWindow(colorFile)
    requires "R" in colorFile.channels && "G" in colorFile.channels && "B" in colorFile.channels
    requires camera.pose.Some? && |camera.pose.value| >= 6
    ensures DecodeFrame(camera, depthFile, normalFile, colorFile, rotationInverse).Ok?
  {
    DepthChannelIsReadable(depthFile);
  }
}
