/** Values shared by the whole model: operators and their optional
    capabilities, the keyframe value, audio sample rows, and the fixed rates. */
module Model {

  /** Python's `None`-or-value results (`getsafe`, `frameprocessor`, ...). */
  datatype Option<T> = None | Some(value: T)

  /** Output frame rate (frames per second). */
  const FPS: int := 60
  /** Audio sample rate (samples per second). */
  const RATE: int := 48000
  /** Samples per audio block handed to and taken from the output device. */
  const BLOCK: int := 512
  /** Samples per video frame: RATE / FPS. */
  const SAMPLES_PER_FRAME: int := 800

  /** An operator (source, action or effect). The Python code asks
      `hasattr(op.function(), "...")` before each call; here each such
      capability is a flag fixed when the operator is built. `id` stands for the
      operator's identity and parameters. */
  datatype Op = Op(
    id: nat,
    hasImage: bool,
    hasSound: bool,
    hasSeek: bool,
    hasComposite: bool,
    hasSoundEffect: bool)

  /** A keyframe as the timeline and the state accumulator see it: its identity,
      its anchor frame, its source and its chains of actions and effects.
      The same Python object, with its GPU cache, is `Compositing.Keyframe`:
      `actions` there are `stateOps` (`param.states`) and `effects` are
      `compositingOps` (`param.compositing`). */
  datatype Keyframe = Keyframe(id: nat, frame: int, source: Op, actions: seq<Op>, effects: seq<Op>)

  function FrameOf(k: Keyframe): int { k.frame }

  /** One row of a two-channel sample buffer. */
  datatype Row = Row(left: int, right: int)

  function AddRows(a: Row, b: Row): Row { Row(a.left + b.left, a.right + b.right) }

  function ZeroRows(n: nat): (r: seq<Row>)
    ensures |r| == n
    ensures forall i :: 0 <= i < n ==> r[i] == Row(0, 0)
  {
    seq(n, _ => Row(0, 0))
  }

  /** `int(frame/60*48000)` over exact arithmetic: a whole frame is exactly 800 samples. */
  function FrameToSample(frame: int): (s: int)
    ensures s == frame * RATE / FPS
  {
    frame * SAMPLES_PER_FRAME
  }

  /** `int(sample/48000*60)`: Python's `int` truncates toward zero, also for a
      negative sample index; Dafny's `/` is Euclidean, so the negative case is
      written out. */
  function SampleToFrame(sample: int): (f: int)
    ensures 0 <= sample ==> f * SAMPLES_PER_FRAME <= sample < (f + 1) * SAMPLES_PER_FRAME
    ensures sample < 0 ==> (f - 1) * SAMPLES_PER_FRAME < sample <= f * SAMPLES_PER_FRAME
  {
    if sample >= 0 then sample / SAMPLES_PER_FRAME
    else -((-sample) / SAMPLES_PER_FRAME)
  }

  /** Converting a frame to samples and back gives the frame again. */
  lemma FrameSampleRoundTrip(frame: int)
    ensures SampleToFrame(FrameToSample(frame)) == frame
  {
  }

  /** The first occurrence of `x` in `s`, as Python's `list.index` finds it. */
  function IndexOf<T(==)>(s: seq<T>, x: T): (r: int)
    ensures x in s ==> 0 <= r < |s| && s[r] == x && forall j :: 0 <= j < r ==> s[j] != x
    ensures x !in s ==> r == -1
  {
    if s == [] then -1
    else if s[0] == x then 0
    else
      var j := IndexOf(s[1..], x);
      if j < 0 then -1 else j + 1
  }

  /** Python's `list.remove(x)`: drops the first occurrence of `x`. */
  function RemoveFirst<T(==)>(s: seq<T>, x: T): (r: seq<T>)
    requires x in s
    ensures |r| == |s| - 1
    ensures r == s[..IndexOf(s, x)] + s[IndexOf(s, x) + 1..]
    ensures multiset(r) == multiset(s) - multiset{x}
  {
    var i := IndexOf(s, x);
    assert s == s[..i] + [x] + s[i + 1..];
    s[..i] + s[i + 1..]
  }

  /** A Python list index `i` (negative counts from the end) resolved against a
      list of length `n`, or -1 where Python raises IndexError. */
  function ResolveIndex(i: int, n: nat): (r: int)
    ensures -(n as int) <= i < n ==> 0 <= r < n && (r == i || r == i + n)
    ensures !(-(n as int) <= i < n) ==> r == -1
  {
    if 0 <= i < n then i else if -(n as int) <= i < 0 then i + n else -1
  }
}
