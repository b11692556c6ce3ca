/** The bookkeeping of the video reader and the audio writer. The decoder is
    abstract: a queue of decoded frames still to come (`pending`) and, for a
    container seek, the frames the decoder yields after it (`seekTo`). A frame's
    `index` is its presentation time converted to a frame number. */
module AvReader {
  import opened Model

  datatype Rgb = Rgb(r: int, g: int, b: int)
  /** One pixel of the cached RGBA buffer. */
  datatype Pixel = Pixel(r: int, g: int, b: int, a: int)
  /** A decoded video frame: its frame number and its RGB pixels. */
  datatype Frame = Frame(index: int, rgb: seq<Rgb>)

  /** What `__getitem__` does for a requested frame. */
  datatype Path = NoDecode | FullSeek | Forward

  /** What `seek` hands back: the cached buffer itself, or the result of
      decoding forward (None when the decoder yielded nothing). */
  datatype Fetched = Cached | Decoded(frame: Option<Frame>)

  /** The position of the first frame whose number reaches `target`, or -1. */
  function FirstAtLeast(fs: seq<Frame>, target: int): (j: int)
    ensures -1 <= j < |fs|
    ensures j >= 0 ==> fs[j].index >= target && forall k :: 0 <= k < j ==> fs[k].index < target
    ensures j < 0 ==> forall k :: 0 <= k < |fs| ==> fs[k].index < target
  {
    if fs == [] then -1
    else if fs[0].index >= target then 0
    else
      var j := FirstAtLeast(fs[1..], target);
      if j < 0 then -1 else j + 1
  }

  /** The frame `seekForward` returns when the decoder would yield `fs`: the
      first one reaching `target`, else the last one decoded, else nothing. */
  function ForwardPick(fs: seq<Frame>, target: int): (r: Option<Frame>)
    ensures r.None? <==> fs == []
    ensures r.Some? ==> exists j :: 0 <= j < |fs| && r.value == fs[j]
                          && (forall k :: 0 <= k < j ==> fs[k].index < target)
                          && (fs[j].index >= target || j == |fs| - 1)
  {
    var j := FirstAtLeast(fs, target);
    if j >= 0 then Some(fs[j]) else if fs == [] then None else Some(fs[|fs| - 1])
  }

  /** The frames the decoder still holds after `seekForward` returned. */
  function ForwardRest(fs: seq<Frame>, target: int): (r: seq<Frame>)
    ensures |r| <= |fs| && r == fs[|fs| - |r|..]
    ensures fs != [] ==> |r| < |fs|
  {
    var j := FirstAtLeast(fs, target);
    if j >= 0 then fs[j + 1..] else []
  }

  /** When some decoded frame reaches the target, the one returned is the
      first such frame. */
  lemma ForwardPickReachesTarget(fs: seq<Frame>, target: int, k: int)
    requires 0 <= k < |fs| && fs[k].index >= target
    ensures ForwardPick(fs, target).Some?
    ensures ForwardPick(fs, target).value.index >= target
  {
  }

  /** The scan of the key frame list when the request lies ahead of the
      current frame: the first entry strictly between the two asks for a
      container seek; the first entry past the request (before any such
      entry) asks for forward decoding; entries equal to the request or not
      past the current frame are skipped; no match decodes forward. */
  function Scan(ks: seq<int>, current: int, frame: int): (p: Path)
    ensures p != NoDecode
  {
    if ks == [] then Forward
    else if ks[0] < frame && ks[0] > current then FullSeek
    else if ks[0] > frame then Forward
    else Scan(ks[1..], current, frame)
  }

  /** The path `__getitem__` takes. */
  function Choose(ks: seq<int>, current: int, frame: int): (p: Path)
    ensures p == NoDecode <==> frame == current
    ensures frame < current ==> p == FullSeek
  {
    if frame < current then FullSeek
    else if frame > current then Scan(ks, current, frame)
    else NoDecode
  }

  /** A forward request seeks the container exactly when some key frame lies
      strictly between the current and the requested frame and no earlier
      key frame lies past the request. */
  lemma {:induction false} ScanSeeksIff(ks: seq<int>, current: int, frame: int)
    ensures Scan(ks, current, frame) == FullSeek <==>
      exists j :: 0 <= j < |ks| && current < ks[j] < frame
                  && forall k :: 0 <= k < j ==> ks[k] <= frame
  {
    if ks != [] {
      ScanSeeksIff(ks[1..], current, frame);
      if Scan(ks, current, frame) == FullSeek {
        if !(ks[0] < frame && ks[0] > current) {
          var j :| 0 <= j < |ks[1..]| && current < ks[1..][j] < frame
                   && forall k :: 0 <= k < j ==> ks[1..][k] <= frame;
          assert forall k :: 0 <= k < j + 1 ==> ks[k] <= frame by {
            forall k | 0 <= k < j + 1 ensures ks[k] <= frame {
              if k > 0 { assert ks[k] == ks[1..][k - 1]; }
            }
          }
          assert current < ks[j + 1] < frame;
        }
      } else {
        forall j | 0 <= j < |ks| && current < ks[j] < frame
          ensures exists k :: 0 <= k < j && ks[k] > frame
        {
          if ks[0] > frame {
            assert 0 < j && ks[0] > frame;
          } else {
            assert current < ks[1..][j - 1] < frame;
            var k :| 0 <= k < j - 1 && ks[1..][k] > frame;
            assert ks[k + 1] > frame;
          }
        }
      }
    }
  }

  /** The cached buffer with its colour channels replaced by `rgb` and its
      alpha channel kept. */
  function Overlay(px: seq<Pixel>, rgb: seq<Rgb>): (r: seq<Pixel>)
    requires |px| == |rgb|
    ensures |r| == |px|
    ensures forall i :: 0 <= i < |r| ==> r[i].a == px[i].a
  {
    seq(|px|, i requires 0 <= i < |px| => Pixel(rgb[i].r, rgb[i].g, rgb[i].b, px[i].a))
  }

  /** Overlaying a frame over the buffer shows that frame's colours. */
  lemma OverlayShowsFrame(px: seq<Pixel>, rgb: seq<Rgb>)
    requires |px| == |rgb|
    ensures forall i :: 0 <= i < |px| ==>
      Rgb(Overlay(px, rgb)[i].r, Overlay(px, rgb)[i].g, Overlay(px, rgb)[i].b) == rgb[i]
  {
  }

  /** The video reader: the frame it stands at, the key frame numbers found
      when the file was opened, the RGBA buffer it hands out, and the decoder
      queue. */
  class SeekableVideoReader {
    var currentFrame: int
    var keyframes: seq<int>
    var cachedFrame: array<Pixel>
    var pending: seq<Frame>
    /** The frames the decoder yields after a container seek to a frame. */
    const seekTo: int -> seq<Frame>

    /** The buffer's alpha channel is fully opaque. */
    ghost predicate Valid()
      reads this, cachedFrame
    {
      forall i :: 0 <= i < cachedFrame.Length ==> cachedFrame[i].a == 255
    }

    /** `__init__`: records the key frame numbers, rewinds to the start and
        caches the first frame with an opaque alpha channel. */
    constructor (keyframeIndices: seq<int>, seekTo: int -> seq<Frame>)
      requires seekTo(0) != []
      ensures Valid() && fresh(cachedFrame)
      ensures currentFrame == 0 && keyframes == keyframeIndices && this.seekTo == seekTo
      ensures pending == seekTo(0)[1..]
      ensures cachedFrame[..] == Overlay(seq(|seekTo(0)[0].rgb|, _ => Pixel(255, 255, 255, 255)), seekTo(0)[0].rgb)
    {
      this.seekTo := seekTo;
      currentFrame := 0;
      keyframes := keyframeIndices;
      var first := seekTo(0)[0];
      pending := seekTo(0)[1..];
      var white := seq(|first.rgb|, _ => Pixel(255, 255, 255, 255));
      var buffer := Overlay(white, first.rgb);
      var a := new Pixel[|first.rgb|](i requires 0 <= i < |first.rgb| => buffer[i]);
      assert a[..] == buffer;
      cachedFrame := a;
    }

    /** `seekForward`: moves to `frame`, then takes decoded frames until one
        reaches it; with none reaching it, the last one taken. */
    method SeekForward(frame: int) returns (r: Option<Frame>)
      modifies this`currentFrame, this`pending
      ensures currentFrame == frame
      ensures r == ForwardPick(old(pending), frame)
      ensures pending == ForwardRest(old(pending), frame)
    {
      currentFrame := frame;
      ghost var fs := pending;
      var k := 0;
      r := None;
      while pending != []
        invariant 0 <= k <= |fs| && pending == fs[k..] && currentFrame == frame
        invariant forall m :: 0 <= m < k ==> fs[m].index < frame
        invariant r == if k == 0 then None else Some(fs[k - 1])
        decreases |pending|
      {
        var d := pending[0];
        pending := pending[1..];
        k := k + 1;
        r := Some(d);
        if d.index >= frame {
          assert FirstAtLeast(fs, frame) == k - 1;
          return;
        }
      }
      assert FirstAtLeast(fs, frame) == -1;
    }

    /** `seek`: at the current frame, the cached buffer; otherwise a container
        seek followed by forward decoding. */
    method Seek(frame: int) returns (r: Fetched)
      modifies this`currentFrame, this`pending
      ensures old(currentFrame) == frame ==>
        r == Cached && currentFrame == old(currentFrame) && pending == old(pending)
      ensures old(currentFrame) != frame ==>
        r == Decoded(ForwardPick(seekTo(frame), frame))
        && pending == ForwardRest(seekTo(frame), frame)
        && currentFrame == frame
    {
      if currentFrame == frame {
        return Cached;
      }
      pending := seekTo(frame);
      var f := SeekForward(frame);
      r := Decoded(f);
    }

    /** The scan loop of `__getitem__` over the key frame list. */
    method ScanKeyframes(frame: int) returns (p: Path)
      ensures p == Scan(keyframes, currentFrame, frame)
    {
      var n := 0;
      while n < |keyframes|
        invariant 0 <= n <= |keyframes|
        invariant Scan(keyframes, currentFrame, frame) == Scan(keyframes[n..], currentFrame, frame)
      {
        assert keyframes[n..][1..] == keyframes[n + 1..];
        var i := keyframes[n];
        if i < frame && i > currentFrame {
          return FullSeek;
        } else if i > frame {
          return Forward;
        }
        n := n + 1;
      }
      p := Forward;
    }

    /** Writes a decoded frame's colours into the buffer, keeping alpha. */
    method WriteRgb(rgb: seq<Rgb>)
      requires |rgb| == cachedFrame.Length
      modifies cachedFrame
      ensures cachedFrame[..] == Overlay(old(cachedFrame[..]), rgb)
    {
      var i := 0;
      while i < cachedFrame.Length
        invariant 0 <= i <= cachedFrame.Length
        invariant forall j :: 0 <= j < i ==>
          cachedFrame[j] == Pixel(rgb[j].r, rgb[j].g, rgb[j].b, old(cachedFrame[j]).a)
        invariant forall j :: i <= j < cachedFrame.Length ==> cachedFrame[j] == old(cachedFrame[j])
      {
        cachedFrame[i] := cachedFrame[i].(r := rgb[i].r, g := rgb[i].g, b := rgb[i].b);
        i := i + 1;
      }
    }

    /** Stores what decoding returned: nothing decoded raises (the loop
        variable is unbound), a frame of another size cannot be broadcast
        into the buffer; otherwise the colours are written. */
    method Store(f: Option<Frame>) returns (ok: bool)
      requires Valid()
      modifies cachedFrame
      ensures Valid()
      ensures ok == (f.Some? && |f.value.rgb| == cachedFrame.Length)
      ensures ok ==> cachedFrame[..] == Overlay(old(cachedFrame[..]), f.value.rgb)
      ensures !ok ==> cachedFrame[..] == old(cachedFrame[..])
    {
      if f.None? || |f.value.rgb| != cachedFrame.Length {
        return false;
      }
      WriteRgb(f.value.rgb);
      ok := true;
    }

    /** `__getitem__`: the frame requested is put into the buffer along the
        path `Choose` names; `ok` is false where Python raises. */
    method Get(frame: int) returns (ok: bool)
      requires Valid()
      modifies this`currentFrame, this`pending, cachedFrame
      ensures Valid()
      ensures currentFrame == frame
      ensures var p := Choose(keyframes, old(currentFrame), frame);
        var fs := if p == FullSeek then seekTo(frame) else old(pending);
        var f := ForwardPick(fs, frame);
        if p == NoDecode then
          ok && pending == old(pending) && cachedFrame[..] == old(cachedFrame[..])
        else
          pending == ForwardRest(fs, frame)
          && ok == (f.Some? && |f.value.rgb| == cachedFrame.Length)
          && (ok ==> cachedFrame[..] == Overlay(old(cachedFrame[..]), f.value.rgb))
          && (!ok ==> cachedFrame[..] == old(cachedFrame[..]))
    {
      ok := true;
      if frame < currentFrame {
        var r := Seek(frame);
        ok := Store(r.frame);
        if !ok {
          return;
        }
      }
      if frame > currentFrame {
        var p := ScanKeyframes(frame);
        if p == FullSeek {
          var r := Seek(frame);
          ok := Store(r.frame);
        } else {
          var f := SeekForward(frame);
          ok := Store(f);
        }
      }
    }
  }

  /** The number of blocks the writer asks for: enough 512-sample blocks to
      cover `samples`, none for a non-positive count. */
  function BlockCount(samples: int): (n: nat)
    ensures samples <= 0 ==> n == 0
    ensures samples > 0 ==> (n - 1) * BLOCK < samples <= n * BLOCK
  {
    if samples <= 0 then 0 else (samples + BLOCK - 1) / BLOCK
  }

  /** The audio writer: `nextsamples(i)` is the block the sample callback
      produces on its `i`-th call; `frames` is what the last `writeaudio`
      encoded, in order. */
  class AudioWriter {
    var currentsample: int
    var frames: seq<seq<int>>
    const nextsamples: nat -> seq<int>

    constructor (nextsamples: nat -> seq<int>)
      ensures this.nextsamples == nextsamples && frames == [] && currentsample == 0
    {
      this.nextsamples := nextsamples;
      frames := [];
      currentsample := 0;
    }

    /** `writeaudio`: calls the sample callback once per 512-sample block
        until `samples` are covered, encoding each block. */
    method WriteAudio(samples: int)
      modifies this`currentsample, this`frames
      ensures |frames| == BlockCount(samples)
      ensures forall i :: 0 <= i < |frames| ==> frames[i] == nextsamples(i)
      ensures currentsample == BLOCK * |frames|
    {
      currentsample := 0;
      frames := [];
      while currentsample < samples
        invariant currentsample == BLOCK * |frames|
        invariant samples > 0 ==> |frames| <= BlockCount(samples)
        invariant samples <= 0 ==> frames == []
        invariant forall i :: 0 <= i < |frames| ==> frames[i] == nextsamples(i)
        decreases samples - currentsample
      {
        frames := frames + [nextsamples(|frames|)];
        currentsample := currentsample + BLOCK;
      }
    }
  }
}
