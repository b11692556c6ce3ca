/** The per-frame evaluation functions of czeditor.py: accumulating the active
    state at a frame, the strict prefix used by `frameprocessor`, and mixing one
    512-sample audio block out of the keyframes' sound contributions. */
module Engine {
  import opened Model
  import opened Sorting

  /** What a keyframe's `actOnKeyframes(state, window)` does to the state list
      when the window's playhead is at the given frame (its state operators
      see the offset of the playhead from the keyframe, as
      `Compositing.Keyframe.State` does); it belongs to keyframe code outside
      this model, so it is a parameter. */
  type Act = (Keyframe, seq<Keyframe>, int) -> seq<Keyframe>

  /** The keyframes the walk of `stateprocessor` visits before its `break`:
      the longest prefix whose frames are all at most `frame`. */
  function ActivePrefix(frame: int, ks: seq<Keyframe>): (p: seq<Keyframe>)
    ensures |p| <= |ks| && p == ks[..|p|]
    ensures forall i :: 0 <= i < |p| ==> p[i].frame <= frame
    ensures |p| < |ks| ==> ks[|p|].frame > frame
  {
    if ks == [] || ks[0].frame > frame then []
    else [ks[0]] + ActivePrefix(frame, ks[1..])
  }

  /** Applies each keyframe's action to the state, in list order, with the
      playhead at `frame`. */
  function Fold(ks: seq<Keyframe>, act: Act, frame: int, state: seq<Keyframe>): seq<Keyframe>
  {
    if ks == [] then state else Fold(ks[1..], act, frame, act(ks[0], state, frame))
  }

  /** The loop of `stateprocessor`: fold the actions, stopping at the first
      keyframe whose frame is after the target. */
  function Accumulate(frame: int, ks: seq<Keyframe>, act: Act, state: seq<Keyframe>): seq<Keyframe>
  {
    if ks == [] || ks[0].frame > frame then state
    else Accumulate(frame, ks[1..], act, act(ks[0], state, frame))
  }

  /** `stateprocessor`: the accumulated state, sorted stably by layer. */
  function StateProcessor(frame: int, ks: seq<Keyframe>, act: Act, layer: Keyframe -> int): (r: seq<Keyframe>)
    ensures SortedBy(r, layer)
    ensures multiset(r) == multiset(Fold(ActivePrefix(frame, ks), act, frame, []))
    ensures StableFor(r, Fold(ActivePrefix(frame, ks), act, frame, []), layer)
    ensures ks == [] ==> r == []
  {
    AccumulateIsFoldOfPrefix(frame, ks, act, []);
    StableSort(Accumulate(frame, ks, act, []), layer)
  }

  /** The walk with a break is the fold of the active prefix: every keyframe up
      to the first one after the target is applied, in list order. */
  lemma {:induction false} AccumulateIsFoldOfPrefix(frame: int, ks: seq<Keyframe>, act: Act, state: seq<Keyframe>)
    ensures Accumulate(frame, ks, act, state) == Fold(ActivePrefix(frame, ks), act, frame, state)
  {
    if ks != [] && ks[0].frame <= frame {
      AccumulateIsFoldOfPrefix(frame, ks[1..], act, act(ks[0], state, frame));
      var p := ActivePrefix(frame, ks);
      assert p[0] == ks[0] && p[1..] == ActivePrefix(frame, ks[1..]);
    }
  }

  /** Nothing after the first keyframe past the target is applied, even a
      keyframe with a smaller frame. */
  lemma {:induction false} NothingAfterStopIsApplied(frame: int, ks: seq<Keyframe>, rest: seq<Keyframe>, act: Act, state: seq<Keyframe>)
    requires exists i :: 0 <= i < |ks| && ks[i].frame > frame
    ensures Accumulate(frame, ks + rest, act, state) == Accumulate(frame, ks, act, state)
  {
    if ks[0].frame <= frame {
      assert (ks + rest)[1..] == ks[1..] + rest;
      var i :| 0 <= i < |ks| && ks[i].frame > frame;
      assert ks[1..][i - 1].frame > frame;
      NothingAfterStopIsApplied(frame, ks[1..], rest, act, act(ks[0], state, frame));
    }
  }

  /** On a list sorted by frame (what the ordered view gives), the active
      prefix holds exactly the keyframes whose frame is at most the target. */
  lemma {:induction false} SortedPrefixIsAtOrBefore(frame: int, ks: seq<Keyframe>)
    requires SortedBy(ks, FrameOf)
    ensures forall i :: 0 <= i < |ks| ==> (i < |ActivePrefix(frame, ks)| <==> ks[i].frame <= frame)
  {
    var p := ActivePrefix(frame, ks);
    forall i | 0 <= i < |ks| ensures i < |p| <==> ks[i].frame <= frame {
      if i >= |p| {
        assert FrameOf(ks[|p|]) <= FrameOf(ks[i]);
      } else {
        assert ks[i] == p[i];
      }
    }
  }

  /** A keyframe at exactly the target frame is applied at that frame and not
      at the frame before (inclusive lower bound), on a sorted list. */
  lemma ExactFrameIncluded(frame: int, ks: seq<Keyframe>, i: int)
    requires SortedBy(ks, FrameOf)
    requires 0 <= i < |ks| && ks[i].frame == frame
    ensures i < |ActivePrefix(frame, ks)|
    ensures |ActivePrefix(frame - 1, ks)| <= i
  {
    SortedPrefixIsAtOrBefore(frame, ks);
    SortedPrefixIsAtOrBefore(frame - 1, ks);
  }

  /** Inclusion grows with the frame: the prefix active at an earlier frame is
      a prefix of the one active at a later frame. */
  lemma {:induction false} PrefixMonotone(f1: int, f2: int, ks: seq<Keyframe>)
    requires f1 <= f2
    ensures |ActivePrefix(f1, ks)| <= |ActivePrefix(f2, ks)|
  {
    if ks != [] && ks[0].frame <= f1 {
      PrefixMonotone(f1, f2, ks[1..]);
    }
  }

  /** `frameprocessor`: the keyframes before the first one with frame at or
      after the target. The Python loop only returns from inside its `else`
      branch, so with no such keyframe it falls off the end and yields None. */
  function FrameProcessor(frame: int, ks: seq<Keyframe>): (r: Option<seq<Keyframe>>)
    ensures r.None? <==> forall i :: 0 <= i < |ks| ==> ks[i].frame < frame
    ensures r.Some? ==> |r.value| < |ks| && r.value == ks[..|r.value|]
    ensures r.Some? ==> ks[|r.value|].frame >= frame
    ensures r.Some? ==> forall i :: 0 <= i < |r.value| ==> r.value[i].frame < frame
  {
    if ks == [] then None
    else if ks[0].frame < frame then
      match FrameProcessor(frame, ks[1..])
      case None => None
      case Some(p) => Some([ks[0]] + p)
    else Some([])
  }

  /** What `keyframe.getSound(sample)[0]` hands back: a 0-d array (skipped by
      the mixer) or a two-channel buffer of some number of rows. */
  datatype Contribution = Scalar | Samples(rows: seq<Row>)

  /** What a contribution adds to row `row` of the block: its own row if it
      has one, otherwise nothing. */
  function RowOf(c: Contribution, row: int): Row
  {
    if c.Samples? && 0 <= row < |c.rows| then c.rows[row] else Row(0, 0)
  }

  /** `np.pad(rows, ((0, 512 - n), (0, 0)))`: zero rows appended up to 512. */
  function Padded(rows: seq<Row>): (r: seq<Row>)
    requires |rows| <= BLOCK
    ensures |r| == BLOCK
    ensures forall i :: 0 <= i < BLOCK ==> r[i] == RowOf(Samples(rows), i)
  {
    rows + ZeroRows(BLOCK - |rows|)
  }

  /** Element-wise sum of two blocks (`buffer += gotten`). */
  function AddBlocks(a: seq<Row>, b: seq<Row>): (r: seq<Row>)
    requires |a| == |b|
    ensures |r| == |a|
    ensures forall i :: 0 <= i < |a| ==> r[i] == AddRows(a[i], b[i])
  {
    seq(|a|, i requires 0 <= i < |a| => AddRows(a[i], b[i]))
  }

  /** The loop of `getsound`, from a given buffer. A contribution of more than
      512 rows makes `np.pad` raise (a negative pad width): None. */
  function MixInto(state: seq<Keyframe>, sample: int, soundOf: (Keyframe, int) -> Contribution, buffer: seq<Row>): (r: Option<seq<Row>>)
    requires |buffer| == BLOCK
    ensures r.Some? ==> |r.value| == BLOCK
  {
    if state == [] then Some(buffer)
    else
      var g := soundOf(state[0], sample);
      if g.Scalar? then MixInto(state[1..], sample, soundOf, buffer)
      else if |g.rows| > BLOCK then None
      else MixInto(state[1..], sample, soundOf, AddBlocks(buffer, Padded(g.rows)))
  }

  /** `getsound`: start from a zero 512x2 block and add every contribution. */
  function GetSound(state: seq<Keyframe>, sample: int, soundOf: (Keyframe, int) -> Contribution): (r: Option<seq<Row>>)
    ensures r.Some? ==> |r.value| == BLOCK
  {
    MixInto(state, sample, soundOf, ZeroRows(BLOCK))
  }

  /** Reference definition of one row of the mix: the plain sum over the
      keyframes of what each contributes to that row. */
  function SumAt(state: seq<Keyframe>, sample: int, soundOf: (Keyframe, int) -> Contribution, row: int): Row
  {
    if state == [] then Row(0, 0)
    else AddRows(RowOf(soundOf(state[0], sample), row), SumAt(state[1..], sample, soundOf, row))
  }

  /** A contribution the mixer can pad: 0-d, or at most 512 rows. */
  ghost predicate AllFit(state: seq<Keyframe>, sample: int, soundOf: (Keyframe, int) -> Contribution)
  {
    forall i :: 0 <= i < |state| ==>
      var g := soundOf(state[i], sample); g.Scalar? || |g.rows| <= BLOCK
  }

  lemma {:induction false} MixIntoSpec(state: seq<Keyframe>, sample: int, soundOf: (Keyframe, int) -> Contribution, buffer: seq<Row>)
    requires |buffer| == BLOCK
    ensures MixInto(state, sample, soundOf, buffer).Some? <==> AllFit(state, sample, soundOf)
    ensures MixInto(state, sample, soundOf, buffer).Some? ==>
      var v := MixInto(state, sample, soundOf, buffer).value;
      |v| == BLOCK && forall r :: 0 <= r < BLOCK ==> v[r] == AddRows(buffer[r], SumAt(state, sample, soundOf, r))
  {
    if state != [] {
      var g := soundOf(state[0], sample);
      assert AllFit(state, sample, soundOf) <==> (g.Scalar? || |g.rows| <= BLOCK) && AllFit(state[1..], sample, soundOf) by {
        if AllFit(state[1..], sample, soundOf) {
          forall i | 1 <= i < |state| ensures var h := soundOf(state[i], sample); h.Scalar? || |h.rows| <= BLOCK {
            assert state[i] == state[1..][i - 1];
          }
        }
      }
      if g.Scalar? {
        MixIntoSpec(state[1..], sample, soundOf, buffer);
      } else if |g.rows| <= BLOCK {
        MixIntoSpec(state[1..], sample, soundOf, AddBlocks(buffer, Padded(g.rows)));
      }
    }
  }

  /** `getsound` always yields a 512-row block when it yields one at all
      (exactly when every contribution fits), and each row is the sum of what
      the contributions put in that row: summed, not averaged, and nothing
      from a contribution beyond its own length. */
  lemma GetSoundIsSum(state: seq<Keyframe>, sample: int, soundOf: (Keyframe, int) -> Contribution)
    ensures GetSound(state, sample, soundOf).Some? <==> AllFit(state, sample, soundOf)
    ensures GetSound(state, sample, soundOf).Some? ==>
      var v := GetSound(state, sample, soundOf).value;
      |v| == BLOCK && forall r :: 0 <= r < BLOCK ==> v[r] == SumAt(state, sample, soundOf, r)
  {
    MixIntoSpec(state, sample, soundOf, ZeroRows(BLOCK));
  }

  /** With no contribution that has rows (an empty state, or only 0-d
      results), the block is silent. */
  lemma {:induction false} SilentWhenNothingContributes(state: seq<Keyframe>, sample: int, soundOf: (Keyframe, int) -> Contribution, r: int)
    requires forall i :: 0 <= i < |state| ==> soundOf(state[i], sample).Scalar?
    ensures SumAt(state, sample, soundOf, r) == Row(0, 0)
  {
    if state != [] {
      assert forall i :: 0 <= i < |state[1..]| ==> soundOf(state[1..][i], sample).Scalar? by {
        forall i | 0 <= i < |state[1..]| ensures soundOf(state[1..][i], sample).Scalar? {
          assert state[1..][i] == state[i + 1];
        }
      }
      SilentWhenNothingContributes(state[1..], sample, soundOf, r);
    }
  }

  /** Two keyframes that each contribute the constant row `c` over the whole
      block mix to `2c` in every row: the mixer sums. */
  lemma TwoConstantsSum(a: Keyframe, b: Keyframe, sample: int, soundOf: (Keyframe, int) -> Contribution, c: Row)
    requires soundOf(a, sample).Samples? && |soundOf(a, sample).rows| == BLOCK
    requires soundOf(b, sample).Samples? && |soundOf(b, sample).rows| == BLOCK
    requires forall i :: 0 <= i < BLOCK ==> soundOf(a, sample).rows[i] == c && soundOf(b, sample).rows[i] == c
    ensures GetSound([a, b], sample, soundOf).Some?
    ensures forall r :: 0 <= r < BLOCK ==>
      GetSound([a, b], sample, soundOf).value[r] == Row(2 * c.left, 2 * c.right)
  {
    GetSoundIsSum([a, b], sample, soundOf);
    assert AllFit([a, b], sample, soundOf);
    assert [a, b][1..] == [b];
    assert [b][1..] == [];
    forall r | 0 <= r < BLOCK
      ensures SumAt([a, b], sample, soundOf, r) == Row(2 * c.left, 2 * c.right)
    {
      assert SumAt([b], sample, soundOf, r) == AddRows(RowOf(soundOf(b, sample), r), SumAt([], sample, soundOf, r));
      assert RowOf(soundOf(b, sample), r) == c && RowOf(soundOf(a, sample), r) == c;
    }
  }

  /** A single contribution shorter than the block leaves the remaining rows
      exactly zero (a 300-row buffer leaves rows 300 to 511 silent). */
  lemma ShortContributionPadsWithZero(k: Keyframe, sample: int, soundOf: (Keyframe, int) -> Contribution, r: int)
    requires soundOf(k, sample).Samples? && |soundOf(k, sample).rows| <= r < BLOCK
    ensures GetSound([k], sample, soundOf).Some?
    ensures GetSound([k], sample, soundOf).value[r] == Row(0, 0)
  {
    var g := soundOf(k, sample);
    var z := ZeroRows(BLOCK);
    assert [k][1..] == [];
    assert MixInto([k], sample, soundOf, z) == MixInto([], sample, soundOf, AddBlocks(z, Padded(g.rows)));
    assert Padded(g.rows)[r] == Row(0, 0);
  }

  /** The reference sum over a state split in two is the sum of the parts. */
  lemma {:induction false} SumAtConcat(a: seq<Keyframe>, b: seq<Keyframe>, sample: int, soundOf: (Keyframe, int) -> Contribution, row: int)
    ensures SumAt(a + b, sample, soundOf, row) == AddRows(SumAt(a, sample, soundOf, row), SumAt(b, sample, soundOf, row))
  {
    if a == [] {
      assert a + b == b;
    } else {
      assert (a + b)[1..] == a[1..] + b;
      SumAtConcat(a[1..], b, sample, soundOf, row);
    }
  }

  /** The mixed block does not depend on the order of the state (which
      `stateprocessor` sorts by layer): swapping two parts of it gives the
      same block, or the same error. */
  lemma MixOrderIndependent(a: seq<Keyframe>, b: seq<Keyframe>, sample: int, soundOf: (Keyframe, int) -> Contribution)
    ensures GetSound(a + b, sample, soundOf) == GetSound(b + a, sample, soundOf)
  {
    GetSoundIsSum(a + b, sample, soundOf);
    GetSoundIsSum(b + a, sample, soundOf);
    assert AllFit(a + b, sample, soundOf) <==> AllFit(a, sample, soundOf) && AllFit(b, sample, soundOf) by {
      assert forall i :: 0 <= i < |a| ==> (a + b)[i] == a[i];
      assert forall i :: 0 <= i < |b| ==> (a + b)[|a| + i] == b[i];
    }
    assert AllFit(b + a, sample, soundOf) <==> AllFit(b, sample, soundOf) && AllFit(a, sample, soundOf) by {
      assert forall i :: 0 <= i < |b| ==> (b + a)[i] == b[i];
      assert forall i :: 0 <= i < |a| ==> (b + a)[|b| + i] == a[i];
    }
    if GetSound(a + b, sample, soundOf).Some? {
      var v := GetSound(a + b, sample, soundOf).value;
      var w := GetSound(b + a, sample, soundOf).value;
      forall r | 0 <= r < BLOCK
        ensures v[r] == w[r]
      {
        SumAtConcat(a, b, sample, soundOf, r);
        SumAtConcat(b, a, sample, soundOf, r);
      }
      assert v == w;
    }
  }
}
