/** The playback side of the main window: the seek decision and the seek
    sequence, the audio device callback with its 1024-sample rolling buffer,
    the per-block sound used for export, the play toggle and the small event
    registry. Wall-clock readings are passed in as `now`; the worker pool is a
    queue of submitted seeks. */
module Playback {
  import opened Model
  import opened Sorting
  import opened Timeline
  import opened Engine

  /** A function connected to an event, by identity. */
  type Handler = nat

  /** One `seek(params, offset)` notification to an operator. */
  datatype SeekCall = SeekCall(op: Op, offset: int)

  /** The notifications for a chain of operators: those exposing `seek`, in order. */
  function ChainSeekCalls(ops: seq<Op>, offset: int): (r: seq<SeekCall>)
    ensures |r| <= |ops|
    // only operators of the chain exposing `seek` are notified ...
    ensures forall i :: 0 <= i < |r| ==> r[i].op.hasSeek && r[i].op in ops && r[i].offset == offset
    // ... and every one of them is
    ensures forall i :: 0 <= i < |ops| && ops[i].hasSeek ==> SeekCall(ops[i], offset) in r
  {
    if ops == [] then []
    else
      assert forall i :: 1 <= i < |ops| ==> ops[i] == ops[1..][i - 1];
      (if ops[0].hasSeek then [SeekCall(ops[0], offset)] else []) + ChainSeekCalls(ops[1..], offset)
  }

  /** The notifications for a chain split in two are those of each part:
      operators are notified in chain order. */
  lemma {:induction false} ChainSeekCallsConcat(a: seq<Op>, b: seq<Op>, offset: int)
    ensures ChainSeekCalls(a + b, offset) == ChainSeekCalls(a, offset) + ChainSeekCalls(b, offset)
  {
    if a == [] {
      assert a + b == b;
    } else {
      assert (a + b)[1..] == a[1..] + b;
      ChainSeekCallsConcat(a[1..], b, offset);
    }
  }

  /** The notifications for one keyframe: its source, then its actions, then
      its effects, each with offset `frame - keyframe.frame`. */
  function KeyframeSeekCalls(k: Keyframe, frame: int): seq<SeekCall>
  {
    var offset := frame - k.frame;
    (if k.source.hasSeek then [SeekCall(k.source, offset)] else [])
      + ChainSeekCalls(k.actions, offset)
      + ChainSeekCalls(k.effects, offset)
  }

  /** All notifications `threadseek` would make, keyframe by keyframe. */
  function SeekCalls(state: seq<Keyframe>, frame: int): seq<SeekCall>
  {
    if state == [] then [] else KeyframeSeekCalls(state[0], frame) + SeekCalls(state[1..], frame)
  }

  /** The calls actually made by a loop that stops at an exception, when each
      call raises exactly where `fails` says: the calls up to and including
      the first that raises. */
  function Attempted<T>(calls: seq<T>, fails: T -> bool): (r: seq<T>)
    ensures |r| <= |calls|
  {
    if calls == [] then []
    else if fails(calls[0]) then [calls[0]]
    else [calls[0]] + Attempted(calls[1..], fails)
  }

  /** No call raises. */
  predicate NoneFails<T>(calls: seq<T>, fails: T -> bool)
  {
    calls == [] || (!fails(calls[0]) && NoneFails(calls[1..], fails))
  }

  /** `NoneFails` checks every call. */
  lemma {:induction false} NoneFailsAll<T>(calls: seq<T>, fails: T -> bool)
    ensures NoneFails(calls, fails) <==> forall i :: 0 <= i < |calls| ==> !fails(calls[i])
  {
    if calls != [] {
      NoneFailsAll(calls[1..], fails);
      assert forall i :: 1 <= i < |calls| ==> calls[i] == calls[1..][i - 1];
    }
  }

  /** The attempted calls are a prefix of the calls; none but the last raised;
      they stop short only at a call that raised; with no failure, every call
      is made. */
  lemma {:induction false} AttemptedShape<T>(calls: seq<T>, fails: T -> bool)
    ensures var r := Attempted(calls, fails);
      && r == calls[..|r|]
      && (forall i :: 0 <= i < |r| - 1 ==> !fails(r[i]))
      && (|r| < |calls| ==> r != [] && fails(r[|r| - 1]))
      && ((forall i :: 0 <= i < |calls| ==> !fails(calls[i])) ==> r == calls)
  {
    if calls != [] && !fails(calls[0]) {
      AttemptedShape(calls[1..], fails);
      var t := Attempted(calls[1..], fails);
      assert Attempted(calls, fails) == [calls[0]] + t;
      assert calls == [calls[0]] + calls[1..];
      if forall i :: 0 <= i < |calls| ==> !fails(calls[i]) {
        assert forall i :: 0 <= i < |calls[1..]| ==> !fails(calls[1..][i]) by {
          forall i | 0 <= i < |calls[1..]| ensures !fails(calls[1..][i]) {
            assert calls[1..][i] == calls[i + 1];
          }
        }
      }
    }
  }

  /** Channel 0 of a block (`sound[:, 0]`). */
  function Left(rows: seq<Row>): (r: seq<int>)
    ensures |r| == |rows|
    ensures forall i :: 0 <= i < |rows| ==> r[i] == rows[i].left
  {
    seq(|rows|, i requires 0 <= i < |rows| => rows[i].left)
  }

  class Window {
    var keyframes: Keyframelist
    var playbackframe: int
    var playbacksample: int
    var startframe: int
    var starttime: real
    var isplaying: bool
    var seeking: bool
    var currentframestate: seq<Keyframe>
    /** The rolling history of the last two blocks' channel 0 (`currentaudio`). */
    var currentaudio: array<int>
    var events: map<string, seq<Handler>>
    /** The seeks handed to the worker pool, oldest first. */
    var submitted: seq<int>
    /** The operator seek notifications made so far, oldest first. */
    var seekLog: seq<SeekCall>

    /** The keyframes' own behaviour, which lives outside this model:
        `actOnKeyframes`, `layer` and `getSound`. */
    const act: Act
    const layer: Keyframe -> int
    const soundOf: (Keyframe, int) -> Contribution

    ghost predicate Valid()
      reads this, keyframes
    {
      currentaudio.Length == 2 * BLOCK && keyframes.Valid()
    }

    /** The playback part of `__init__`: frame 100, paused, silent history,
        one registered event "FrameUpdate". */
    constructor (now: real, act: Act, layer: Keyframe -> int, soundOf: (Keyframe, int) -> Contribution)
      ensures Valid() && fresh(keyframes) && fresh(currentaudio)
      ensures keyframes.keyframes == [] && !keyframes.needssorting
      ensures playbackframe == 100 && startframe == 100 && starttime == now
      ensures playbacksample == FrameToSample(100)
      ensures !isplaying && !seeking && currentframestate == []
      ensures forall i :: 0 <= i < currentaudio.Length ==> currentaudio[i] == 0
      ensures events == map["FrameUpdate" := []]
      ensures submitted == [] && seekLog == []
      ensures this.act == act && this.layer == layer && this.soundOf == soundOf
    {
      this.act := act;
      this.layer := layer;
      this.soundOf := soundOf;
      playbackframe := 100;
      keyframes := new Keyframelist();
      isplaying := false;
      starttime := now;
      startframe := 100;
      currentframestate := [];
      currentaudio := new int[2 * BLOCK](_ => 0);
      playbacksample := FrameToSample(100);
      seeking := false;
      events := map["FrameUpdate" := []];
      submitted := [];
      seekLog := [];
    }

    // -------------------------------------------------------------------
    // Event registry

    /** `registerEvent`: (re)creates the event with no handlers. */
    method RegisterEvent(e: string)
      modifies this`events
      ensures events == old(events)[e := []]
    {
      events := events[e := []];
    }

    /** `connectToEvent`: appends the handler; an unknown event raises KeyError. */
    method ConnectToEvent(e: string, f: Handler) returns (ok: bool)
      modifies this`events
      ensures ok == (e in old(events))
      ensures ok ==> events == old(events)[e := old(events)[e] + [f]]
      ensures !ok ==> events == old(events)
    {
      if e !in events {
        return false;
      }
      events := events[e := events[e] + [f]];
      ok := true;
    }

    /** `disconnectFromEvent`: removes the first occurrence of the handler;
        an unknown event (KeyError) or handler (ValueError) changes nothing. */
    method DisconnectFromEvent(e: string, f: Handler) returns (ok: bool)
      modifies this`events
      ensures ok == (e in old(events) && f in old(events)[e])
      ensures ok ==> e in events && events == old(events)[e := RemoveFirst(old(events)[e], f)]
      ensures ok ==> multiset(events[e]) == multiset(old(events)[e]) - multiset{f}
      ensures !ok ==> events == old(events)
    {
      if e !in events || f !in events[e] {
        return false;
      }
      events := events[e := RemoveFirst(events[e], f)];
      ok := true;
    }

    /** `triggerEvent`: calls the handlers in connection order; a handler
        that raises (as `raises` says) stops the rest, and the exception
        propagates. Returns the calls made (None for an unknown event,
        KeyError) and whether every handler returned normally. */
    method TriggerEvent(e: string, raises: Handler -> bool) returns (called: Option<seq<Handler>>, ok: bool)
      ensures called.None? <==> e !in events
      ensures called.Some? ==> called.value == Attempted(events[e], raises)
      ensures ok <==> e in events && NoneFails(events[e], raises)
    {
      if e !in events {
        return None, false;
      }
      var handlers := events[e];
      var calls: seq<Handler> := [];
      var todo := handlers;
      while todo != []
        invariant calls + Attempted(todo, raises) == Attempted(handlers, raises)
        invariant NoneFails(handlers, raises) == NoneFails(todo, raises)
        decreases |todo|
      {
        var h := todo[0];
        if raises(h) {
          assert Attempted(todo, raises) == [h];
          return Some(calls + [h]), false;
        }
        assert Attempted(todo, raises) == [h] + Attempted(todo[1..], raises);
        assert calls + ([h] + Attempted(todo[1..], raises)) == (calls + [h]) + Attempted(todo[1..], raises);
        calls := calls + [h];
        todo := todo[1..];
      }
      called := Some(calls);
      ok := true;
    }

    // -------------------------------------------------------------------
    // State at a frame

    /** `getstate`: iterating the keyframe list goes through `__getitem__`,
        which sorts the list first when it is flagged; then `stateprocessor`. */
    method GetState(frame: int) returns (st: seq<Keyframe>)
      requires Valid()
      modifies keyframes
      ensures Valid() && !keyframes.needssorting
      ensures keyframes.keyframes == StableSort(old(keyframes.keyframes), FrameOf)
      ensures st == StateProcessor(frame, keyframes.keyframes, act, layer)
    {
      keyframes.SortIfNeeded();
      st := StateProcessor(frame, keyframes.keyframes, act, layer);
    }

    // -------------------------------------------------------------------
    // Seeking

    /** `seek`: when neither playing nor seeking, hand `threadseek(frame)` to
        the worker pool and change nothing else; otherwise jump the cursor
        synchronously with no operator notification. */
    method Seek(frame: int, now: real)
      requires Valid()
      modifies this`submitted, this`startframe, this`starttime, this`playbackframe, this`playbacksample
      ensures Valid()
      ensures !old(isplaying) && !old(seeking) ==>
        submitted == old(submitted) + [frame]
        && startframe == old(startframe) && starttime == old(starttime)
        && playbackframe == old(playbackframe) && playbacksample == old(playbacksample)
      ensures old(isplaying) || old(seeking) ==>
        submitted == old(submitted)
        && startframe == frame && starttime == now
        && playbackframe == frame && playbacksample == FrameToSample(frame)
    {
      if !isplaying && !seeking {
        submitted := submitted + [frame];
      } else {
        startframe := frame;
        starttime := now;
        playbackframe := frame;
        playbacksample := FrameToSample(frame);
      }
    }

    /** The notification loop of `threadseek`: runs while `seeking` is set,
        makes the calls in order and stops after the first one that raises. */
    method NotifyOperators(calls: seq<SeekCall>, fails: SeekCall -> bool)
      requires seeking
      modifies this`seekLog
      ensures seekLog == old(seekLog) + Attempted(calls, fails)
    {
      var todo := calls;
      while todo != []
        invariant seekLog + Attempted(todo, fails) == old(seekLog) + Attempted(calls, fails)
        decreases |todo|
      {
        var c := todo[0];
        ghost var before := seekLog;
        seekLog := seekLog + [c];
        if fails(c) {
          assert Attempted(todo, fails) == [c];
          return;
        }
        assert Attempted(todo, fails) == [c] + Attempted(todo[1..], fails);
        assert before + ([c] + Attempted(todo[1..], fails)) == seekLog + Attempted(todo[1..], fails);
        todo := todo[1..];
      }
    }

    /** The end of `threadseek`: move the cursor and the playback clock to
        `frame` and recompute the state there. */
    method MoveTo(frame: int, now: real)
      requires Valid()
      modifies this`startframe, this`starttime, this`playbackframe, this`playbacksample
      modifies this`currentframestate, keyframes
      ensures Valid()
      ensures startframe == frame && starttime == now
      ensures playbackframe == frame && playbacksample == FrameToSample(frame)
      ensures keyframes.keyframes == StableSort(old(keyframes.keyframes), FrameOf)
      ensures currentframestate == StateProcessor(frame, keyframes.keyframes, act, layer)
    {
      startframe := frame;
      starttime := now;
      playbackframe := frame;
      playbacksample := FrameToSample(frame);
      currentframestate := GetState(playbackframe);
    }

    /** `threadseek`, run as one sequential step: with `seeking` set, notify
        every capable operator of the current state in order, stopping at the
        first that raises (the error is caught); then move the cursor to
        `frame`, recompute the state there and clear `seeking`. */
    method ThreadSeek(frame: int, now: real, fails: SeekCall -> bool)
      requires Valid()
      modifies this`seeking, this`seekLog, this`startframe, this`starttime, this`playbackframe
      modifies this`playbacksample, this`currentframestate, keyframes
      ensures Valid()
      ensures seekLog == old(seekLog) + Attempted(SeekCalls(old(currentframestate), frame), fails)
      ensures startframe == frame && starttime == now
      ensures playbackframe == frame && playbacksample == FrameToSample(frame)
      ensures keyframes.keyframes == StableSort(old(keyframes.keyframes), FrameOf)
      ensures currentframestate == StateProcessor(frame, keyframes.keyframes, act, layer)
      ensures !seeking
    {
      seeking := true;
      var calls := SeekCalls(currentframestate, frame);
      NotifyOperators(calls, fails);
      MoveTo(frame, now);
      seeking := false;
    }

    // -------------------------------------------------------------------
    // Audio

    /** The rolling-buffer shift: the newer half moves down and `block`
        becomes the newer half. */
    method ShiftIn(block: seq<int>)
      requires Valid() && |block| == BLOCK
      modifies currentaudio
      ensures currentaudio[..] == old(currentaudio[BLOCK..]) + block
    {
      var k := 0;
      while k < BLOCK
        invariant 0 <= k <= BLOCK
        invariant forall j :: 0 <= j < k ==> currentaudio[j] == old(currentaudio[j + BLOCK])
        invariant forall j :: k <= j < 2 * BLOCK ==> currentaudio[j] == old(currentaudio[j])
      {
        currentaudio[k] := currentaudio[k + BLOCK];
        k := k + 1;
      }
      while k < 2 * BLOCK
        invariant BLOCK <= k <= 2 * BLOCK
        invariant forall j :: 0 <= j < BLOCK ==> currentaudio[j] == old(currentaudio[j + BLOCK])
        invariant forall j :: BLOCK <= j < k ==> currentaudio[j] == block[j - BLOCK]
      {
        currentaudio[k] := block[k - BLOCK];
        k := k + 1;
      }
    }

    /** `getnextsoundchunk`, the audio device callback. Paused or seeking: a
        silent block, the history shifted with silence, and the sample cursor
        re-derived from the frame cursor. Playing: the mixed block (or silence
        if mixing raises), shifted into the history only when sample 32 of
        channel 0 differs from the newer half's sample 32, and the sample
        cursor advanced by one block. */
    method GetNextSoundChunk() returns (outdata: seq<Row>)
      requires Valid()
      modifies this`playbacksample, currentaudio
      ensures Valid() && |outdata| == BLOCK
      ensures !(old(isplaying) && !old(seeking)) ==>
        outdata == ZeroRows(BLOCK)
        && currentaudio[..] == old(currentaudio[BLOCK..]) + Left(ZeroRows(BLOCK))
        && playbacksample == FrameToSample(playbackframe)
      ensures old(isplaying) && !old(seeking) ==>
        playbacksample == old(playbacksample) + BLOCK
        && match GetSound(currentframestate, old(playbacksample), soundOf)
           case None =>
             outdata == ZeroRows(BLOCK)
             && currentaudio[..] == old(currentaudio[BLOCK..]) + Left(ZeroRows(BLOCK))
           case Some(sound) =>
             outdata == sound
             && currentaudio[..] == (if sound[32].left != old(currentaudio[BLOCK + 32])
                                     then old(currentaudio[BLOCK..]) + Left(sound)
                                     else old(currentaudio[..]))
    {
      if isplaying && !seeking {
        var mixed := GetSound(currentframestate, playbacksample, soundOf);
        match mixed {
          case Some(sound) =>
            if sound[32].left != currentaudio[BLOCK + 32] {
              ShiftIn(Left(sound));
            }
            outdata := sound;
          case None =>
            ShiftIn(Left(ZeroRows(BLOCK)));
            outdata := ZeroRows(BLOCK);
        }
        playbacksample := playbacksample + BLOCK;
      } else {
        ShiftIn(Left(ZeroRows(BLOCK)));
        outdata := ZeroRows(BLOCK);
        playbacksample := FrameToSample(playbackframe);
      }
    }

    /** The first step of `getframesound`: put the frame cursor at `frame`
        and recompute the state there. */
    method ReloadAt(frame: int)
      requires Valid()
      modifies this`playbackframe, this`currentframestate, keyframes
      ensures Valid()
      ensures playbackframe == frame
      ensures keyframes.keyframes == StableSort(old(keyframes.keyframes), FrameOf)
      ensures currentframestate == StateProcessor(frame, keyframes.keyframes, act, layer)
    {
      playbackframe := frame;
      currentframestate := GetState(frame);
    }

    /** The mixing step of `getframesound`: channel 0 of the block at the
        sample cursor, which then advances by one block; if mixing raises, the
        cursor stays. */
    method MixFrameBlock() returns (r: Option<seq<int>>)
      modifies this`playbacksample
      ensures match GetSound(currentframestate, old(playbacksample), soundOf)
        case Some(sound) => r == Some(Left(sound)) && playbacksample == old(playbacksample) + BLOCK
        case None => r.None? && playbacksample == old(playbacksample)
    {
      var mixed := GetSound(currentframestate, playbacksample, soundOf);
      match mixed {
        case Some(sound) =>
          r := Some(Left(sound));
          playbacksample := playbacksample + BLOCK;
        case None =>
          r := None;
      }
    }

    /** `getframesound`, the per-block audio of an export: derive the frame
        from the sample cursor, recompute the state there, mix, and advance the
        sample cursor by one block. If mixing raises, the error propagates and
        the sample cursor stays. */
    method GetFrameSound() returns (r: Option<seq<int>>)
      requires Valid()
      modifies this`playbackframe, this`currentframestate, this`playbacksample, keyframes
      ensures Valid()
      ensures playbackframe == SampleToFrame(old(playbacksample))
      ensures keyframes.keyframes == StableSort(old(keyframes.keyframes), FrameOf)
      ensures currentframestate == StateProcessor(playbackframe, keyframes.keyframes, act, layer)
      ensures match GetSound(currentframestate, old(playbacksample), soundOf)
        case Some(sound) => r == Some(Left(sound)) && playbacksample == old(playbacksample) + BLOCK
        case None => r.None? && playbacksample == old(playbacksample)
    {
      var frame := SampleToFrame(playbacksample);
      ReloadAt(frame);
      r := MixFrameBlock();
    }

    /** `keyPressEvent`: the space bar toggles playback and re-anchors the
        playback clock at the current frame; other keys change nothing here. */
    method KeyPress(text: string, now: real)
      modifies this`isplaying, this`starttime, this`startframe
      ensures text == " " ==> isplaying == !old(isplaying) && starttime == now && startframe == playbackframe
      ensures text != " " ==> isplaying == old(isplaying) && starttime == old(starttime) && startframe == old(startframe)
    {
      if text == " " {
        isplaying := !isplaying;
        starttime := now;
        startframe := playbackframe;
      }
    }
  }
}
